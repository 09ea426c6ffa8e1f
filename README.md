# Template validation checkers, modelled in Dafny

This project models the two rule checkers of the template repository's
`validation` directory, and proves what they promise.

**`ConfigValidator`** checks an already-parsed `project-config.yaml` document.
- It runs six passes in a fixed order: required fields, data types, platforms,
  language, tools, consistency.
- Each pass appends messages to the validator's `errors` and `warnings` lists.
- When loading the file fails, or a pass calls `get`, `items`, `values`,
  `lower` or `startswith` on a value that lacks it, the exception ends the run.
  What was already appended is kept, one `Failed to validate config: ...` error
  is added, and `validate` returns false.
- `validate` succeeds exactly when `errors` ends up empty. Warnings never affect
  the result.

**`HardcodedValuesChecker`** scans template files for project-specific values.
- It loads `pattern|description|severity` rules from a pattern file. If the file
  cannot be opened or read, it uses two built-in warning rules instead.
- Lines that already contain a placeholder are skipped.
- Every other line gets one issue per regular-expression match of each rule,
  unless the line reads as an example.
- The command exits with 1 exactly when some issue has severity `error`.

## Project layout
- `wrappers.dfy`: `Option` and `Result`.
- `strings.dfy`: the Python `str` operations the checkers use —
  `strip`, ASCII `lower`, `in`, `startswith`, `find`, `split` on one character,
  `int()` of decimal text and `str()` of an integer — with their algebra. For
  example, split and join are inverses.
- `config_values.dfy`: the parsed document as a `Value` datatype
  (`Map | Str | Bool | Int | Null | Other`), plus Python truthiness, `type()`,
  `dict.get`, `str.lower` and the dotted-path lookup.
- `config_rules.dfy`: each pass as a function from the document to a
  `PassOutcome` (what it appended, plus the exception text if it raised), and
  `ValidateReport`, which strings the passes together as `validate` does.
- `config_validator.dfy`: the `ConfigValidator` class. Its methods append to
  `errors` and `warnings` in place, with loops over the field lists and over
  the path keys. Each method is proved against the function that says what it
  appends.
- `config_properties.dfy`: lemmas about the passes and about `validate`.
- `hardcoded_rules.dfy`: rule parsing, the example-context predicate, the issues
  of a match, rule, line, file and directory, and the exit status, all as
  functions.
- `hardcoded_checker.dfy`: the `HardcodedValuesChecker` class. It has the
  pattern-loading loop and the nested file, line, rule and match loops that
  append to `issues`.
- `hardcoded_properties.dfy`: lemmas about the checker.

## Behaviour of the code worth knowing
- **Passes can abort.** The six passes do not always all run. The first
  exception skips every later pass.
- **A missing `tools` block still warns.** The `tools` pass appends its `saz`
  advice before it lower-cases `language` and `tools.test_runner`. So the advice
  stays even when a later step of that pass raises.
- **Detail-block checks use truthiness.** The Azure DevOps, GitHub and Jira
  detail checks run when their flag is merely truthy, not only when it is
  `True`. The "no platforms enabled" warning and the consistency count, by
  contrast, count only flags that are exactly `True`.
- **`framework` is still lower-cased.** `framework` is never used, but a
  non-string `framework` still aborts the language pass. So does a non-string
  `language`, including an explicit null.
- **Version checks.**
  - The Python and .NET checks read only the first two `.`-pieces.
  - A truthy Java version that is not a string raises. A falsy one (`0`,
    `false`, `{}`) is never checked, so it neither raises nor warns.
  - A truthy integer Python or .NET version is caught inside the check and only
    counts as invalid. A falsy one is never checked and gives no warning.
- **The example-context test ignores the match position.** Its second test,
  which looks at the text from the first `#` on, never adds anything: that text
  is part of the line the first test already searched (`ExampleContextIsWholeLine`).
  So on any line, either every match is suppressed or none is.
- **A missing template directory exits 0.** It fails the check, but there are no
  issues, so the exit status is 0.

## Model

| member | source | states |
|---|---|---|
| ConfigValidation.ConfigValidator.constructor | validation/validate_configs.py:20-24 | a new validator has the given path, an empty document and no errors or warnings |
| ConfigValidation.ConfigValidator.Validate | validation/validate_configs.py:26-39 | appends exactly the errors and warnings of `ValidateReport`; returns true iff `errors` is empty afterwards; a parsed file leaves the loaded document in `config`, any other leaves `config` as it was |
| ConfigValidation.ConfigValidator.RunChecks | validation/validate_configs.py:28-39 | the loop over the six passes appends what `RunPasses` over their outcomes gives, stopping at the first exception with one failure message, and returns true iff `errors` is empty |
| ConfigValidation.ConfigValidator.RunPass | validation/validate_configs.py:30-35 | call number k appends exactly what pass k appends and raises exactly when pass k raises |
| ConfigValidation.ConfigValidator.LoadConfig | validation/validate_configs.py:41-50 | a missing, unreadable or malformed file gives its exception text and leaves `config` alone; a parsed one sets `config` to the document, or `{}` when the document is falsy |
| ConfigValidation.ConfigValidator.ValidateRequiredFields | validation/validate_configs.py:52-63 | appends only to `errors`: the required-field messages of the four listed paths |
| ConfigValidation.ConfigValidator.CheckRequired | validation/validate_configs.py:61-63 | the loop appends, in list order, one message for each path whose lookup is falsy |
| ConfigValidation.ConfigValidator.ValidateDataTypes | validation/validate_configs.py:65-94 | appends the string-field errors, then the boolean-flag errors, and no warning |
| ConfigValidation.ConfigValidator.CheckStrings | validation/validate_configs.py:79-82 | the loop appends one message for each field that is present, not null and not a string |
| ConfigValidation.ConfigValidator.CheckBooleans | validation/validate_configs.py:91-94 | the loop appends one message for each flag that is present, not null and not a boolean |
| ConfigValidation.ConfigValidator.ValidatePlatformConfig | validation/validate_configs.py:96-113 | appends the platform warnings, which are the "none enabled" warning followed by the three detail checks; raises when the document or `platforms` is not a mapping |
| ConfigValidation.ConfigValidator.ValidatePlatformDetails | validation/validate_configs.py:115-131 | warns exactly when the top-level block of that name is absent or falsy |
| ConfigValidation.ConfigValidator.ValidateLanguageConfig | validation/validate_configs.py:133-150 | appends the unsupported-language warning, then the warnings of the language-specific check; raises when `language` or `framework` cannot be lower-cased |
| ConfigValidation.ConfigValidator.ValidatePythonConfig | validation/validate_configs.py:152-158 | warns exactly for a truthy version the Python predicate rejects; raises when `python` is not a mapping |
| ConfigValidation.ConfigValidator.ValidateJavaScriptConfig | validation/validate_configs.py:160-164 | warns exactly for a runtime other than `node`, `bun` or none |
| ConfigValidation.ConfigValidator.ValidateJavaConfig | validation/validate_configs.py:166-172 | warns for a truthy non-LTS string version; raises for a truthy version that is not a string |
| ConfigValidation.ConfigValidator.ValidateDotnetConfig | validation/validate_configs.py:174-180 | warns exactly for a truthy version the .NET predicate rejects |
| ConfigValidation.ConfigValidator.ValidateToolConfig | validation/validate_configs.py:182-205 | appends the cli advice, then the runner advice; a failure while lower-casing `language` or the runner keeps the cli advice |
| ConfigValidation.ConfigValidator.AdviseTestRunner | validation/validate_configs.py:195-205 | appends the advice for the language and runner, and nothing else |
| ConfigValidation.ConfigValidator.ValidateConsistency | validation/validate_configs.py:207-214 | warns once, with the count, when more than one flag is `True`; raises when `platforms` is not a mapping |
| ConfigValidation.ConfigValidator.GetNestedValue | validation/validate_configs.py:216-227 | the loop gives the value the keys of the split path lead to, or `None` |
| ConfigValues.LookupStep | validation/validate_configs.py:221-225 | one more key continues from the value the shorter path reached, or gives `None` |
| ConfigValues.LookupFindsPresentPath | validation/validate_configs.py:216-227 | the lookup gives `None` unless every key is found in a mapping along the path; along a present path it gives the last mapping's entry, which may itself be an explicit null |
| ConfigRules.PlatformPass | validation/validate_configs.py:96-113 | the platform pass never appends an error |
| ConfigValues.Lookup | validation/validate_configs.py:216-227 | `_get_nested_value` on the split keys; characterised by `LookupStep` and `LookupFindsPresentPath` |
| ConfigRules.IsValidPythonVersion | validation/validate_configs.py:229-235 | `_is_valid_python_version`; characterised by `PythonVersionAccepts` and `SinglePieceVersionsRejected` |
| ConfigRules.IsValidJavaVersion | validation/validate_configs.py:237-240 | `_is_valid_java_version`; characterised by `JavaVersionByMajor` |
| ConfigRules.IsValidDotnetVersion | validation/validate_configs.py:242-248 | `_is_valid_dotnet_version`; characterised by `DotnetVersionAccepts` and `SinglePieceVersionsRejected` |
| ConfigRules.RequiredFieldsPass | validation/validate_configs.py:52-63 | `_validate_required_fields` as an outcome; characterised by `RequiredFieldErrorsExact`, `RequiredFieldErrorsPerPath` and `RequiredFieldsReportedOnce` |
| ConfigRules.DataTypesPass | validation/validate_configs.py:65-94 | `_validate_data_types` as an outcome; characterised by `StringTypeErrorsExact` and `BoolTypeErrorsExact` |
| ConfigRules.LanguagePass | validation/validate_configs.py:133-180 | `_validate_language_config` with the four checks it calls; appends no error; characterised by `UnsupportedLanguageExact`, `RuntimeWarningExact`, `VersionWarningsExact`, `NonStringLanguageRaises` and `NonStringFrameworkRaises` |
| ConfigRules.ToolsPass | validation/validate_configs.py:182-205 | `_validate_tool_config`; appends no error; characterised by `CliWarningExact` and `RunnerAdviceExact` |
| ConfigRules.ConsistencyPass | validation/validate_configs.py:207-214 | `_validate_consistency`; appends no error; characterised by `ConsistencyWarningsExact` |
| ConfigRules.RunPasses | validation/validate_configs.py:28-39 | the `try` around the six calls of `validate`; characterised by `RunWithoutFailure`, `RunAbortsAt` and `RunFailureCount` |
| ConfigRules.ValidateReport | validation/validate_configs.py:26-50 | everything `validate` appends, loading included; characterised by `ValidateSucceedsIff`, `ValidateFailureCount` and `FirstFailureEndsValidate` |
| ConfigProperties.PathTextInjective | validation/validate_configs.py:218 | two field paths with the same dotted text are the same path |
| ConfigProperties.RequiredFieldErrorsExact | validation/validate_configs.py:52-63 | "Required field missing: p" is appended iff p is a listed path whose lookup is falsy |
| ConfigProperties.RequiredFieldErrorsCount | validation/validate_configs.py:61-63 | no more messages than listed paths, and none iff every lookup is truthy |
| ConfigProperties.RequiredFieldErrorsPerPath | validation/validate_configs.py:61-63 | the message for path p appears as often as p is listed when p's lookup is falsy, and never when it is truthy |
| ConfigProperties.RequiredFieldsReportedOnce | validation/validate_configs.py:54-63 | each of the four required paths gets exactly one message when its lookup is falsy, and none otherwise |
| ConfigProperties.StringTypeErrorsExact | validation/validate_configs.py:79-82 | every present, non-null, non-string listed field is reported with its type, and every message is such a report |
| ConfigProperties.BoolTypeErrorsExact | validation/validate_configs.py:91-94 | every present, non-null, non-boolean flag is reported with its type, and every message is such a report |
| ConfigProperties.RunWithoutFailure | validation/validate_configs.py:28-36 | with no exception, the run appends what every pass appends, in pass order |
| ConfigProperties.RunAbortsAt | validation/validate_configs.py:28-39 | when pass k is the first to raise, the run keeps what passes 0..k appended, adds one failure message and appends nothing more |
| ConfigProperties.RunFailureCount | validation/validate_configs.py:37-39 | when no pass writes a failure-like message, the run ends with exactly one failure message if a pass raised, and none otherwise |
| ConfigProperties.PassesWriteNoFailureMessages | validation/validate_configs.py:52-94 | no pass appends an error that starts like the failure message |
| ConfigProperties.LaterPassesAppendNoErrors | validation/validate_configs.py:96-214 | the platform, language, tools and consistency passes append warnings only |
| ConfigProperties.ValidateFailureCount | validation/validate_configs.py:37-50 | `validate` records exactly one failure message when loading fails or some pass raises, and none otherwise |
| ConfigProperties.ValidateSucceedsIff | validation/validate_configs.py:26-39 | `validate` succeeds iff the file loads, no pass raises and neither the required-field pass nor the type pass reports anything; warnings play no part |
| ConfigProperties.FirstFailureEndsValidate | validation/validate_configs.py:37-39 | when pass k is the first to raise, `validate` keeps the messages of passes 0..k, adds the failure message, runs no later pass and fails |
| ConfigProperties.NonStringLanguageRaises | validation/validate_configs.py:135 | a `language` that is present but not a string makes the language pass raise the missing-`lower` error, with no warning (byte strings are outside the model) |
| ConfigProperties.NonStringFrameworkRaises | validation/validate_configs.py:136 | a non-string `framework` makes the language pass raise, although its value is never used (byte strings are outside the model) |
| ConfigProperties.PythonVersionAccepts | validation/validate_configs.py:229-235 | a version `major.minor`, possibly followed by more pieces, is accepted iff major is 3 and minor is at least 8 |
| ConfigProperties.DotnetVersionAccepts | validation/validate_configs.py:242-248 | a version `major.minor...` is accepted iff major is 6, 7 or 8 |
| ConfigProperties.SinglePieceVersionsRejected | validation/validate_configs.py:229-248 | a version with fewer than two pieces, or one that is not a string, is rejected by the Python and .NET checks (byte strings are outside the model) |
| ConfigProperties.JavaVersionByMajor | validation/validate_configs.py:237-240 | a string version is accepted iff its first `.`-piece is 8, 11, 17 or 21; any other value raises (byte strings are outside the model) |
| ConfigProperties.EnabledCountZero | validation/validate_configs.py:101-103 | the count of enabled platforms is zero iff no flag is exactly `True` |
| ConfigProperties.PlatformWarningsExact | validation/validate_configs.py:96-131 | the pass raises iff the document or `platforms` is not a mapping; otherwise "none enabled" is warned iff no flag is `True`, and each detail warning iff its flag is truthy and its block absent or falsy |
| ConfigProperties.ConsistencyWarningsExact | validation/validate_configs.py:207-214 | "Multiple platforms enabled (n)" is warned iff more than one flag is `True`, and carries that count |
| ConfigProperties.UnsupportedLanguageExact | validation/validate_configs.py:135-140 | with `language` and `framework` strings or absent, the unsupported-language warning is given iff the lower-cased language is non-empty and not one of the four; for such a language nothing else is appended and nothing raises |
| ConfigProperties.RuntimeWarningExact | validation/validate_configs.py:160-164 | the runtime warning is given iff the language is `javascript`, the `javascript` block is a mapping and its runtime is not `node`, `bun` or none |
| ConfigProperties.VersionWarningsExact | validation/validate_configs.py:143-180 | for `python` and `dotnet` the pass raises iff the block is not a mapping, and warns iff the version is truthy and rejected; for `java` a truthy non-string version raises too, and a string one warns iff it is no LTS release |
| ConfigProperties.CliWarningExact | validation/validate_configs.py:184-189 | the cli advice is given iff the lower-cased `tools.cli` is not `saz`, so a document without `tools` always gets it |
| ConfigProperties.RunnerAdviceExact | validation/validate_configs.py:191-205 | at most one piece of runner advice, given iff the language is one of the four and the runner is outside its set; no runner is always accepted |
| Strings.StripIdempotent | validation/check_hardcoded_values.py:34 | stripping twice is stripping once |
| Strings.SplitPieces | validation/check_hardcoded_values.py:40 | a split has one more piece than separators, no piece holds the separator, and joining the pieces gives the text back |
| Strings.SplitJoin | validation/validate_configs.py:218 | splitting the join of separator-free pieces gives the pieces back |
| Strings.SplitTrailingSeparator | validation/check_hardcoded_values.py:83 | a trailing separator adds one empty piece at the end |
| Strings.ParseDecimal | validation/validate_configs.py:232 | `int(str(n)) == n` for every natural number |
| HardcodedChecking.HardcodedValuesChecker.constructor | validation/check_hardcoded_values.py:20-26 | a new checker has no issues and the rules loaded from its pattern file |
| HardcodedChecking.HardcodedValuesChecker.LoadPatterns | validation/check_hardcoded_values.py:28-60 | the loop gives the rules of the lines read, in file order, or the two built-in rules when opening or reading raised |
| HardcodedChecking.HardcodedValuesChecker.CheckAllFiles | validation/check_hardcoded_values.py:62-76 | appends the issues of every listed file, in listing order; returns true iff the directory exists and `issues` is empty |
| HardcodedChecking.HardcodedValuesChecker.CheckFile | validation/check_hardcoded_values.py:78-94 | appends one unreadable-file issue, or the issues of every line of the text split on newlines, numbered from 1 |
| HardcodedChecking.HardcodedValuesChecker.CheckLine | validation/check_hardcoded_values.py:96-117 | appends nothing for a placeholder line; otherwise appends the issues of each rule in rule order |
| HardcodedChecking.HardcodedValuesChecker.CheckMatches | validation/check_hardcoded_values.py:104-117 | appends one issue per match outside an example context, in match order |
| HardcodedRules.ParseRuleLine | validation/check_hardcoded_values.py:34-43 | the rule one pattern-file line gives; characterised by `ParseRuleLineExact` and `ParseRuleLineRoundTrip` |
| HardcodedRules.LoadedRules | validation/check_hardcoded_values.py:28-60 | `_load_patterns`; characterised by `ParseRulesAppend`, `SkippedLinesAddNothing` and `LoadFailureUsesDefaults` |
| HardcodedRules.HasPlaceholder | validation/check_hardcoded_values.py:99-101 | the placeholder test of `_check_line`; its effect is stated by `LineIssuesAllOrNothing` |
| HardcodedRules.IsInExampleContext | validation/check_hardcoded_values.py:119-148 | `_is_in_example_context`; characterised by `ExampleContextIsWholeLine` |
| HardcodedRules.LineIssues | validation/check_hardcoded_values.py:96-117 | `_check_line`; characterised by `LineIssuesAllOrNothing` and `RuleIssuesOfLine` |
| HardcodedRules.FileIssues | validation/check_hardcoded_values.py:78-94 | `_check_file`; characterised by `TrailingNewlineAddsEmptyLine` and `UnreadableFileExitsOne` |
| HardcodedRules.RunIssues | validation/check_hardcoded_values.py:62-76 | what `check_all_files` appends; characterised by `FilesIssuesAppend` and `MissingDirectoryExitsZero` |
| HardcodedRules.ExitStatus | validation/check_hardcoded_values.py:206-219 | the exit status `main` chooses; characterised by `ExitStatusIff` |
| HardcodedProperties.ParseRuleLineExact | validation/check_hardcoded_values.py:34-43 | a line gives a rule iff, once stripped, it is non-empty, no `#` comment and holds exactly two bars; the rule's fields are stripped and free of bars |
| HardcodedProperties.ParseRuleLineRoundTrip | validation/check_hardcoded_values.py:39-43 | a rule with stripped, bar-free fields, written as a bar-separated line of its three fields, reads back as itself |
| HardcodedProperties.ParseRulesAppend | validation/check_hardcoded_values.py:33-43 | the rules of two runs of lines are the rules of each, in file order |
| HardcodedProperties.SkippedLinesAddNothing | validation/check_hardcoded_values.py:36-37 | a blank or comment line adds no rule |
| HardcodedProperties.LoadFailureUsesDefaults | validation/check_hardcoded_values.py:44-58 | when loading raised, the rules are the two built-in warning rules, whatever was parsed before |
| HardcodedProperties.ExampleContextIsWholeLine | validation/check_hardcoded_values.py:119-148 | a match is in an example context iff the lower-cased line holds one of the 13 indicators, wherever the match starts |
| HardcodedProperties.MatchIssuesSuppressed | validation/check_hardcoded_values.py:106-109 | on a line in an example context, no match gives an issue |
| HardcodedProperties.MatchIssuesKept | validation/check_hardcoded_values.py:106-117 | on any other line, every match gives its issue, in match order |
| HardcodedProperties.MatchBlockSnoc | validation/check_hardcoded_values.py:106 | one more match adds its issue at the end |
| HardcodedProperties.AllMatchIssuesSnoc | validation/check_hardcoded_values.py:104 | one more rule adds its matches' issues at the end |
| HardcodedProperties.RuleIssuesOfLine | validation/check_hardcoded_values.py:104-117 | the rules of a suppressed line give nothing; otherwise they give each rule's issues, every match in order |
| HardcodedProperties.LineIssuesAllOrNothing | validation/check_hardcoded_values.py:96-117 | a placeholder or example line gives no issue; any other line gives one issue per match of each rule, in rule order then match order, with file, line number, message, severity and stripped line |
| HardcodedProperties.TrailingNewlineAddsEmptyLine | validation/check_hardcoded_values.py:83-94 | a trailing newline adds one more, empty, line after the others, numbered one past the newline count |
| HardcodedProperties.FilesIssuesAppend | validation/check_hardcoded_values.py:72-73 | the issues of two runs of files are the issues of each, in order |
| HardcodedProperties.CountErrorsAppend | validation/check_hardcoded_values.py:213 | the error count of a concatenation is the sum of the counts |
| HardcodedProperties.CountErrorsPositive | validation/check_hardcoded_values.py:213-214 | the error count is positive iff some issue has severity exactly `error` |
| HardcodedProperties.ExitStatusIff | validation/check_hardcoded_values.py:206-219 | after a run, the exit status is 1 iff some issue has severity `error`, and 0 otherwise |
| HardcodedProperties.MissingDirectoryExitsZero | validation/check_hardcoded_values.py:64-66 | a missing template directory gives no issues and exit status 0 |
| HardcodedProperties.UnreadableFileExitsOne | validation/check_hardcoded_values.py:84-91 | one unreadable file among the listed ones is enough for exit status 1 |

## Left out
- **File I/O.**
  - File and directory access is not modelled.
  - The configuration file is given as a `ConfigFile` value: missing, unreadable, malformed or parsed.
  - The pattern file is given as the lines read before it ended or raised.
  - The template directory is given as absent, or as the list of files the listing found. Each file is its text or the reason it could not be read. The text is what `open(..., 'r').read()` returns after universal-newline translation, so it holds no `\r\n` or lone `\r` line ends.
- **Globbing.** The `**/*.{md,yaml,yml}` glob and the order it lists files in are left to the caller. `pathlib` does not expand the braces.
- **Pattern-file input.** The model reads the pattern file as lines that have already been split. Python's handling of the line terminators falls to `strip`.
- **YAML parsing.** `yaml.safe_load` is not modelled. Floats, lists, dates and sets become the opaque `Other` value, which carries its type name, its text and its truthiness.
- **Byte strings.** A `!!binary` scalar, which `yaml.safe_load` turns into a Python `bytes` value, is outside the model: `Value` has no case for it. `bytes` has `lower`, `split` and `startswith`, so where such a value sits the source behaves differently from every `Value`. A `bytes` `language`, `framework`, `tools.cli` or `tools.test_runner` is lower-cased without raising, and a `bytes` Python or .NET version raises an uncaught `TypeError` in `split`. A `bytes` Java version raises `TypeError` rather than a missing-attribute error.
- NonStringLanguageRaises: covers every non-string `Value`, not `bytes`, which the source lower-cases without raising.
- NonStringFrameworkRaises: covers every non-string `Value`, not `bytes`, which the source lower-cases without raising.
- SinglePieceVersionsRejected: covers every non-string `Value`, not `bytes`, for which the Python and .NET checks raise `TypeError` instead of giving false.
- JavaVersionByMajor: covers every non-string `Value`, not `bytes`, for which the Java check raises `TypeError` instead of a missing-attribute error.
- **Regular expressions.** The `re` engine and `re.IGNORECASE` are a `Matcher` parameter. It gives the start and text of each match of a pattern on a line, in order. A pattern `re` cannot compile raises `re.error` outside any `try`, so the command stops with a traceback; the model's `Matcher` is total, so what it proves about issues and the exit status holds only for rules whose patterns compile.
- **Letter case.** `str.lower` is modelled for ASCII letters only.
- **`int()`.** `int()` is modelled as optional surrounding whitespace, an optional sign, then ASCII digits. Underscores and non-ASCII digits are not accepted.
- **Exception text.** The text of exceptions is modelled only where the code builds it: the load failures and the missing-attribute errors. A non-empty mapping shown in a version warning appears as `{...}`.
- **Path display.** The path in the "not found" message is the configured text. `Path` normalisation is not modelled.
- **Output and command line.** Left out:
  - `print_results`;
  - every `print`;
  - `argparse`;
  - the search for a configuration file in `main` of the validator;
  - `sys.exit`, beyond the exit-status function;
  - the unused `--fix` and `--exclude-patterns` options.
- **Counters.** The `checked_files` counter is not modelled, because nothing decides on it.
- **Pattern-load messages.** The two messages printed when the pattern file cannot be loaded are left out.
- **Concurrency.** There is none in the source.
