/**
  What each validation pass of the project-configuration validator appends,
  stated as functions of the loaded document, and how `validate` strings the
  six passes together: in a fixed order, each one appending to `errors` or
  `warnings`, the first exception stopping the rest and turning into a single
  `Failed to validate config: ...` error.
*/
module ConfigRules {
  import opened Wrappers
  import opened Strings
  import opened ConfigValues

  // ---------------------------------------------------------------- field lists

  /**
    A dotted field path such as `project.name`, kept as the keys its text
    splits into; no key holds a `.` itself, so `PathText` gives text that
    splits back into the same keys.
  */
  type FieldPath = keys: seq<string> | |keys| >= 1 && forall i :: 0 <= i < |keys| ==> '.' !in keys[i]
    witness [""]

  function PathText(path: FieldPath): string {
    Join(path, '.')
  }

  const RequiredFields: seq<FieldPath> :=
    [["project", "name"], ["project", "organization"], ["platforms"], ["language"]]

  const StringFields: seq<FieldPath> :=
    [["project", "name"], ["project", "organization"], ["project", "description"], ["language"],
     ["framework"], ["tools", "cli"], ["tools", "test_runner"], ["tools", "linter"]]

  const BoolFields: seq<FieldPath> :=
    [["platforms", "azure_devops"], ["platforms", "github"], ["platforms", "jira"]]

  const SupportedLanguages: seq<string> := ["python", "javascript", "java", "dotnet"]

  const JavaLtsVersions: seq<string> := ["8", "11", "17", "21"]

  /** `_get_nested_value` on the text of a path: split it on `.` and follow the keys. */
  function LookupPath(config: Value, text: string): Value {
    Lookup(config, Split(text, '.'))
  }

  // ---------------------------------------------------------------- messages

  const FailurePrefix := "Failed to validate config: "

  function RequiredMessage(path: FieldPath): string {
    "Required field missing: " + PathText(path)
  }

  function StringTypeMessage(path: FieldPath, v: Value): string {
    "Field " + PathText(path) + " must be a string, got " + ClassName(v)
  }

  function BoolTypeMessage(path: FieldPath, v: Value): string {
    "Field " + PathText(path) + " must be a boolean, got " + ClassName(v)
  }

  const NoPlatformsWarning := "No platforms are enabled. Consider enabling at least one platform."

  const DetailTail := " is enabled but no specific configuration provided"

  function DetailWarning(platform: string): string {
    platform + DetailTail
  }

  const UnsupportedLanguageTail :=
    "' is not in the list of well-supported languages: ['python', 'javascript', 'java', 'dotnet']"

  function UnsupportedLanguageWarning(language: string): string {
    "Language '" + language + UnsupportedLanguageTail
  }

  function PythonVersionWarning(version: Value): string {
    "Python version '" + Show(version) + "' may not be supported"
  }

  const RuntimeWarning := "JavaScript runtime should be 'node' or 'bun'"

  function JavaVersionWarning(version: Value): string {
    "Java version '" + Show(version) + "' may not be LTS"
  }

  function DotnetVersionWarning(version: Value): string {
    ".NET version '" + Show(version) + "' may not be supported"
  }

  const CliWarning := "Consider using 'saz' as the primary CLI tool for consistency"

  /** The test runners accepted for a language, `""` (no runner) always among them. */
  function ExpectedRunners(language: string): seq<string> {
    if language == "python" then ["pytest", "unittest", ""]
    else if language == "javascript" then ["jest", "mocha", "jasmine", ""]
    else if language == "java" then ["junit", "testng", ""]
    else if language == "dotnet" then ["xunit", "nunit", "mstest", ""]
    else []
  }

  const PythonRunnerWarning := "For Python, consider using 'pytest' or 'unittest' as test runner"
  const JavaScriptRunnerWarning := "For JavaScript, consider using 'jest', 'mocha', or 'jasmine' as test runner"
  const JavaRunnerWarning := "For Java, consider using 'junit' or 'testng' as test runner"
  const DotnetRunnerWarning := "For .NET, consider using 'xunit', 'nunit', or 'mstest' as test runner"

  const MultiplePlatformsTail := "). Ensure SAZ is configured correctly for all platforms."

  function MultiplePlatformsWarning(count: nat): string {
    "Multiple platforms enabled (" + NatToDecimal(count) + MultiplePlatformsTail
  }

  // ---------------------------------------------------------------- version predicates

  /**
    `_is_valid_python_version`: the first two `.`-pieces read as integers with
    major 3 and minor at least 8. A non-string, a single piece or a piece that is
    not an integer makes it false (the source catches those exceptions).
  */
  predicate IsValidPythonVersion(version: Value) {
    version.Str? &&
    var parts := Split(version.s, '.');
    |parts| >= 2 &&
    match (ParseInt(parts[0]), ParseInt(parts[1]))
    case (Some(major), Some(minor)) => major == 3 && minor >= 8
    case _ => false
  }

  /** `_is_valid_dotnet_version`: major 6, 7 or 8 with a minor of at least 0. */
  predicate IsValidDotnetVersion(version: Value) {
    version.Str? &&
    var parts := Split(version.s, '.');
    |parts| >= 2 &&
    match (ParseInt(parts[0]), ParseInt(parts[1]))
    case (Some(major), Some(minor)) => (major == 6 || major == 7 || major == 8) && minor >= 0
    case _ => false
  }

  /**
    `_is_valid_java_version`: exactly an LTS release or one followed by `.`.
    Only a string has `startswith`, so any other value raises.
  */
  function IsValidJavaVersion(version: Value): Result<bool> {
    if version.Str? then
      var s := version.s;
      Ok(s in JavaLtsVersions || StartsWith(s, "8.") || StartsWith(s, "11.") ||
         StartsWith(s, "17.") || StartsWith(s, "21."))
    else
      Err(NoAttribute(version, "startswith"))
  }

  // ---------------------------------------------------------------- passes

  /** What one pass appended, and the text of the exception that ended it, if any. */
  datatype PassOutcome = PassOutcome(errors: seq<string>, warnings: seq<string>, failure: Option<string>)

  /** One message per field, in list order, whose lookup is falsy (`_validate_required_fields`). */
  function RequiredFieldErrors(config: Value, fields: seq<FieldPath>): seq<string>
    decreases |fields|
  {
    if fields == [] then []
    else
      var last := fields[|fields| - 1];
      RequiredFieldErrors(config, fields[..|fields| - 1]) +
        (if !Truthy(Lookup(config, last)) then [RequiredMessage(last)] else [])
  }

  predicate WrongStringType(v: Value) {
    v != Null && !v.Str?
  }

  predicate WrongBoolType(v: Value) {
    v != Null && !v.Bool?
  }

  /** One message per listed field that is present, not null and not a string. */
  function StringTypeErrors(config: Value, fields: seq<FieldPath>): seq<string>
    decreases |fields|
  {
    if fields == [] then []
    else
      var last := fields[|fields| - 1];
      var v := Lookup(config, last);
      StringTypeErrors(config, fields[..|fields| - 1]) +
        (if WrongStringType(v) then [StringTypeMessage(last, v)] else [])
  }

  /** One message per listed field that is present, not null and not a boolean. */
  function BoolTypeErrors(config: Value, fields: seq<FieldPath>): seq<string>
    decreases |fields|
  {
    if fields == [] then []
    else
      var last := fields[|fields| - 1];
      var v := Lookup(config, last);
      BoolTypeErrors(config, fields[..|fields| - 1]) +
        (if WrongBoolType(v) then [BoolTypeMessage(last, v)] else [])
  }

  /** Checking one more required field adds its message, if any, at the end. */
  lemma RequiredFieldErrorsStep(config: Value, fields: seq<FieldPath>, i: nat)
    requires i < |fields|
    ensures RequiredFieldErrors(config, fields[..i + 1]) ==
      RequiredFieldErrors(config, fields[..i]) +
        (if !Truthy(Lookup(config, fields[i])) then [RequiredMessage(fields[i])] else [])
  {
    assert fields[..i + 1][..i] == fields[..i];
  }

  /** Checking one more string field adds its message, if any, at the end. */
  lemma StringTypeErrorsStep(config: Value, fields: seq<FieldPath>, i: nat)
    requires i < |fields|
    ensures var v := Lookup(config, fields[i]);
      StringTypeErrors(config, fields[..i + 1]) ==
        StringTypeErrors(config, fields[..i]) + (if WrongStringType(v) then [StringTypeMessage(fields[i], v)] else [])
  {
    assert fields[..i + 1][..i] == fields[..i];
  }

  /** Checking one more boolean field adds its message, if any, at the end. */
  lemma BoolTypeErrorsStep(config: Value, fields: seq<FieldPath>, i: nat)
    requires i < |fields|
    ensures var v := Lookup(config, fields[i]);
      BoolTypeErrors(config, fields[..i + 1]) ==
        BoolTypeErrors(config, fields[..i]) + (if WrongBoolType(v) then [BoolTypeMessage(fields[i], v)] else [])
  {
    assert fields[..i + 1][..i] == fields[..i];
  }

  function RequiredFieldsPass(config: Value): PassOutcome {
    PassOutcome(RequiredFieldErrors(config, RequiredFields), [], None)
  }

  function DataTypesPass(config: Value): PassOutcome {
    PassOutcome(StringTypeErrors(config, StringFields) + BoolTypeErrors(config, BoolFields), [], None)
  }

  /** The number of platform flags that are exactly `True`. */
  function EnabledCount(flags: map<string, Value>): nat {
    |set k | k in flags && flags[k] == Bool(true)|
  }

  /** `_validate_azure_devops_config` and its two siblings: the block named `key` is absent or falsy. */
  function DetailBlockWarnings(config: map<string, Value>, key: string, platform: string): seq<string> {
    if !Truthy(MapGet(config, key, EmptyMap)) then [DetailWarning(platform)] else []
  }

  /** The detail-block check for `key` runs when its flag is merely truthy. */
  function PlatformDetailWarnings(config: map<string, Value>, flags: map<string, Value>, key: string, platform: string): seq<string> {
    if Truthy(MapGet(flags, key, Null)) then DetailBlockWarnings(config, key, platform) else []
  }

  /** `_validate_platform_config`: raises unless the document and its `platforms` value are mappings. */
  function PlatformPass(config: Value): (o: PassOutcome)
    ensures o.errors == []
  {
    match PyGet(config, "platforms", EmptyMap)
    case Err(e) => PassOutcome([], [], Some(e))
    case Ok(platforms) =>
      if !platforms.Map? then PassOutcome([], [], Some(NoAttribute(platforms, "items")))
      else
        var flags := platforms.entries;
        PassOutcome([],
          (if EnabledCount(flags) == 0 then [NoPlatformsWarning] else []) +
          PlatformDetailWarnings(config.entries, flags, "azure_devops", "Azure DevOps") +
          PlatformDetailWarnings(config.entries, flags, "github", "GitHub") +
          PlatformDetailWarnings(config.entries, flags, "jira", "Jira"),
          None)
  }

  /** `_validate_python_config`. */
  function PythonWarnings(config: Value): Result<seq<string>> {
    var pythonConfig :- PyGet(config, "python", EmptyMap);
    var version :- PyGet(pythonConfig, "version", Null);
    Ok(if Truthy(version) && !IsValidPythonVersion(version) then [PythonVersionWarning(version)] else [])
  }

  /** `_validate_javascript_config`: a runtime other than `node`, `bun` or none warns. */
  function JavaScriptWarnings(config: Value): Result<seq<string>> {
    var jsConfig :- PyGet(config, "javascript", EmptyMap);
    var runtime :- PyGet(jsConfig, "runtime", Null);
    Ok(if runtime !in [Str("node"), Str("bun"), Null] then [RuntimeWarning] else [])
  }

  /** `_validate_java_config`. */
  function JavaWarnings(config: Value): Result<seq<string>> {
    var javaConfig :- PyGet(config, "java", EmptyMap);
    var version :- PyGet(javaConfig, "version", Null);
    if !Truthy(version) then Ok([])
    else
      var valid :- IsValidJavaVersion(version);
      Ok(if valid then [] else [JavaVersionWarning(version)])
  }

  /** `_validate_dotnet_config`. */
  function DotnetWarnings(config: Value): Result<seq<string>> {
    var dotnetConfig :- PyGet(config, "dotnet", EmptyMap);
    var version :- PyGet(dotnetConfig, "version", Null);
    Ok(if Truthy(version) && !IsValidDotnetVersion(version) then [DotnetVersionWarning(version)] else [])
  }

  /** The warnings a check appended before returning or raising. */
  function WarningsOf(r: Result<seq<string>>): seq<string> {
    if r.Ok? then r.value else []
  }

  /** The text of the exception a check raised, if any. */
  function FailureOf<T>(r: Result<T>): Option<string> {
    if r.Ok? then None else Some(r.error)
  }

  /** The language-specific check the lower-cased language selects, if any. */
  function LanguageSpecificWarnings(config: Value, language: string): Result<seq<string>> {
    if language == "python" then PythonWarnings(config)
    else if language == "javascript" then JavaScriptWarnings(config)
    else if language == "java" then JavaWarnings(config)
    else if language == "dotnet" then DotnetWarnings(config)
    else Ok([])
  }

  /** `_validate_language_config`: both `language` and `framework` must be strings when present. */
  function LanguageWarnings(config: Value): Result<seq<string>> {
    var languageValue :- PyGet(config, "language", Str(""));
    var language :- PyLower(languageValue);
    var frameworkValue :- PyGet(config, "framework", Str(""));
    var framework :- PyLower(frameworkValue);
    var unsupported :=
      if language != "" && language !in SupportedLanguages then [UnsupportedLanguageWarning(language)] else [];
    var specific :- LanguageSpecificWarnings(config, language);
    Ok(unsupported + specific)
  }

  function LanguagePass(config: Value): (o: PassOutcome)
    ensures o.errors == []
  {
    match LanguageWarnings(config)
    case Ok(w) => PassOutcome([], w, None)
    case Err(e) => PassOutcome([], [], Some(e))
  }

  /**
    The advice for a lower-cased language and test runner: the four checks of
    `_validate_tool_config`, whose conditions exclude each other.
  */
  function RunnerAdvice(language: string, runner: string): seq<string> {
    if language == "python" then
      (if runner !in ["pytest", "unittest", ""] then [PythonRunnerWarning] else [])
    else if language == "javascript" then
      (if runner !in ["jest", "mocha", "jasmine", ""] then [JavaScriptRunnerWarning] else [])
    else if language == "java" then
      (if runner !in ["junit", "testng", ""] then [JavaRunnerWarning] else [])
    else if language == "dotnet" then
      (if runner !in ["xunit", "nunit", "mstest", ""] then [DotnetRunnerWarning] else [])
    else []
  }

  /** The `tools.cli` check: `tools` must be a mapping, and its `cli` a string when present. */
  function CliWarnings(tools: Value): Result<seq<string>> {
    var cliValue :- PyGet(tools, "cli", Str(""));
    var cli :- PyLower(cliValue);
    Ok(if cli != "saz" then [CliWarning] else [])
  }

  /** The test-runner check, which lower-cases `language` and then `tools.test_runner`. */
  function RunnerWarnings(config: Value, tools: Value): Result<seq<string>> {
    var languageValue :- PyGet(config, "language", Str(""));
    var language :- PyLower(languageValue);
    var runnerValue :- PyGet(tools, "test_runner", Str(""));
    var runner :- PyLower(runnerValue);
    Ok(RunnerAdvice(language, runner))
  }

  /** `_validate_tool_config`: the cli warning is already appended when the runner check raises. */
  function ToolsPass(config: Value): (o: PassOutcome)
    ensures o.errors == []
  {
    match PyGet(config, "tools", EmptyMap)
    case Err(e) => PassOutcome([], [], Some(e))
    case Ok(tools) =>
      match CliWarnings(tools)
      case Err(e) => PassOutcome([], [], Some(e))
      case Ok(cli) =>
        match RunnerWarnings(config, tools)
        case Err(e) => PassOutcome([], cli, Some(e))
        case Ok(runner) => PassOutcome([], cli + runner, None)
  }

  /** `_validate_consistency`. */
  function ConsistencyPass(config: Value): (o: PassOutcome)
    ensures o.errors == []
  {
    match PyGet(config, "platforms", EmptyMap)
    case Err(e) => PassOutcome([], [], Some(e))
    case Ok(platforms) =>
      if !platforms.Map? then PassOutcome([], [], Some(NoAttribute(platforms, "values")))
      else
        var n := EnabledCount(platforms.entries);
        PassOutcome([], if n > 1 then [MultiplePlatformsWarning(n)] else [], None)
  }

  /** The number of passes `validate` runs after loading the file. */
  const PassCount := 6

  /** Pass `k` of `validate`, counting from 0 in the order it runs them. */
  function Pass(k: nat, config: Value): PassOutcome
    requires k < PassCount
  {
    if k == 0 then RequiredFieldsPass(config)
    else if k == 1 then DataTypesPass(config)
    else if k == 2 then PlatformPass(config)
    else if k == 3 then LanguagePass(config)
    else if k == 4 then ToolsPass(config)
    else ConsistencyPass(config)
  }

  /** The outcomes of the six passes, in the order `validate` runs them. */
  function Passes(config: Value): (ps: seq<PassOutcome>)
    ensures |ps| == PassCount
    ensures forall k :: 0 <= k < PassCount ==> ps[k] == Pass(k, config)
  {
    seq(PassCount, k requires 0 <= k < PassCount => Pass(k, config))
  }

  /** Running the outcomes from `k` on: outcome `k`, then the rest unless it raised. */
  lemma RunPassesStep(outcomes: seq<PassOutcome>, k: nat)
    requires k < |outcomes|
    ensures var o, rest := outcomes[k], RunPasses(outcomes[k + 1..]);
      RunPasses(outcomes[k..]) ==
        match o.failure
        case Some(e) => Report(o.errors + [FailurePrefix + e], o.warnings)
        case None => Report(o.errors + rest.errors, o.warnings + rest.warnings)
  {
    assert outcomes[k..][1..] == outcomes[k + 1..];
  }

  // ---------------------------------------------------------------- validate

  /** What the configuration file turned out to hold. */
  datatype ConfigFile =
    | Missing                       // the path does not exist
    | Unreadable(reason: string)    // open or decoding failed
    | Malformed(yamlError: string)  // `yaml.safe_load` raised
    | Parsed(document: Value)

  /** `yaml.safe_load(f) or {}`. */
  function LoadedDocument(document: Value): (config: Value)
    ensures Truthy(document) ==> config == document
    ensures !Truthy(document) ==> config == EmptyMap
  {
    if Truthy(document) then document else EmptyMap
  }

  /** `str(e)` of the exception `_load_config` raises, if any. */
  function LoadFailure(path: string, file: ConfigFile): Option<string> {
    match file
    case Missing => Some("Configuration file not found: " + path)
    case Unreadable(reason) => Some(reason)
    case Malformed(e) => Some("Invalid YAML syntax: " + e)
    case Parsed(_) => None
  }

  datatype Report = Report(errors: seq<string>, warnings: seq<string>)

  /**
    Runs pass outcomes in order: a pass that raised keeps what it appended,
    adds the failure message and ends the run.
  */
  function RunPasses(outcomes: seq<PassOutcome>): Report
    decreases |outcomes|
  {
    if outcomes == [] then Report([], [])
    else
      var o := outcomes[0];
      match o.failure
      case Some(e) => Report(o.errors + [FailurePrefix + e], o.warnings)
      case None =>
        var rest := RunPasses(outcomes[1..]);
        Report(o.errors + rest.errors, o.warnings + rest.warnings)
  }

  /** Everything `validate` appends to `errors` and `warnings` for the file at `path`. */
  function ValidateReport(path: string, file: ConfigFile): Report {
    match LoadFailure(path, file)
    case Some(e) => Report([FailurePrefix + e], [])
    case None => RunPasses(Passes(LoadedDocument(file.document)))
  }

  // ---------------------------------------------------------------- reference sums

  function AllErrors(outcomes: seq<PassOutcome>): seq<string>
    decreases |outcomes|
  {
    if outcomes == [] then [] else outcomes[0].errors + AllErrors(outcomes[1..])
  }

  function AllWarnings(outcomes: seq<PassOutcome>): seq<string>
    decreases |outcomes|
  {
    if outcomes == [] then [] else outcomes[0].warnings + AllWarnings(outcomes[1..])
  }

  predicate NoneFailed(outcomes: seq<PassOutcome>) {
    forall i :: 0 <= i < |outcomes| ==> outcomes[i].failure.None?
  }

  /** The number of errors that announce an aborted validation. */
  function FailureCount(errors: seq<string>): nat
    decreases |errors|
  {
    if errors == [] then 0
    else (if StartsWith(errors[0], FailurePrefix) then 1 else 0) + FailureCount(errors[1..])
  }
}
