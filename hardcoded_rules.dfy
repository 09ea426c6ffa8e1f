/**
  What the hardcoded-values checker computes, stated as functions: the rules
  read from the pattern file (or the two built-in rules), the issues one line,
  one file and a whole template tree give rise to, and the exit status of the
  command. Regular-expression matching is a parameter: a `Matcher` gives, for a
  pattern and a line, the matches `re.finditer(pattern, line, re.IGNORECASE)`
  yields, in order.
*/
module HardcodedRules {
  import opened Wrappers
  import opened Strings

  // ---------------------------------------------------------------- rules

  /** One `pattern|description|severity` entry of the pattern file. */
  datatype Rule = Rule(pattern: string, description: string, severity: string)

  const Warning := "warning"
  const Error := "error"

  /** The two rules used whenever the pattern file cannot be read. */
  const DefaultRules: seq<Rule> := [
    Rule("\\b(?:Proto|proto)\\b", "project name", Warning),
    Rule("\\b(?:nazh|naz-hage)\\b", "organization/user name", Warning)
  ]

  /**
    The rule one line of the pattern file gives: none for a line that is blank
    or a `#` comment once stripped, or that does not split into exactly three
    `|`-separated parts; otherwise the three parts, each stripped.
  */
  function ParseRuleLine(raw: string): Option<Rule> {
    var line := Strip(raw);
    if line == [] || StartsWith(line, "#") then None
    else
      var parts := Split(line, '|');
      if |parts| == 3 then Some(Rule(Strip(parts[0]), Strip(parts[1]), Strip(parts[2])))
      else None
  }

  /** The rules of the lines, in file order. */
  function ParseRules(lines: seq<string>): seq<Rule>
    decreases |lines|
  {
    if lines == [] then []
    else
      var last := ParseRuleLine(lines[|lines| - 1]);
      ParseRules(lines[..|lines| - 1]) + (if last.Some? then [last.value] else [])
  }

  /** Reading one more line adds its rule, if any, at the end. */
  lemma ParseRulesStep(lines: seq<string>, i: nat)
    requires i < |lines|
    ensures var r := ParseRuleLine(lines[i]);
      ParseRules(lines[..i + 1]) == ParseRules(lines[..i]) + (if r.Some? then [r.value] else [])
  {
    assert lines[..i + 1][..i] == lines[..i];
  }

  /**
    What opening and iterating the pattern file gave: the file was not found,
    or reading it raised after the lines `before` had been read, or all its
    lines were read.
  */
  datatype PatternFile =
    | NotFound
    | Broken(before: seq<string>, reason: string)
    | Complete(lines: seq<string>)

  /** The lines the loop of `_load_patterns` reads before it ends or raises. */
  function LinesRead(file: PatternFile): seq<string> {
    match file
    case NotFound => []
    case Broken(before, _) => before
    case Complete(lines) => lines
  }

  /** `_load_patterns`: the parsed rules, or the two built-in rules when loading raised. */
  function LoadedRules(file: PatternFile): seq<Rule> {
    if file.Complete? then ParseRules(file.lines) else DefaultRules
  }

  // ---------------------------------------------------------------- matching

  /** One match: where it starts in the line, and the matched text. */
  datatype Match = Match(start: nat, text: string)

  /** `re.finditer` with `re.IGNORECASE`, left abstract. */
  type Matcher = (string, string) -> seq<Match>

  /** Python `any(n in s for n in needles)`. */
  predicate ContainsAny(s: string, needles: seq<string>) {
    exists i :: 0 <= i < |needles| && Contains(s, needles[i])
  }

  const Placeholders: seq<string> := ["[PROJECT_NAME]", "[ORG_NAME]", "[TOOL_COMMAND]"]

  /** A line already written with a placeholder is skipped whole (case-sensitive). */
  predicate HasPlaceholder(line: string) {
    ContainsAny(line, Placeholders)
  }

  const ExampleIndicators: seq<string> := [
    "example", "e.g.", "for instance", "such as", "like", "sample", "demo",
    "test", "placeholder", "your-", "my-", "company-", "org-"
  ]

  /**
    `_is_in_example_context`: the lower-cased line holds an indicator, or the
    part of it from the first `#` on does. The match position plays no part.
  */
  predicate IsInExampleContext(line: string, matchPos: nat) {
    var lineLower := Lower(line);
    if ContainsAny(lineLower, ExampleIndicators) then true
    else if '#' in line then
      LowerPointwise(line);
      ContainsAny(lineLower[Find(line, '#')..], ExampleIndicators)
    else false
  }

  // ---------------------------------------------------------------- issues

  /**
    One entry of `issues`. `context`, the stripped line, is absent from the
    entry for an unreadable file.
  */
  datatype Issue = Issue(file: string, line: string, issue: string, severity: string, context: Option<string>)

  const HardcodedPrefix := "Potential hardcoded "
  const UnreadablePrefix := "Could not read file: "

  /** The entry `_check_line` appends for a match of a rule on line `lineNum`. */
  function MatchIssue(path: string, lineNum: nat, line: string, rule: Rule, m: Match): Issue {
    Issue(path, NatToDecimal(lineNum), HardcodedPrefix + rule.description + ": \"" + m.text + "\"",
          rule.severity, Some(Strip(line)))
  }

  /** One entry per match that is not in an example context, in match order. */
  function MatchIssues(path: string, lineNum: nat, line: string, rule: Rule, matches: seq<Match>): seq<Issue>
    decreases |matches|
  {
    if matches == [] then []
    else
      var m := matches[|matches| - 1];
      MatchIssues(path, lineNum, line, rule, matches[..|matches| - 1]) +
        (if IsInExampleContext(line, m.start) then [] else [MatchIssue(path, lineNum, line, rule, m)])
  }

  /** The entries of the rules, in rule order. */
  function RuleIssues(rules: seq<Rule>, matcher: Matcher, path: string, lineNum: nat, line: string): seq<Issue>
    decreases |rules|
  {
    if rules == [] then []
    else
      var rule := rules[|rules| - 1];
      RuleIssues(rules[..|rules| - 1], matcher, path, lineNum, line) +
        MatchIssues(path, lineNum, line, rule, matcher(rule.pattern, line))
  }

  /** `_check_line`: nothing for a placeholder line, else the entries of every rule. */
  function LineIssues(rules: seq<Rule>, matcher: Matcher, path: string, lineNum: nat, line: string): seq<Issue> {
    if HasPlaceholder(line) then [] else RuleIssues(rules, matcher, path, lineNum, line)
  }

  /** The entries of `lines`, numbered from 1. */
  function LinesIssues(rules: seq<Rule>, matcher: Matcher, path: string, lines: seq<string>): seq<Issue>
    decreases |lines|
  {
    if lines == [] then []
    else
      LinesIssues(rules, matcher, path, lines[..|lines| - 1]) +
        LineIssues(rules, matcher, path, |lines|, lines[|lines| - 1])
  }

  /** A template file: its path and either its text or the reason it could not be read. */
  datatype SourceFile =
    | Unreadable(path: string, reason: string)
    | Readable(path: string, content: string)

  /** The entry for a file that could not be read or decoded. */
  function UnreadableIssue(path: string, reason: string): Issue {
    Issue(path, "1", UnreadablePrefix + reason, Error, None)
  }

  /** `_check_file`: the entries of the lines of the text split on `\n`. */
  function FileIssues(rules: seq<Rule>, matcher: Matcher, file: SourceFile): seq<Issue> {
    match file
    case Unreadable(path, reason) => [UnreadableIssue(path, reason)]
    case Readable(path, content) => LinesIssues(rules, matcher, path, Split(content, '\n'))
  }

  /** The entries of the files, in the order the directory listing gives them. */
  function FilesIssues(rules: seq<Rule>, matcher: Matcher, files: seq<SourceFile>): seq<Issue>
    decreases |files|
  {
    if files == [] then []
    else FilesIssues(rules, matcher, files[..|files| - 1]) + FileIssues(rules, matcher, files[|files| - 1])
  }

  /** What `Path(template_dir)` names: no directory at all, or the files the listing finds. */
  datatype TemplateDir = Absent | Present(files: seq<SourceFile>)

  /** What `check_all_files` appends: nothing when the directory is absent. */
  function RunIssues(rules: seq<Rule>, matcher: Matcher, dir: TemplateDir): seq<Issue> {
    if dir.Absent? then [] else FilesIssues(rules, matcher, dir.files)
  }

  // ---------------------------------------------------------------- exit status

  /** The number of entries whose severity is exactly `error`. */
  function CountErrors(issues: seq<Issue>): nat
    decreases |issues|
  {
    if issues == [] then 0
    else CountErrors(issues[..|issues| - 1]) + (if issues[|issues| - 1].severity == Error then 1 else 0)
  }

  /** `main`: 0 when the check passed, else 1 exactly when some entry is an error. */
  function ExitStatus(passed: bool, issues: seq<Issue>): int {
    if passed then 0 else if CountErrors(issues) > 0 then 1 else 0
  }
}
