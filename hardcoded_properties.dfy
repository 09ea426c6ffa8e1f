/**
  What the hardcoded-values checker promises, proved about the functions of
  `HardcodedRules`: how a pattern-file line is read (and written back), the
  fallback to the built-in rules, suppression of whole lines, the order and
  shape of the entries, line numbering, and the exit status.
*/
module HardcodedProperties {
  import opened Wrappers
  import opened Strings
  import opened HardcodedRules

  // ---------------------------------------------------------------- pattern file

  /** A rule written as a pattern-file line. */
  function RuleLine(rule: Rule): string {
    Join([rule.pattern, rule.description, rule.severity], '|')
  }

  /** A field that survives being written into a line and read back: stripped and free of `|`. */
  predicate WritableField(f: string) {
    Strip(f) == f && '|' !in f
  }

  /**
    A line gives a rule exactly when, once stripped, it is neither empty nor a
    `#` comment and holds exactly two `|`; each field of the rule is stripped and
    free of `|`.
  */
  lemma ParseRuleLineExact(raw: string)
    ensures ParseRuleLine(raw).Some? <==>
      var line := Strip(raw); line != [] && !StartsWith(line, "#") && Count(line, '|') == 2
    ensures ParseRuleLine(raw).Some? ==>
      var r := ParseRuleLine(raw).value;
      WritableField(r.pattern) && WritableField(r.description) && WritableField(r.severity)
  {
    var line := Strip(raw);
    SplitPieces(line, '|');
    var parts := Split(line, '|');
    if line != [] && !StartsWith(line, "#") && |parts| == 3 {
      assert '|' !in parts[0] && '|' !in parts[1] && '|' !in parts[2];
      StripIdempotent(parts[0]);
      StripIdempotent(parts[1]);
      StripIdempotent(parts[2]);
      StripKeepsOut(parts[0], '|');
      StripKeepsOut(parts[1], '|');
      StripKeepsOut(parts[2], '|');
    }
  }

  /** Writing a rule as a line and reading the line gives the rule back. */
  lemma ParseRuleLineRoundTrip(rule: Rule)
    requires WritableField(rule.pattern) && WritableField(rule.description) && WritableField(rule.severity)
    requires !StartsWith(rule.pattern, "#")
    ensures ParseRuleLine(RuleLine(rule)) == Some(rule)
  {
    WritableEnds(rule);
    RuleLineStripped(rule);
    RuleLineSplit(rule);
    ParseStrippedLine(RuleLine(rule));
  }

  /** How a line that is already stripped and no comment is read. */
  lemma ParseStrippedLine(line: string)
    requires Strip(line) == line && line != [] && !StartsWith(line, "#")
    ensures var parts := Split(line, '|');
      ParseRuleLine(line) == if |parts| == 3 then Some(Rule(Strip(parts[0]), Strip(parts[1]), Strip(parts[2]))) else None
  {
  }

  lemma WritableEnds(rule: Rule)
    requires WritableField(rule.pattern) && WritableField(rule.severity)
    requires !StartsWith(rule.pattern, "#")
    ensures GoodEnds(rule)
  {
    assert Strip(rule.pattern) == rule.pattern && Strip(rule.severity) == rule.severity;
  }

  /** The first field neither starts with whitespace nor `#`, and the last does not end with whitespace. */
  predicate GoodEnds(rule: Rule) {
    (rule.pattern == [] || (!IsSpace(rule.pattern[0]) && rule.pattern[0] != '#')) &&
    (rule.severity == [] || !IsSpace(rule.severity[|rule.severity| - 1]))
  }

  /** Such a line is already stripped and is no comment. */
  lemma RuleLineStripped(rule: Rule)
    requires GoodEnds(rule)
    ensures var line := RuleLine(rule); Strip(line) == line && line != [] && !StartsWith(line, "#")
  {
    RuleLineEnds(rule);
    StripUnchanged(RuleLine(rule));
  }

  /** The first and last characters of such a line. */
  lemma RuleLineEnds(rule: Rule)
    requires GoodEnds(rule)
    ensures var line := RuleLine(rule);
      line != [] && !IsSpace(line[0]) && !IsSpace(line[|line| - 1]) && !StartsWith(line, "#")
  {
    var p, d, s := rule.pattern, rule.description, rule.severity;
    var parts := [p, d, s];
    assert parts[1..] == [d, s] && parts[1..][1..] == [s];
    assert Join([s], '|') == s;
    assert Join([d, s], '|') == d + ['|'] + s;
    var line := p + ['|'] + (d + ['|'] + s);
    assert RuleLine(rule) == line;
    assert line[0] == if p == [] then '|' else p[0];
    assert line[|line| - 1] == if s == [] then '|' else s[|s| - 1];
  }

  /** A line written from `|`-free fields splits into the fields. */
  lemma RuleLineSplit(rule: Rule)
    requires '|' !in rule.pattern && '|' !in rule.description && '|' !in rule.severity
    ensures Split(RuleLine(rule), '|') == [rule.pattern, rule.description, rule.severity]
  {
    var parts := [rule.pattern, rule.description, rule.severity];
    forall i | 0 <= i < |parts| ensures '|' !in parts[i] {
      assert parts[i] == if i == 0 then rule.pattern else if i == 1 then rule.description else rule.severity;
    }
    SplitJoin(parts, '|');
  }

  /** The rules of two runs of lines are the rules of each, in order. */
  lemma {:induction false} ParseRulesAppend(a: seq<string>, b: seq<string>)
    ensures ParseRules(a + b) == ParseRules(a) + ParseRules(b)
    decreases |b|
  {
    if b == [] {
      assert a + b == a;
    } else {
      var init := b[..|b| - 1];
      ParseRulesAppend(a, init);
      assert (a + b)[..|a + b| - 1] == a + init;
      assert (a + b)[|a + b| - 1] == b[|b| - 1];
      var last := ParseRuleLine(b[|b| - 1]);
      AppendAssoc(ParseRules(a), ParseRules(init), if last.Some? then [last.value] else []);
    }
  }

  /** Blank and comment lines add nothing wherever they stand. */
  lemma SkippedLinesAddNothing(lines: seq<string>, raw: string)
    requires Strip(raw) == [] || StartsWith(Strip(raw), "#")
    ensures ParseRules(lines + [raw]) == ParseRules(lines)
  {
    assert (lines + [raw])[..|lines|] == lines;
  }

  /**
    When opening or reading the pattern file raises, the rules are the two
    built-in warnings, whatever lines had been read before.
  */
  lemma LoadFailureUsesDefaults(file: PatternFile)
    requires !file.Complete?
    ensures LoadedRules(file) == LoadedRules(NotFound) == DefaultRules
    ensures |LoadedRules(file)| == 2
    ensures forall i :: 0 <= i < |LoadedRules(file)| ==> LoadedRules(file)[i].severity == Warning
  {
  }

  // ---------------------------------------------------------------- example context

  /**
    The `#`-suffix test adds nothing: a match is in an example context exactly
    when the lower-cased line holds an indicator, wherever the match starts.
  */
  lemma ExampleContextIsWholeLine(line: string, matchPos: nat)
    ensures IsInExampleContext(line, matchPos) <==> ContainsAny(Lower(line), ExampleIndicators)
  {
    var lower := Lower(line);
    LowerPointwise(line);
    if '#' in line {
      var k := Find(line, '#');
      if ContainsAny(lower[k..], ExampleIndicators) {
        var i :| 0 <= i < |ExampleIndicators| && Contains(lower[k..], ExampleIndicators[i]);
        ContainsInSuffix(lower, k, ExampleIndicators[i]);
      }
    }
  }

  /** The lines whose every match is suppressed. */
  predicate Suppressed(line: string) {
    ContainsAny(Lower(line), ExampleIndicators)
  }

  lemma {:induction false} MatchIssuesSuppressed(path: string, n: nat, line: string, rule: Rule, ms: seq<Match>)
    requires Suppressed(line)
    ensures MatchIssues(path, n, line, rule, ms) == []
    decreases |ms|
  {
    if ms != [] {
      MatchIssuesSuppressed(path, n, line, rule, ms[..|ms| - 1]);
      ExampleContextIsWholeLine(line, ms[|ms| - 1].start);
    }
  }

  /** On a line that is not an example context, every match gives its entry, in order. */
  lemma {:induction false} MatchIssuesKept(path: string, n: nat, line: string, rule: Rule, ms: seq<Match>)
    requires !Suppressed(line)
    ensures MatchIssues(path, n, line, rule, ms) == MatchBlock(path, n, line, rule, ms)
    decreases |ms|
  {
    if ms != [] {
      var init := ms[..|ms| - 1];
      MatchIssuesKept(path, n, line, rule, init);
      ExampleContextIsWholeLine(line, ms[|ms| - 1].start);
      MatchBlockSnoc(path, n, line, rule, ms);
    }
  }

  lemma MatchBlockSnoc(path: string, n: nat, line: string, rule: Rule, ms: seq<Match>)
    requires ms != []
    ensures MatchBlock(path, n, line, rule, ms) ==
      MatchBlock(path, n, line, rule, ms[..|ms| - 1]) + [MatchIssue(path, n, line, rule, ms[|ms| - 1])]
  {
    var init := ms[..|ms| - 1];
    var block, front := MatchBlock(path, n, line, rule, ms), MatchBlock(path, n, line, rule, init);
    forall j | 0 <= j < |front|
      ensures block[j] == front[j]
    {
      assert init[j] == ms[j];
    }
  }

  /** One entry per match, in match order. */
  function MatchBlock(path: string, n: nat, line: string, rule: Rule, ms: seq<Match>): seq<Issue> {
    seq(|ms|, j requires 0 <= j < |ms| => MatchIssue(path, n, line, rule, ms[j]))
  }

  /** Independent statement of an unsuppressed line: each rule in turn, every one of its matches. */
  function AllMatchIssues(rules: seq<Rule>, matcher: Matcher, path: string, n: nat, line: string): seq<Issue>
    decreases |rules|
  {
    if rules == [] then []
    else MatchBlock(path, n, line, rules[0], matcher(rules[0].pattern, line)) +
         AllMatchIssues(rules[1..], matcher, path, n, line)
  }

  lemma {:induction false} AllMatchIssuesSnoc(rules: seq<Rule>, matcher: Matcher, path: string, n: nat, line: string)
    requires rules != []
    ensures var last := rules[|rules| - 1];
      AllMatchIssues(rules, matcher, path, n, line) ==
        AllMatchIssues(rules[..|rules| - 1], matcher, path, n, line) +
        MatchBlock(path, n, line, last, matcher(last.pattern, line))
    decreases |rules|
  {
    if |rules| > 1 {
      var tail := rules[1..];
      AllMatchIssuesSnoc(tail, matcher, path, n, line);
      assert tail[..|tail| - 1] == rules[..|rules| - 1][1..];
      var first := MatchBlock(path, n, line, rules[0], matcher(rules[0].pattern, line));
      var last := rules[|rules| - 1];
      AppendAssoc(first, AllMatchIssues(tail[..|tail| - 1], matcher, path, n, line),
                  MatchBlock(path, n, line, last, matcher(last.pattern, line)));
    }
  }

  lemma {:induction false} RuleIssuesOfLine(rules: seq<Rule>, matcher: Matcher, path: string, n: nat, line: string)
    ensures Suppressed(line) ==> RuleIssues(rules, matcher, path, n, line) == []
    ensures !Suppressed(line) ==> RuleIssues(rules, matcher, path, n, line) == AllMatchIssues(rules, matcher, path, n, line)
    decreases |rules|
  {
    if rules != [] {
      var init, last := rules[..|rules| - 1], rules[|rules| - 1];
      RuleIssuesOfLine(init, matcher, path, n, line);
      if Suppressed(line) {
        MatchIssuesSuppressed(path, n, line, last, matcher(last.pattern, line));
      } else {
        MatchIssuesKept(path, n, line, last, matcher(last.pattern, line));
        AllMatchIssuesSnoc(rules, matcher, path, n, line);
      }
    }
  }

  /**
    A line with a placeholder, and a line in an example context, give no entry;
    any other line gives one entry per match of each rule, in rule order and
    then match order, each naming the file, the line number, the rule's
    description and severity, the matched text and the stripped line.
  */
  lemma LineIssuesAllOrNothing(rules: seq<Rule>, matcher: Matcher, path: string, n: nat, line: string)
    ensures HasPlaceholder(line) || Suppressed(line) ==> LineIssues(rules, matcher, path, n, line) == []
    ensures !HasPlaceholder(line) && !Suppressed(line) ==>
      LineIssues(rules, matcher, path, n, line) == AllMatchIssues(rules, matcher, path, n, line)
  {
    RuleIssuesOfLine(rules, matcher, path, n, line);
  }

  // ---------------------------------------------------------------- files

  /** A trailing newline adds one more, empty, line after the others. */
  lemma TrailingNewlineAddsEmptyLine(rules: seq<Rule>, matcher: Matcher, path: string, content: string)
    ensures FileIssues(rules, matcher, Readable(path, content + "\n")) ==
      FileIssues(rules, matcher, Readable(path, content)) +
      LineIssues(rules, matcher, path, Count(content, '\n') + 2, "")
  {
    SplitTrailingSeparator(content, '\n');
    SplitPieces(content, '\n');
    var lines := Split(content, '\n');
    assert (lines + [""])[..|lines|] == lines;
  }

  /** The entries of two runs of files are the entries of each, in order. */
  lemma {:induction false} FilesIssuesAppend(rules: seq<Rule>, matcher: Matcher, a: seq<SourceFile>, b: seq<SourceFile>)
    ensures FilesIssues(rules, matcher, a + b) == FilesIssues(rules, matcher, a) + FilesIssues(rules, matcher, b)
    decreases |b|
  {
    if b == [] {
      assert a + b == a;
    } else {
      var init := b[..|b| - 1];
      FilesIssuesAppend(rules, matcher, a, init);
      assert (a + b)[..|a + b| - 1] == a + init;
      assert (a + b)[|a + b| - 1] == b[|b| - 1];
      AppendAssoc(FilesIssues(rules, matcher, a), FilesIssues(rules, matcher, init),
                  FileIssues(rules, matcher, b[|b| - 1]));
    }
  }

  // ---------------------------------------------------------------- exit status

  lemma {:induction false} CountErrorsAppend(a: seq<Issue>, b: seq<Issue>)
    ensures CountErrors(a + b) == CountErrors(a) + CountErrors(b)
    decreases |b|
  {
    if b != [] {
      CountErrorsAppend(a, b[..|b| - 1]);
      assert (a + b)[..|a + b| - 1] == a + b[..|b| - 1];
    } else {
      assert a + b == a;
    }
  }

  /** Some entry is an error exactly when the error count is positive. */
  lemma {:induction false} CountErrorsPositive(issues: seq<Issue>)
    ensures CountErrors(issues) > 0 <==> exists i :: 0 <= i < |issues| && issues[i].severity == Error
    decreases |issues|
  {
    if issues != [] {
      var init := issues[..|issues| - 1];
      CountErrorsPositive(init);
      assert forall i :: 0 <= i < |init| ==> init[i] == issues[i];
    }
  }

  /**
    The exit status after a run: 1 exactly when some entry has severity
    `error`, and 0 otherwise, warnings and informational entries included.
  */
  lemma ExitStatusIff(rules: seq<Rule>, matcher: Matcher, dir: TemplateDir)
    ensures var issues := RunIssues(rules, matcher, dir);
      var passed := dir.Present? && issues == [];
      (ExitStatus(passed, issues) == 1 <==> exists i :: 0 <= i < |issues| && issues[i].severity == Error) &&
      (ExitStatus(passed, issues) == 0 || ExitStatus(passed, issues) == 1)
  {
    CountErrorsPositive(RunIssues(rules, matcher, dir));
  }

  /** A missing template directory fails the check but gives exit status 0. */
  lemma MissingDirectoryExitsZero(rules: seq<Rule>, matcher: Matcher)
    ensures RunIssues(rules, matcher, Absent) == []
    ensures ExitStatus(false, RunIssues(rules, matcher, Absent)) == 0
  {
  }

  /** One unreadable template file is enough for exit status 1. */
  lemma UnreadableFileExitsOne(rules: seq<Rule>, matcher: Matcher, files: seq<SourceFile>, k: nat)
    requires k < |files| && files[k].Unreadable?
    ensures var issues := RunIssues(rules, matcher, Present(files));
      issues != [] && ExitStatus(issues == [], issues) == 1
  {
    assert files == files[..k + 1] + files[k + 1..];
    FilesIssuesAppend(rules, matcher, files[..k + 1], files[k + 1..]);
    assert files[..k + 1][..k] == files[..k];
    var before := FilesIssues(rules, matcher, files[..k]);
    var unreadable := [UnreadableIssue(files[k].path, files[k].reason)];
    var after := FilesIssues(rules, matcher, files[k + 1..]);
    CountErrorsAppend(before, unreadable);
    CountErrorsAppend(before + unreadable, after);
    assert CountErrors(unreadable) == 1 by {
      assert unreadable[..0] == [];
    }
  }
}
