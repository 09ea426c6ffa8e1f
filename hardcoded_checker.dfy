/**
  `HardcodedValuesChecker`: the object that loads its rules once and then
  appends to its `issues` list file by file, line by line, rule by rule and
  match by match. Every method is proved against the function of
  `HardcodedRules` that says what it appends.
*/
module HardcodedChecking {
  import opened Wrappers
  import opened Strings
  import opened HardcodedRules

  class HardcodedValuesChecker {
    const templateDir: TemplateDir
    const patternsFile: PatternFile
    var issues: seq<Issue>
    var hardcodedPatterns: seq<Rule>

    /** `__init__`: no issues yet, and the rules loaded from the pattern file. */
    constructor (templateDir: TemplateDir, patternsFile: PatternFile)
      ensures this.templateDir == templateDir && this.patternsFile == patternsFile
      ensures issues == [] && hardcodedPatterns == LoadedRules(patternsFile)
    {
      this.templateDir := templateDir;
      this.patternsFile := patternsFile;
      new;
      issues := [];
      hardcodedPatterns := LoadPatterns();
    }

    /**
      `_load_patterns`: the rules of the lines read, in order; when opening or
      reading raised, whatever was parsed is dropped for the built-in rules.
    */
    method LoadPatterns() returns (patterns: seq<Rule>)
      ensures patterns == LoadedRules(patternsFile)
    {
      var lines := LinesRead(patternsFile);
      patterns := [];
      for i := 0 to |lines|
        invariant patterns == ParseRules(lines[..i])
      {
        ParseRulesStep(lines, i);
        var line := Strip(lines[i]);
        if line == [] || StartsWith(line, "#") {
          continue;
        }
        var parts := Split(line, '|');
        if |parts| == 3 {
          patterns := patterns + [Rule(Strip(parts[0]), Strip(parts[1]), Strip(parts[2]))];
        }
      }
      assert lines[..|lines|] == lines;
      if !patternsFile.Complete? {
        patterns := DefaultRules;
      }
    }

    /**
      `check_all_files`: false at once when the directory is absent; otherwise
      every listed file is checked and the result is whether `issues` is empty.
    */
    method CheckAllFiles(matcher: Matcher) returns (ok: bool)
      modifies this
      ensures hardcodedPatterns == old(hardcodedPatterns)
      ensures issues == old(issues) + RunIssues(hardcodedPatterns, matcher, templateDir)
      ensures ok <==> templateDir.Present? && issues == []
    {
      if templateDir.Absent? {
        return false;
      }
      var files := templateDir.files;
      for i := 0 to |files|
        invariant hardcodedPatterns == old(hardcodedPatterns)
        invariant issues == old(issues) + FilesIssues(hardcodedPatterns, matcher, files[..i])
      {
        assert files[..i + 1][..i] == files[..i];
        CheckFile(files[i], matcher);
        AppendAssoc(old(issues), FilesIssues(hardcodedPatterns, matcher, files[..i]),
                    FileIssues(hardcodedPatterns, matcher, files[i]));
      }
      assert files[..|files|] == files;
      ok := |issues| == 0;
    }

    /**
      `_check_file`: an unreadable file gives one error entry and no line is
      checked; otherwise every line of the text split on `\n`, numbered from 1.
    */
    method CheckFile(file: SourceFile, matcher: Matcher)
      modifies this
      ensures hardcodedPatterns == old(hardcodedPatterns)
      ensures issues == old(issues) + FileIssues(hardcodedPatterns, matcher, file)
    {
      if file.Unreadable? {
        issues := issues + [UnreadableIssue(file.path, file.reason)];
        return;
      }
      var lines := Split(file.content, '\n');
      for i := 0 to |lines|
        invariant hardcodedPatterns == old(hardcodedPatterns)
        invariant issues == old(issues) + LinesIssues(hardcodedPatterns, matcher, file.path, lines[..i])
      {
        assert lines[..i + 1][..i] == lines[..i];
        CheckLine(file.path, i + 1, lines[i], matcher);
        AppendAssoc(old(issues), LinesIssues(hardcodedPatterns, matcher, file.path, lines[..i]),
                    LineIssues(hardcodedPatterns, matcher, file.path, i + 1, lines[i]));
      }
      assert lines[..|lines|] == lines;
    }

    /**
      `_check_line`: nothing for a placeholder line; otherwise one entry per
      match of each rule, unless the line is an example context.
    */
    method CheckLine(path: string, lineNum: nat, line: string, matcher: Matcher)
      modifies this
      ensures hardcodedPatterns == old(hardcodedPatterns)
      ensures issues == old(issues) + LineIssues(hardcodedPatterns, matcher, path, lineNum, line)
    {
      if HasPlaceholder(line) {
        return;
      }
      var rules := hardcodedPatterns;
      for r := 0 to |rules|
        invariant hardcodedPatterns == rules
        invariant issues == old(issues) + RuleIssues(rules[..r], matcher, path, lineNum, line)
      {
        var rule := rules[r];
        var matches := matcher(rule.pattern, line);
        CheckMatches(path, lineNum, line, rule, matches);
        assert rules[..r + 1][..r] == rules[..r];
        AppendAssoc(old(issues), RuleIssues(rules[..r], matcher, path, lineNum, line),
                    MatchIssues(path, lineNum, line, rule, matches));
      }
      assert rules[..|rules|] == rules;
    }

    /** The inner loop of `_check_line`: one entry per match of `rule` outside an example context. */
    method CheckMatches(path: string, lineNum: nat, line: string, rule: Rule, matches: seq<Match>)
      modifies this
      ensures hardcodedPatterns == old(hardcodedPatterns)
      ensures issues == old(issues) + MatchIssues(path, lineNum, line, rule, matches)
    {
      for m := 0 to |matches|
        invariant hardcodedPatterns == old(hardcodedPatterns)
        invariant issues == old(issues) + MatchIssues(path, lineNum, line, rule, matches[..m])
      {
        assert matches[..m + 1][..m] == matches[..m];
        if IsInExampleContext(line, matches[m].start) {
          continue;
        }
        issues := issues + [MatchIssue(path, lineNum, line, rule, matches[m])];
      }
      assert matches[..|matches|] == matches;
    }
  }
}
