/**
  Properties of the configuration validator's passes and of `validate` as a
  whole: which messages each pass appends and when, what the version
  predicates accept, and how an exception ends the run.
*/
module ConfigProperties {
  import opened Wrappers
  import opened Strings
  import opened ConfigValues
  import opened ConfigRules

  // ---------------------------------------------------------------- required fields

  lemma PrefixCancel(p: string, a: string, b: string)
    requires p + a == p + b
    ensures a == b
  {
    assert a == (p + a)[|p|..];
    assert b == (p + b)[|p|..];
  }

  /** Paths with the same text are the same path. */
  lemma PathTextInjective(p: FieldPath, q: FieldPath)
    requires PathText(p) == PathText(q)
    ensures p == q
  {
    SplitJoin(p, '.');
    SplitJoin(q, '.');
  }

  /**
    `Required field missing: <p>` is appended exactly for the listed fields
    whose lookup is falsy, and never for anything else.
  */
  lemma {:induction false} RequiredFieldErrorsExact(config: Value, fields: seq<FieldPath>, p: FieldPath)
    ensures RequiredMessage(p) in RequiredFieldErrors(config, fields) <==>
      p in fields && !Truthy(Lookup(config, p))
    decreases |fields|
  {
    if fields != [] {
      var init, last := fields[..|fields| - 1], fields[|fields| - 1];
      assert fields == init + [last];
      RequiredFieldErrorsExact(config, init, p);
      if RequiredMessage(p) == RequiredMessage(last) {
        PrefixCancel("Required field missing: ", PathText(p), PathText(last));
        PathTextInjective(p, last);
      }
    }
  }

  /** At most one error per listed field, and none at all when every field is truthy. */
  lemma {:induction false} RequiredFieldErrorsCount(config: Value, fields: seq<FieldPath>)
    ensures |RequiredFieldErrors(config, fields)| <= |fields|
    ensures RequiredFieldErrors(config, fields) == [] <==>
      forall i :: 0 <= i < |fields| ==> Truthy(Lookup(config, fields[i]))
    decreases |fields|
  {
    if fields != [] {
      var init := fields[..|fields| - 1];
      RequiredFieldErrorsCount(config, init);
      assert forall i :: 0 <= i < |init| ==> init[i] == fields[i];
    }
  }

  /**
    Each listed path whose lookup is falsy gets as many messages as it is
    listed, and a path whose lookup is truthy, or that is not listed, gets
    none; so a list without repeats gives exactly one message per falsy path.
  */
  lemma {:induction false} RequiredFieldErrorsPerPath(config: Value, fields: seq<FieldPath>, p: FieldPath)
    ensures multiset(RequiredFieldErrors(config, fields))[RequiredMessage(p)] ==
      if Truthy(Lookup(config, p)) then 0 else multiset(fields)[p]
    decreases |fields|
  {
    if fields != [] {
      var init, last := fields[..|fields| - 1], fields[|fields| - 1];
      assert fields == init + [last];
      RequiredFieldErrorsPerPath(config, init, p);
      var tail := if !Truthy(Lookup(config, last)) then [RequiredMessage(last)] else [];
      assert RequiredFieldErrors(config, fields) == RequiredFieldErrors(config, init) + tail;
      if RequiredMessage(p) == RequiredMessage(last) {
        PrefixCancel("Required field missing: ", PathText(p), PathText(last));
        PathTextInjective(p, last);
      }
    }
  }

  /** The four required paths are distinct, so each falsy one is reported exactly once. */
  lemma RequiredFieldsReportedOnce(config: Value, i: nat)
    requires i < |RequiredFields|
    ensures multiset(RequiredFieldErrors(config, RequiredFields))[RequiredMessage(RequiredFields[i])] ==
      if Truthy(Lookup(config, RequiredFields[i])) then 0 else 1
  {
    RequiredFieldErrorsPerPath(config, RequiredFields, RequiredFields[i]);
    assert multiset(RequiredFields)[RequiredFields[i]] == 1;
  }

  // ---------------------------------------------------------------- type checks

  /**
    A string-typed field is reported exactly when it is present, not null and
    not a string; every message names such a field and the type it has.
  */
  lemma {:induction false} StringTypeErrorsExact(config: Value, fields: seq<FieldPath>)
    ensures forall i :: 0 <= i < |fields| && WrongStringType(Lookup(config, fields[i])) ==>
      StringTypeMessage(fields[i], Lookup(config, fields[i])) in StringTypeErrors(config, fields)
    ensures forall m :: m in StringTypeErrors(config, fields) ==>
      exists i :: 0 <= i < |fields| && WrongStringType(Lookup(config, fields[i])) &&
        m == StringTypeMessage(fields[i], Lookup(config, fields[i]))
    decreases |fields|
  {
    if fields != [] {
      var init := fields[..|fields| - 1];
      StringTypeErrorsExact(config, init);
      assert forall i :: 0 <= i < |init| ==> init[i] == fields[i];
    }
  }

  /** A boolean flag is reported exactly when it is present, not null and not a boolean. */
  lemma {:induction false} BoolTypeErrorsExact(config: Value, fields: seq<FieldPath>)
    ensures forall i :: 0 <= i < |fields| && WrongBoolType(Lookup(config, fields[i])) ==>
      BoolTypeMessage(fields[i], Lookup(config, fields[i])) in BoolTypeErrors(config, fields)
    ensures forall m :: m in BoolTypeErrors(config, fields) ==>
      exists i :: 0 <= i < |fields| && WrongBoolType(Lookup(config, fields[i])) &&
        m == BoolTypeMessage(fields[i], Lookup(config, fields[i]))
    decreases |fields|
  {
    if fields != [] {
      var init := fields[..|fields| - 1];
      BoolTypeErrorsExact(config, init);
      assert forall i :: 0 <= i < |init| ==> init[i] == fields[i];
    }
  }

  // ---------------------------------------------------------------- aborting the run

  /** With no exception, `validate` appends what every pass appends, in pass order. */
  lemma {:induction false} RunWithoutFailure(outcomes: seq<PassOutcome>)
    requires NoneFailed(outcomes)
    ensures RunPasses(outcomes) == Report(AllErrors(outcomes), AllWarnings(outcomes))
    decreases |outcomes|
  {
    if outcomes != [] {
      RunWithoutFailure(outcomes[1..]);
    }
  }

  /**
    When pass `k` is the first to raise, the run keeps everything appended up
    to and including that pass, adds one failure message and runs nothing after.
  */
  lemma {:induction false} RunAbortsAt(outcomes: seq<PassOutcome>, k: nat)
    requires k < |outcomes| && outcomes[k].failure.Some?
    requires NoneFailed(outcomes[..k])
    ensures RunPasses(outcomes) ==
      Report(AllErrors(outcomes[..k + 1]) + [FailurePrefix + outcomes[k].failure.value],
             AllWarnings(outcomes[..k + 1]))
    decreases k
  {
    var prefix := outcomes[..k + 1];
    if k == 0 {
      assert prefix == [outcomes[0]];
      assert AllErrors(prefix) == outcomes[0].errors + AllErrors(prefix[1..]);
      assert AllWarnings(prefix) == outcomes[0].warnings + AllWarnings(prefix[1..]);
    } else {
      assert outcomes[..k][0] == outcomes[0];
      assert outcomes[1..][..k - 1] == outcomes[..k][1..];
      RunAbortsAt(outcomes[1..], k - 1);
      assert prefix[1..] == outcomes[1..][..k];
    }
  }

  lemma {:induction false} FailureCountAppend(a: seq<string>, b: seq<string>)
    ensures FailureCount(a + b) == FailureCount(a) + FailureCount(b)
    decreases |a|
  {
    if a == [] {
      assert a + b == b;
    } else {
      assert (a + b)[1..] == a[1..] + b;
      FailureCountAppend(a[1..], b);
    }
  }

  predicate NoFailureMessages(outcomes: seq<PassOutcome>) {
    forall i :: 0 <= i < |outcomes| ==> FailureCount(outcomes[i].errors) == 0
  }

  /**
    When no pass itself writes a failure message, the run holds exactly one
    if some pass raised and none otherwise.
  */
  lemma {:induction false} RunFailureCount(outcomes: seq<PassOutcome>)
    requires NoFailureMessages(outcomes)
    ensures FailureCount(RunPasses(outcomes).errors) == if NoneFailed(outcomes) then 0 else 1
    decreases |outcomes|
  {
    if outcomes != [] {
      var o := outcomes[0];
      assert FailureCount(o.errors) == 0;
      match o.failure
      case Some(e) =>
        FailureCountAppend(o.errors, [FailurePrefix + e]);
        assert StartsWith(FailurePrefix + e, FailurePrefix);
      case None =>
        var rest := outcomes[1..];
        RunFailureCount(rest);
        FailureCountAppend(o.errors, RunPasses(rest).errors);
        assert NoneFailed(outcomes) <==> NoneFailed(rest) by {
          assert forall i :: 0 <= i < |rest| ==> rest[i] == outcomes[i + 1];
        }
    }
  }

  lemma {:induction false} RequiredErrorsAreNotFailures(config: Value, fields: seq<FieldPath>)
    ensures FailureCount(RequiredFieldErrors(config, fields)) == 0
    decreases |fields|
  {
    if fields != [] {
      var init, last := fields[..|fields| - 1], fields[|fields| - 1];
      RequiredErrorsAreNotFailures(config, init);
      var tail := if !Truthy(Lookup(config, last)) then [RequiredMessage(last)] else [];
      FailureCountAppend(RequiredFieldErrors(config, init), tail);
      assert RequiredMessage(last)[0] == 'R';
    }
  }

  lemma {:induction false} StringTypeErrorsAreNotFailures(config: Value, fields: seq<FieldPath>)
    ensures FailureCount(StringTypeErrors(config, fields)) == 0
    decreases |fields|
  {
    if fields != [] {
      var init, last := fields[..|fields| - 1], fields[|fields| - 1];
      var v := Lookup(config, last);
      StringTypeErrorsAreNotFailures(config, init);
      var tail := if WrongStringType(v) then [StringTypeMessage(last, v)] else [];
      FailureCountAppend(StringTypeErrors(config, init), tail);
      StringTypeMessageIsNotFailure(last, v);
    }
  }

  lemma {:induction false} BoolTypeErrorsAreNotFailures(config: Value, fields: seq<FieldPath>)
    ensures FailureCount(BoolTypeErrors(config, fields)) == 0
    decreases |fields|
  {
    if fields != [] {
      var init, last := fields[..|fields| - 1], fields[|fields| - 1];
      var v := Lookup(config, last);
      BoolTypeErrorsAreNotFailures(config, init);
      var tail := if WrongBoolType(v) then [BoolTypeMessage(last, v)] else [];
      FailureCountAppend(BoolTypeErrors(config, init), tail);
      BoolTypeMessageIsNotFailure(last, v);
    }
  }

  /** A one-message list whose second character differs from the failure prefix's holds no failure. */
  lemma SingleNonFailure(m: string)
    requires |m| >= 2 && m[1] != FailurePrefix[1]
    ensures FailureCount([m]) == 0
  {
    if |FailurePrefix| <= |m| {
      assert m[..|FailurePrefix|][1] == m[1];
    }
  }

  lemma StringTypeMessageIsNotFailure(path: FieldPath, v: Value)
    ensures FailureCount([StringTypeMessage(path, v)]) == 0
  {
    SingleNonFailure(StringTypeMessage(path, v));
  }

  lemma BoolTypeMessageIsNotFailure(path: FieldPath, v: Value)
    ensures FailureCount([BoolTypeMessage(path, v)]) == 0
  {
    SingleNonFailure(BoolTypeMessage(path, v));
  }

  /** No pass appends an error that reads like the failure message. */
  lemma PassesWriteNoFailureMessages(config: Value)
    ensures NoFailureMessages(Passes(config))
  {
    var ps := Passes(config);
    RequiredErrorsAreNotFailures(config, RequiredFields);
    StringTypeErrorsAreNotFailures(config, StringFields);
    BoolTypeErrorsAreNotFailures(config, BoolFields);
    FailureCountAppend(StringTypeErrors(config, StringFields), BoolTypeErrors(config, BoolFields));
    LaterPassesAppendNoErrors(config);
    assert ps[0] == RequiredFieldsPass(config) && ps[1] == DataTypesPass(config);
  }

  /** Only the required-field and type passes append errors. */
  lemma LaterPassesAppendNoErrors(config: Value)
    ensures forall i :: 2 <= i < |Passes(config)| ==> Passes(config)[i].errors == []
  {
    var ps := Passes(config);
    forall i | 2 <= i < |ps| ensures ps[i].errors == [] {
      assert ps[i] == Pass(i, config);
    }
  }

  /** Only the first two passes append errors. */
  lemma {:induction false} AllErrorsOfFirstTwo(outcomes: seq<PassOutcome>)
    requires |outcomes| >= 2
    requires forall i :: 2 <= i < |outcomes| ==> outcomes[i].errors == []
    ensures AllErrors(outcomes) == outcomes[0].errors + outcomes[1].errors
  {
    var rest := outcomes[2..];
    AllErrorsEmpty(rest);
    assert outcomes[1..][1..] == rest;
  }

  lemma {:induction false} AllErrorsEmpty(outcomes: seq<PassOutcome>)
    requires forall i :: 0 <= i < |outcomes| ==> outcomes[i].errors == []
    ensures AllErrors(outcomes) == []
    decreases |outcomes|
  {
    if outcomes != [] {
      AllErrorsEmpty(outcomes[1..]);
    }
  }

  /**
    `validate` records exactly one `Failed to validate config: ...` error when
    loading fails or a pass raises, and none otherwise.
  */
  lemma ValidateFailureCount(path: string, file: ConfigFile)
    ensures FailureCount(ValidateReport(path, file).errors) ==
      if file.Parsed? && NoneFailed(Passes(LoadedDocument(file.document))) then 0 else 1
  {
    match LoadFailure(path, file)
    case Some(e) =>
      assert StartsWith(FailurePrefix + e, FailurePrefix);
    case None =>
      var ps := Passes(LoadedDocument(file.document));
      assert ValidateReport(path, file) == RunPasses(ps);
      PassesWriteNoFailureMessages(LoadedDocument(file.document));
      RunFailureCount(ps);
  }

  /**
    `validate` reports success exactly when the file loads, no pass raises and
    neither the required-field pass nor the type pass found anything. Warnings
    play no part.
  */
  lemma ValidateSucceedsIff(path: string, file: ConfigFile)
    ensures ValidateReport(path, file).errors == [] <==>
      file.Parsed? &&
      var config := LoadedDocument(file.document);
      NoneFailed(Passes(config)) &&
      RequiredFieldErrors(config, RequiredFields) == [] &&
      StringTypeErrors(config, StringFields) == [] && BoolTypeErrors(config, BoolFields) == []
  {
    ValidateFailureCount(path, file);
    if file.Parsed? {
      var config := LoadedDocument(file.document);
      var ps := Passes(config);
      assert ValidateReport(path, file) == RunPasses(ps);
      if NoneFailed(ps) {
        RunWithoutFailure(ps);
        LaterPassesAppendNoErrors(config);
        AllErrorsOfFirstTwo(ps);
        assert ps[0].errors == RequiredFieldErrors(config, RequiredFields);
        assert ps[1].errors == StringTypeErrors(config, StringFields) + BoolTypeErrors(config, BoolFields);
      } else {
        assert FailureCount(RunPasses(ps).errors) == 1;
      }
    } else {
      assert FailureCount(ValidateReport(path, file).errors) == 1;
    }
  }

  /**
    When pass `k` of a loaded document is the first to raise, `validate` keeps
    what the passes up to `k` appended, adds one failure message after them,
    appends nothing from the later passes and fails.
  */
  lemma FirstFailureEndsValidate(path: string, file: ConfigFile, k: nat)
    requires file.Parsed? && k < PassCount
    requires var ps := Passes(LoadedDocument(file.document));
      ps[k].failure.Some? && NoneFailed(ps[..k])
    ensures var ps := Passes(LoadedDocument(file.document));
      var report := ValidateReport(path, file);
      report.errors == AllErrors(ps[..k + 1]) + [FailurePrefix + ps[k].failure.value] &&
      report.warnings == AllWarnings(ps[..k + 1]) &&
      report.errors != []
  {
    var ps := Passes(LoadedDocument(file.document));
    assert ValidateReport(path, file) == RunPasses(ps);
    RunAbortsAt(ps, k);
  }

  /**
    A `language` that is present but not a string raises in the language pass
    (`lower` is missing), so with the earlier passes quiet `validate` fails.
  */
  lemma NonStringLanguageRaises(config: Value)
    requires config.Map? && "language" in config.entries && !config.entries["language"].Str?
    ensures LanguagePass(config).failure == Some(NoAttribute(config.entries["language"], "lower"))
    ensures LanguagePass(config).warnings == []
  {
  }

  /** A `framework` that is present but not a string raises too, although it is never used. */
  lemma NonStringFrameworkRaises(config: Value)
    requires config.Map? && "framework" in config.entries && !config.entries["framework"].Str?
    requires "language" !in config.entries || config.entries["language"].Str?
    ensures LanguagePass(config).failure == Some(NoAttribute(config.entries["framework"], "lower"))
  {
  }

  // ---------------------------------------------------------------- versions

  /** The pieces of `a.b<tail>` for `.`-free `a`, `b` and a tail that is empty or starts with `.`. */
  lemma SplitVersion(a: string, b: string, tail: string)
    requires '.' !in a && '.' !in b
    requires tail == [] || tail[0] == '.'
    ensures var parts := Split(a + "." + b + tail, '.'); |parts| >= 2 && parts[0] == a && parts[1] == b
  {
    if tail == [] {
      SplitNoSeparator(b, '.');
      SplitPrefix(a, b, '.');
      assert a + "." + b + tail == a + ['.'] + b;
    } else {
      SplitPrefix(b, tail[1..], '.');
      assert b + tail == b + ['.'] + tail[1..];
      SplitPrefix(a, b + tail, '.');
      assert a + "." + b + tail == a + ['.'] + (b + tail);
    }
  }

  /**
    A Python version `major.minor`, possibly followed by further `.`-pieces, is
    accepted exactly for major 3 and minor at least 8.
  */
  lemma PythonVersionAccepts(major: nat, minor: nat, tail: string)
    requires tail == [] || tail[0] == '.'
    ensures IsValidPythonVersion(Str(NatToDecimal(major) + "." + NatToDecimal(minor) + tail)) <==>
      major == 3 && minor >= 8
  {
    DecimalHasNoDot(major);
    DecimalHasNoDot(minor);
    SplitVersion(NatToDecimal(major), NatToDecimal(minor), tail);
    ParseDecimal(major);
    ParseDecimal(minor);
  }

  /** A .NET version `major.minor...` is accepted exactly for major 6, 7 or 8. */
  lemma DotnetVersionAccepts(major: nat, minor: nat, tail: string)
    requires tail == [] || tail[0] == '.'
    ensures IsValidDotnetVersion(Str(NatToDecimal(major) + "." + NatToDecimal(minor) + tail)) <==>
      major == 6 || major == 7 || major == 8
  {
    DecimalHasNoDot(major);
    DecimalHasNoDot(minor);
    SplitVersion(NatToDecimal(major), NatToDecimal(minor), tail);
    ParseDecimal(major);
    ParseDecimal(minor);
  }

  /** A version with a single piece, or one that is not a string, is never accepted. */
  lemma SinglePieceVersionsRejected(version: Value)
    requires !version.Str? || '.' !in version.s
    ensures !IsValidPythonVersion(version) && !IsValidDotnetVersion(version)
  {
    if version.Str? {
      SplitNoSeparator(version.s, '.');
    }
  }

  lemma StartsWithDotted(s: string, major: string)
    requires '.' !in major
    ensures StartsWith(s, major + ".") <==> |Split(s, '.')| >= 2 && Split(s, '.')[0] == major
  {
    var parts := Split(s, '.');
    if StartsWith(s, major + ".") {
      var rest := s[|major| + 1..];
      assert s == major + ['.'] + rest;
      SplitPrefix(major, rest, '.');
    }
    if |parts| >= 2 && parts[0] == major {
      SplitPieces(s, '.');
      assert Join(parts, '.') == major + ['.'] + Join(parts[1..], '.');
      assert s[..|major| + 1] == major + ".";
    }
  }

  /**
    A Java version string is accepted exactly when its first `.`-piece is one of
    the LTS releases 8, 11, 17 and 21; any other value raises.
  */
  lemma JavaVersionByMajor(version: Value)
    ensures version.Str? ==> IsValidJavaVersion(version) == Ok(Split(version.s, '.')[0] in JavaLtsVersions)
    ensures !version.Str? ==> IsValidJavaVersion(version).Err?
  {
    if version.Str? {
      var s := version.s;
      var parts := Split(s, '.');
      StartsWithDotted(s, "8");
      StartsWithDotted(s, "11");
      StartsWithDotted(s, "17");
      StartsWithDotted(s, "21");
      SplitPieces(s, '.');
      if |parts| == 1 {
      } else {
        assert s != parts[0] by {
          assert Count(s, '.') >= 1;
          assert '.' !in parts[0];
          CountPositive(s, '.');
        }
        if s in JavaLtsVersions {
          SplitNoSeparator(s, '.');
        }
      }
    }
  }

  lemma {:induction false} CountPositive(s: string, c: char)
    requires Count(s, c) >= 1
    ensures c in s
    decreases |s|
  {
    if s[0] != c {
      CountPositive(s[1..], c);
    }
  }

  // ---------------------------------------------------------------- platforms

  /** No flag counts as enabled exactly when no flag is the boolean `True`. */
  lemma EnabledCountZero(flags: map<string, Value>)
    ensures EnabledCount(flags) == 0 <==> forall k :: k in flags ==> flags[k] != Bool(true)
  {
    var enabled := set k | k in flags && flags[k] == Bool(true);
    if exists k :: k in flags && flags[k] == Bool(true) {
      var k :| k in flags && flags[k] == Bool(true);
      assert k in enabled;
    }
  }

  /** The platform pass raises exactly when the document or its `platforms` value is not a mapping. */
  predicate PlatformsReadable(config: Value) {
    config.Map? && MapGet(config.entries, "platforms", EmptyMap).Map?
  }

  /**
    With readable platforms, "No platforms are enabled" is warned exactly when
    no flag is `True`, and a detail-block warning exactly when its flag is truthy
    and the top-level block of that name is absent or falsy.
  */
  lemma PlatformWarningsExact(config: Value)
    ensures PlatformPass(config).failure.None? <==> PlatformsReadable(config)
    ensures PlatformPass(config).errors == []
    ensures PlatformsReadable(config) ==>
      var flags := MapGet(config.entries, "platforms", EmptyMap).entries;
      var w := PlatformPass(config).warnings;
      (NoPlatformsWarning in w <==> forall k :: k in flags ==> flags[k] != Bool(true)) &&
      (DetailWarning("Azure DevOps") in w <==>
         Truthy(MapGet(flags, "azure_devops", Null)) && !Truthy(MapGet(config.entries, "azure_devops", EmptyMap))) &&
      (DetailWarning("GitHub") in w <==>
         Truthy(MapGet(flags, "github", Null)) && !Truthy(MapGet(config.entries, "github", EmptyMap))) &&
      (DetailWarning("Jira") in w <==>
         Truthy(MapGet(flags, "jira", Null)) && !Truthy(MapGet(config.entries, "jira", EmptyMap)))
  {
    if PlatformsReadable(config) {
      EnabledCountZero(MapGet(config.entries, "platforms", EmptyMap).entries);
    }
  }

  /** "Multiple platforms enabled (n)" is warned exactly when more than one flag is `True`, with that count. */
  lemma ConsistencyWarningsExact(config: Value)
    ensures ConsistencyPass(config).failure.None? <==> PlatformsReadable(config)
    ensures PlatformsReadable(config) ==>
      var n := EnabledCount(MapGet(config.entries, "platforms", EmptyMap).entries);
      (ConsistencyPass(config).warnings != [] <==> n > 1) &&
      forall w :: w in ConsistencyPass(config).warnings ==> w == MultiplePlatformsWarning(n)
  {
  }

  // ---------------------------------------------------------------- language

  /** The document's `language` and `framework` can both be lower-cased: each is a string or absent. */
  predicate LanguageReadable(config: Value) {
    config.Map? &&
    MapGet(config.entries, "language", Str("")).Str? && MapGet(config.entries, "framework", Str("")).Str?
  }

  /** The lower-cased language of such a document. */
  function LanguageOf(config: Value): string
    requires LanguageReadable(config)
  {
    Lower(MapGet(config.entries, "language", Str("")).s)
  }

  /** The value under `field` in the top-level block `key`, when that block is a mapping. */
  function BlockEntry(config: Value, key: string, field: string): Value
    requires config.Map?
  {
    var block := MapGet(config.entries, key, EmptyMap);
    if block.Map? then MapGet(block.entries, field, Null) else Null
  }

  predicate BlockReadable(config: Value, key: string)
    requires config.Map?
  {
    MapGet(config.entries, key, EmptyMap).Map?
  }

  /** The language pass appends the unsupported-language warning, then what the selected check appends. */
  lemma LanguagePassShape(config: Value)
    requires LanguageReadable(config)
    ensures var l := LanguageOf(config);
      var specific := LanguageSpecificWarnings(config, l);
      LanguagePass(config).failure == FailureOf(specific) &&
      LanguagePass(config).warnings ==
        (if l != "" && l !in SupportedLanguages then [UnsupportedLanguageWarning(l)] else []) + WarningsOf(specific)
  {
  }

  /** The first characters that tell the language-pass warnings apart. */
  lemma LanguageWarningHeads(l: string, v: Value)
    ensures UnsupportedLanguageWarning(l)[0] == 'L'
    ensures PythonVersionWarning(v)[0] == 'P'
    ensures JavaVersionWarning(v)[0] == 'J' && JavaVersionWarning(v)[4] == ' '
    ensures DotnetVersionWarning(v)[0] == '.'
    ensures RuntimeWarning[0] == 'J' && RuntimeWarning[4] == 'S'
  {
  }

  /**
    The unsupported-language warning is given exactly for a non-empty
    lower-cased language outside the four, and the check selected for an
    unsupported language appends nothing and never raises.
  */
  lemma UnsupportedLanguageExact(config: Value)
    requires LanguageReadable(config)
    ensures var l := LanguageOf(config);
      UnsupportedLanguageWarning(l) in LanguagePass(config).warnings <==> l != "" && l !in SupportedLanguages
    ensures var l := LanguageOf(config);
      l !in SupportedLanguages ==>
        LanguagePass(config).failure.None? &&
        LanguagePass(config).warnings == if l != "" then [UnsupportedLanguageWarning(l)] else []
  {
    var l := LanguageOf(config);
    LanguagePassShape(config);
    var w := LanguagePass(config).warnings;
    if l in SupportedLanguages {
      forall x | x in w ensures x[0] != 'L' {
        LanguageWarningHeads(l, BlockEntry(config, "python", "version"));
        LanguageWarningHeads(l, BlockEntry(config, "java", "version"));
        LanguageWarningHeads(l, BlockEntry(config, "dotnet", "version"));
      }
      LanguageWarningHeads(l, Null);
    }
  }

  /**
    The JavaScript runtime warning is given exactly for the language
    `javascript` with a readable `javascript` block whose runtime is neither
    `node`, `bun` nor absent or null.
  */
  lemma RuntimeWarningExact(config: Value)
    requires LanguageReadable(config)
    ensures RuntimeWarning in LanguagePass(config).warnings <==>
      LanguageOf(config) == "javascript" && BlockReadable(config, "javascript") &&
      BlockEntry(config, "javascript", "runtime") !in [Str("node"), Str("bun"), Null]
  {
    var l := LanguageOf(config);
    LanguagePassShape(config);
    var w := LanguagePass(config).warnings;
    if l != "javascript" {
      forall x | x in w ensures x != RuntimeWarning {
        LanguageWarningHeads(l, BlockEntry(config, "python", "version"));
        LanguageWarningHeads(l, BlockEntry(config, "java", "version"));
        LanguageWarningHeads(l, BlockEntry(config, "dotnet", "version"));
      }
    }
  }

  /**
    For the language `python`, the pass raises exactly when the `python` block
    is not a mapping, and otherwise warns exactly for a truthy version the
    Python predicate rejects; likewise for `dotnet`. For `java` a truthy
    version that is not a string raises too, and a string one warns exactly
    when it is no LTS release.
  */
  lemma VersionWarningsExact(config: Value)
    requires LanguageReadable(config)
    ensures var w, v := LanguagePass(config).warnings, BlockEntry(config, "python", "version");
      LanguageOf(config) == "python" ==>
        (LanguagePass(config).failure.None? <==> BlockReadable(config, "python")) &&
        (PythonVersionWarning(v) in w <==>
           BlockReadable(config, "python") && Truthy(v) && !IsValidPythonVersion(v))
    ensures var w, v := LanguagePass(config).warnings, BlockEntry(config, "dotnet", "version");
      LanguageOf(config) == "dotnet" ==>
        (LanguagePass(config).failure.None? <==> BlockReadable(config, "dotnet")) &&
        (DotnetVersionWarning(v) in w <==>
           BlockReadable(config, "dotnet") && Truthy(v) && !IsValidDotnetVersion(v))
    ensures var w, v := LanguagePass(config).warnings, BlockEntry(config, "java", "version");
      LanguageOf(config) == "java" ==>
        (LanguagePass(config).failure.None? <==> BlockReadable(config, "java") && (!Truthy(v) || v.Str?)) &&
        (JavaVersionWarning(v) in w <==>
           BlockReadable(config, "java") && Truthy(v) && IsValidJavaVersion(v) == Ok(false))
  {
    LanguagePassShape(config);
  }

  // ---------------------------------------------------------------- tools

  /**
    With `tools` a mapping whose `cli` is a string or absent, the cli warning is
    given exactly when the lower-cased cli is not `saz`; a document without a
    `tools` block therefore always gets it, whatever happens after.
  */
  lemma CliWarningExact(config: Value)
    requires config.Map?
    ensures "tools" !in config.entries ==>
      ToolsPass(config).warnings != [] && ToolsPass(config).warnings[0] == CliWarning
    ensures var tools := MapGet(config.entries, "tools", EmptyMap);
      tools.Map? && MapGet(tools.entries, "cli", Str("")).Str? ==>
        (ToolsPass(config).warnings != [] && ToolsPass(config).warnings[0] == CliWarning <==>
         Lower(MapGet(tools.entries, "cli", Str("")).s) != "saz")
  {
    var tools := MapGet(config.entries, "tools", EmptyMap);
    if tools.Map? && MapGet(tools.entries, "cli", Str("")).Str? {
      var cli := Lower(MapGet(tools.entries, "cli", Str("")).s);
      if cli == "saz" {
        var w := ToolsPass(config).warnings;
        if w != [] {
          assert w == RunnerWarnings(config, tools).value;
          assert w[0] != CliWarning;
        }
      }
    }
  }

  /**
    The test-runner advice is given only for one of the four known languages,
    only when the runner is outside that language's set, and never for no runner.
  */
  lemma RunnerAdviceExact(language: string, runner: string)
    ensures |RunnerAdvice(language, runner)| <= 1
    ensures RunnerAdvice(language, runner) != [] <==>
      language in SupportedLanguages && runner !in ExpectedRunners(language)
    ensures RunnerAdvice(language, "") == []
    ensures language !in SupportedLanguages ==> RunnerAdvice(language, runner) == []
  {
  }
}
