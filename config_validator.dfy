/**
  `ConfigValidator`: the object that loads one configuration document and
  appends, pass by pass, to its `errors` and `warnings` lists. Every method is
  proved against the function of `ConfigRules` that says what the pass appends.
*/
module ConfigValidation {
  import opened Wrappers
  import opened Strings
  import opened ConfigValues
  import opened ConfigRules

  class ConfigValidator {
    const configPath: string
    var config: Value
    var errors: seq<string>
    var warnings: seq<string>

    constructor (configPath: string)
      ensures this.configPath == configPath
      ensures config == EmptyMap && errors == [] && warnings == []
    {
      this.configPath := configPath;
      config := EmptyMap;
      errors := [];
      warnings := [];
    }

    /**
      `validate`: load the document, run the six passes in order and report
      whether no error has been recorded. The first exception ends the run with
      one `Failed to validate config: ...` error and a `false` result.
    */
    method Validate(file: ConfigFile) returns (ok: bool)
      modifies this
      ensures errors == old(errors) + ValidateReport(configPath, file).errors
      ensures warnings == old(warnings) + ValidateReport(configPath, file).warnings
      ensures ok <==> errors == []
      ensures file.Parsed? ==> config == LoadedDocument(file.document)
      ensures !file.Parsed? ==> config == old(config)
    {
      var failure := LoadConfig(file);
      if failure.Some? {
        errors := errors + [FailurePrefix + failure.value];
        return false;
      }
      assert config == LoadedDocument(file.document);
      ok := RunChecks();
    }

    /**
      The `try` block of `validate` once the file is loaded: the six passes in
      order, the first exception ending the run with its message appended to
      `errors` and a `false` result.
    */
    method RunChecks() returns (ok: bool)
      modifies this
      ensures config == old(config)
      ensures errors == old(errors) + RunPasses(Passes(config)).errors
      ensures warnings == old(warnings) + RunPasses(Passes(config)).warnings
      ensures ok <==> errors == []
    {
      // `doneE` and `doneW` are what the passes so far appended, so the whole
      // run's report is them followed by the report of the remaining passes.
      ghost var c := config;
      ghost var ps := Passes(c);
      ghost var report := RunPasses(ps);
      assert ps[0..] == ps;
      ghost var doneE: seq<string> := [];
      ghost var doneW: seq<string> := [];
      var k := 0;
      while k < PassCount
        invariant k <= PassCount && config == c
        invariant errors == old(errors) + doneE && warnings == old(warnings) + doneW
        invariant report == Report(doneE + RunPasses(ps[k..]).errors, doneW + RunPasses(ps[k..]).warnings)
      {
        var failure := RunPass(k);
        ghost var outcome := ps[k];
        ghost var rest := RunPasses(ps[k + 1..]);
        RunPassesStep(ps, k);
        AppendAssoc(old(errors), doneE, outcome.errors);
        AppendAssoc(old(warnings), doneW, outcome.warnings);
        if failure.Some? {
          AppendAssoc(doneE, outcome.errors, [FailurePrefix + failure.value]);
          AppendAssoc(old(errors), doneE + outcome.errors, [FailurePrefix + failure.value]);
          errors := errors + [FailurePrefix + failure.value];
          return false;
        }
        AppendAssoc(doneE, outcome.errors, rest.errors);
        AppendAssoc(doneW, outcome.warnings, rest.warnings);
        doneE := doneE + outcome.errors;
        doneW := doneW + outcome.warnings;
        k := k + 1;
      }
      assert ps[PassCount..] == [];
      assert doneE + [] == doneE && doneW + [] == doneW;
      ok := |errors| == 0;
    }

    /**
      Call number `k` of the `try` block of `validate` after loading, in the
      order required fields, data types, platforms, language, tools,
      consistency; the first two never raise.
    */
    method RunPass(k: nat) returns (failure: Option<string>)
      requires k < PassCount
      modifies this
      ensures config == old(config)
      ensures errors == old(errors) + Pass(k, config).errors
      ensures warnings == old(warnings) + Pass(k, config).warnings
      ensures failure == Pass(k, config).failure
    {
      if k == 0 {
        ValidateRequiredFields();
        failure := None;
      } else if k == 1 {
        ValidateDataTypes();
        failure := None;
      } else if k == 2 {
        failure := ValidatePlatformConfig();
      } else if k == 3 {
        failure := ValidateLanguageConfig();
      } else if k == 4 {
        failure := ValidateToolConfig();
      } else {
        failure := ValidateConsistency();
      }
    }

    /**
      `_load_config`: a missing, unreadable or malformed file raises; otherwise
      the parsed document, or `{}` when it is empty or falsy, becomes `config`.
    */
    method LoadConfig(file: ConfigFile) returns (failure: Option<string>)
      modifies this
      ensures failure == LoadFailure(configPath, file)
      ensures errors == old(errors) && warnings == old(warnings)
      ensures file.Parsed? ==> config == LoadedDocument(file.document)
      ensures !file.Parsed? ==> config == old(config)
    {
      match file
      case Missing =>
        failure := Some("Configuration file not found: " + configPath);
      case Unreadable(reason) =>
        failure := Some(reason);
      case Malformed(e) =>
        failure := Some("Invalid YAML syntax: " + e);
      case Parsed(document) =>
        config := if Truthy(document) then document else EmptyMap;
        failure := None;
    }

    /** `_validate_required_fields`. */
    method ValidateRequiredFields()
      modifies this
      ensures config == old(config) && warnings == old(warnings)
      ensures errors == old(errors) + RequiredFieldErrors(config, RequiredFields)
    {
      CheckRequired(RequiredFields);
    }

    /** `_validate_data_types`: first the string fields, then the boolean fields. */
    method ValidateDataTypes()
      modifies this
      ensures config == old(config) && warnings == old(warnings)
      ensures errors == old(errors) + StringTypeErrors(config, StringFields) + BoolTypeErrors(config, BoolFields)
    {
      CheckStrings(StringFields);
      CheckBooleans(BoolFields);
    }

    /** The loop of `_validate_required_fields` over its list of paths. */
    method CheckRequired(fields: seq<FieldPath>)
      modifies this
      ensures config == old(config) && warnings == old(warnings)
      ensures errors == old(errors) + RequiredFieldErrors(config, fields)
    {
      for i := 0 to |fields|
        invariant config == old(config) && warnings == old(warnings)
        invariant errors == old(errors) + RequiredFieldErrors(config, fields[..i])
      {
        var path := fields[i];
        RequiredFieldErrorsStep(config, fields, i);
        var value := GetNestedValue(PathText(path));
        SplitJoin(path, '.');
        if !Truthy(value) {
          errors := errors + [RequiredMessage(path)];
        }
      }
      assert fields[..|fields|] == fields;
    }

    /** The first loop of `_validate_data_types`. */
    method CheckStrings(fields: seq<FieldPath>)
      modifies this
      ensures config == old(config) && warnings == old(warnings)
      ensures errors == old(errors) + StringTypeErrors(config, fields)
    {
      for i := 0 to |fields|
        invariant config == old(config) && warnings == old(warnings)
        invariant errors == old(errors) + StringTypeErrors(config, fields[..i])
      {
        var path := fields[i];
        StringTypeErrorsStep(config, fields, i);
        var value := GetNestedValue(PathText(path));
        SplitJoin(path, '.');
        if value != Null && !value.Str? {
          errors := errors + [StringTypeMessage(path, value)];
        }
      }
      assert fields[..|fields|] == fields;
    }

    /** The second loop of `_validate_data_types`. */
    method CheckBooleans(fields: seq<FieldPath>)
      modifies this
      ensures config == old(config) && warnings == old(warnings)
      ensures errors == old(errors) + BoolTypeErrors(config, fields)
    {
      for i := 0 to |fields|
        invariant config == old(config) && warnings == old(warnings)
        invariant errors == old(errors) + BoolTypeErrors(config, fields[..i])
      {
        var path := fields[i];
        BoolTypeErrorsStep(config, fields, i);
        var value := GetNestedValue(PathText(path));
        SplitJoin(path, '.');
        if value != Null && !value.Bool? {
          errors := errors + [BoolTypeMessage(path, value)];
        }
      }
      assert fields[..|fields|] == fields;
    }

    /** `_validate_platform_config`. */
    method ValidatePlatformConfig() returns (failure: Option<string>)
      modifies this
      ensures config == old(config) && errors == old(errors)
      ensures warnings == old(warnings) + PlatformPass(config).warnings
      ensures failure == PlatformPass(config).failure
    {
      var got := PyGet(config, "platforms", EmptyMap);
      if got.Err? {
        return Some(got.error);
      }
      var platforms := got.value;
      if !platforms.Map? {
        return Some(NoAttribute(platforms, "items"));
      }
      var flags := platforms.entries;
      if EnabledCount(flags) == 0 {
        warnings := warnings + [NoPlatformsWarning];
      }
      assert warnings == old(warnings) + (if EnabledCount(flags) == 0 then [NoPlatformsWarning] else []);
      ghost var acc: seq<string> := if EnabledCount(flags) == 0 then [NoPlatformsWarning] else [];
      ghost var w0 := warnings;
      if Truthy(MapGet(flags, "azure_devops", Null)) {
        ValidatePlatformDetails("azure_devops", "Azure DevOps");
      }
      ghost var d := PlatformDetailWarnings(config.entries, flags, "azure_devops", "Azure DevOps");
      assert warnings == w0 + d;
      AppendAssoc(old(warnings), acc, d);
      acc := acc + d;
      w0 := warnings;
      if Truthy(MapGet(flags, "github", Null)) {
        ValidatePlatformDetails("github", "GitHub");
      }
      d := PlatformDetailWarnings(config.entries, flags, "github", "GitHub");
      assert warnings == w0 + d;
      AppendAssoc(old(warnings), acc, d);
      acc := acc + d;
      w0 := warnings;
      if Truthy(MapGet(flags, "jira", Null)) {
        ValidatePlatformDetails("jira", "Jira");
      }
      d := PlatformDetailWarnings(config.entries, flags, "jira", "Jira");
      assert warnings == w0 + d;
      AppendAssoc(old(warnings), acc, d);
      acc := acc + d;
      assert warnings == old(warnings) + acc;
      failure := None;
    }

    /**
      `_validate_azure_devops_config`, `_validate_github_config` and
      `_validate_jira_config`, which differ only in the key and the name shown.
      They are reached only once `config` has proved to be a mapping.
    */
    method ValidatePlatformDetails(key: string, platform: string)
      requires config.Map?
      modifies this
      ensures config == old(config) && errors == old(errors)
      ensures warnings == old(warnings) + DetailBlockWarnings(config.entries, key, platform)
    {
      var block := MapGet(config.entries, key, EmptyMap);
      if !Truthy(block) {
        warnings := warnings + [DetailWarning(platform)];
      }
    }

    /** `_validate_language_config`. */
    method ValidateLanguageConfig() returns (failure: Option<string>)
      modifies this
      ensures config == old(config) && errors == old(errors)
      ensures warnings == old(warnings) + LanguagePass(config).warnings
      ensures failure == LanguagePass(config).failure
    {
      var languageValue := PyGet(config, "language", Str(""));
      if languageValue.Err? {
        return Some(languageValue.error);
      }
      var language := PyLower(languageValue.value);
      if language.Err? {
        return Some(language.error);
      }
      // `config` has just answered `get`, so it answers it again.
      var frameworkValue := PyGet(config, "framework", Str("")).value;
      var framework := PyLower(frameworkValue);
      if framework.Err? {
        return Some(framework.error);
      }
      var lang := language.value;
      ghost var unsupported: seq<string> :=
        if lang != "" && lang !in SupportedLanguages then [UnsupportedLanguageWarning(lang)] else [];
      ghost var specific := LanguageSpecificWarnings(config, lang);
      assert LanguageWarnings(config) == if specific.Ok? then Ok(unsupported + specific.value) else Err(specific.error);
      if lang != "" && lang !in SupportedLanguages {
        warnings := warnings + [UnsupportedLanguageWarning(lang)];
      }
      assert warnings == old(warnings) + unsupported;
      AppendAssoc(old(warnings), unsupported, WarningsOf(specific));
      if lang == "python" {
        failure := ValidatePythonConfig();
      } else if lang == "javascript" {
        failure := ValidateJavaScriptConfig();
      } else if lang == "java" {
        failure := ValidateJavaConfig();
      } else if lang == "dotnet" {
        failure := ValidateDotnetConfig();
      } else {
        failure := None;
      }
    }

    /** `_validate_python_config`. */
    method ValidatePythonConfig() returns (failure: Option<string>)
      modifies this
      ensures config == old(config) && errors == old(errors)
      ensures warnings == old(warnings) + WarningsOf(PythonWarnings(config))
      ensures failure == FailureOf(PythonWarnings(config))
    {
      var pythonConfig := PyGet(config, "python", EmptyMap);
      if pythonConfig.Err? {
        return Some(pythonConfig.error);
      }
      var version := PyGet(pythonConfig.value, "version", Null);
      if version.Err? {
        return Some(version.error);
      }
      if Truthy(version.value) && !IsValidPythonVersion(version.value) {
        warnings := warnings + [PythonVersionWarning(version.value)];
      }
      failure := None;
    }

    /** `_validate_javascript_config`. */
    method ValidateJavaScriptConfig() returns (failure: Option<string>)
      modifies this
      ensures config == old(config) && errors == old(errors)
      ensures warnings == old(warnings) + WarningsOf(JavaScriptWarnings(config))
      ensures failure == FailureOf(JavaScriptWarnings(config))
    {
      var jsConfig := PyGet(config, "javascript", EmptyMap);
      if jsConfig.Err? {
        return Some(jsConfig.error);
      }
      var runtime := PyGet(jsConfig.value, "runtime", Null);
      if runtime.Err? {
        return Some(runtime.error);
      }
      if runtime.value != Str("node") && runtime.value != Str("bun") && runtime.value != Null {
        warnings := warnings + [RuntimeWarning];
      }
      failure := None;
    }

    /** `_validate_java_config`: checking the version of a non-string raises. */
    method ValidateJavaConfig() returns (failure: Option<string>)
      modifies this
      ensures config == old(config) && errors == old(errors)
      ensures warnings == old(warnings) + WarningsOf(JavaWarnings(config))
      ensures failure == FailureOf(JavaWarnings(config))
    {
      var javaConfig := PyGet(config, "java", EmptyMap);
      if javaConfig.Err? {
        return Some(javaConfig.error);
      }
      var version := PyGet(javaConfig.value, "version", Null);
      if version.Err? {
        return Some(version.error);
      }
      if Truthy(version.value) {
        var valid := IsValidJavaVersion(version.value);
        if valid.Err? {
          return Some(valid.error);
        }
        if !valid.value {
          warnings := warnings + [JavaVersionWarning(version.value)];
        }
      }
      failure := None;
    }

    /** `_validate_dotnet_config`. */
    method ValidateDotnetConfig() returns (failure: Option<string>)
      modifies this
      ensures config == old(config) && errors == old(errors)
      ensures warnings == old(warnings) + WarningsOf(DotnetWarnings(config))
      ensures failure == FailureOf(DotnetWarnings(config))
    {
      var dotnetConfig := PyGet(config, "dotnet", EmptyMap);
      if dotnetConfig.Err? {
        return Some(dotnetConfig.error);
      }
      var version := PyGet(dotnetConfig.value, "version", Null);
      if version.Err? {
        return Some(version.error);
      }
      if Truthy(version.value) && !IsValidDotnetVersion(version.value) {
        warnings := warnings + [DotnetVersionWarning(version.value)];
      }
      failure := None;
    }

    /**
      `_validate_tool_config`: the cli advice is appended before `language` and
      `tools.test_runner` are lower-cased, so it survives an exception there.
    */
    method ValidateToolConfig() returns (failure: Option<string>)
      modifies this
      ensures config == old(config) && errors == old(errors)
      ensures warnings == old(warnings) + ToolsPass(config).warnings
      ensures failure == ToolsPass(config).failure
    {
      var tools := PyGet(config, "tools", EmptyMap);
      if tools.Err? {
        return Some(tools.error);
      }
      var cliValue := PyGet(tools.value, "cli", Str(""));
      if cliValue.Err? {
        return Some(cliValue.error);
      }
      var cli := PyLower(cliValue.value);
      if cli.Err? {
        return Some(cli.error);
      }
      ghost var cliPart: seq<string> := if cli.value != "saz" then [CliWarning] else [];
      assert CliWarnings(tools.value) == Ok(cliPart);
      if cli.value != "saz" {
        warnings := warnings + [CliWarning];
      }
      assert warnings == old(warnings) + cliPart;
      var languageValue := PyGet(config, "language", Str("")).value;
      var language := PyLower(languageValue);
      if language.Err? {
        return Some(language.error);
      }
      var runnerValue := PyGet(tools.value, "test_runner", Str("")).value;
      var runner := PyLower(runnerValue);
      if runner.Err? {
        return Some(runner.error);
      }
      var lang, testRunner := language.value, runner.value;
      ghost var w1 := warnings;
      ghost var advice := RunnerAdvice(lang, testRunner);
      assert RunnerWarnings(config, tools.value) == Ok(advice);
      AdviseTestRunner(lang, testRunner);
      AppendAssoc(old(warnings), cliPart, advice);
      failure := None;
    }

    /** The four test-runner checks of `_validate_tool_config`, of which at most one can apply. */
    method AdviseTestRunner(language: string, testRunner: string)
      modifies this
      ensures config == old(config) && errors == old(errors)
      ensures warnings == old(warnings) + RunnerAdvice(language, testRunner)
    {
      if language == "python" && testRunner !in ["pytest", "unittest", ""] {
        warnings := warnings + [PythonRunnerWarning];
      }
      if language == "javascript" && testRunner !in ["jest", "mocha", "jasmine", ""] {
        warnings := warnings + [JavaScriptRunnerWarning];
      }
      if language == "java" && testRunner !in ["junit", "testng", ""] {
        warnings := warnings + [JavaRunnerWarning];
      }
      if language == "dotnet" && testRunner !in ["xunit", "nunit", "mstest", ""] {
        warnings := warnings + [DotnetRunnerWarning];
      }
    }

    /** `_validate_consistency`. */
    method ValidateConsistency() returns (failure: Option<string>)
      modifies this
      ensures config == old(config) && errors == old(errors)
      ensures warnings == old(warnings) + ConsistencyPass(config).warnings
      ensures failure == ConsistencyPass(config).failure
    {
      var platforms := PyGet(config, "platforms", EmptyMap);
      if platforms.Err? {
        return Some(platforms.error);
      }
      if !platforms.value.Map? {
        return Some(NoAttribute(platforms.value, "values"));
      }
      var enabledCount := EnabledCount(platforms.value.entries);
      if enabledCount > 1 {
        warnings := warnings + [MultiplePlatformsWarning(enabledCount)];
      }
      failure := None;
    }

    /**
      `_get_nested_value`: split the path on `.` and walk down the document,
      giving `None` as soon as a key is missing or the value is not a mapping.
    */
    method GetNestedValue(fieldPath: string) returns (value: Value)
      ensures value == LookupPath(config, fieldPath)
    {
      var keys := Split(fieldPath, '.');
      value := config;
      var i := 0;
      while i < |keys|
        invariant 0 <= i <= |keys|
        invariant Lookup(config, keys) == Lookup(value, keys[i..])
      {
        var key := keys[i];
        if value.Map? && key in value.entries {
          value := value.entries[key];
        } else {
          return Null;
        }
        i := i + 1;
      }
    }
  }
}
