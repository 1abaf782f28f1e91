/** The `app2run translate` command (app2run/commands/translate.py): the flags of
    every translation rule, concatenated in a fixed order, laid out as one
    `gcloud beta run deploy` command with one flag per continuation line.

    Reading and parsing app.yaml, the rule file, the gcloud configuration and the
    installed version are outside the model: the parsed document, the rule lists,
    the configured project id and the version are parameters. */
module Translate {
  import opened Dicts
  import opened Text
  import opened Values
  import opened Util
  import opened Features
  import opened Incompatible
  import Scaling
  import Concurrency
  import Timeout
  import CpuMemory
  import Supported
  import RequiredFlags

  // ---------------------------------------------------------------------------
  // _get_service_name

  /** `service`, when present, is a string (`strip` raises `AttributeError` otherwise). */
  predicate ServiceReady(input: Config)
  {
    HasKey(input, "service") ==> Get(input, "service").Str?
  }

  /** `_get_service_name`: the `service` value without surrounding whitespace, or
      `default` when it is absent or blank. */
  function GetServiceName(input: Config): (r: string)
    requires ServiceReady(input)
    ensures r != "" && !IsSpace(r[0]) && !IsSpace(r[|r| - 1])
    ensures HasKey(input, "service") && Strip(Get(input, "service").s) != "" ==> r == Strip(Get(input, "service").s)
    ensures !(HasKey(input, "service") && Strip(Get(input, "service").s) != "") ==> r == "default"
  {
    if HasKey(input, "service") && |Strip(Get(input, "service").s)| > 0 then
      Strip(Get(input, "service").s)
    else
      assert !IsSpace('d') && !IsSpace('t');
      "default"
  }

  /** `service: " api "` names service `api`; a blank or missing `service` gives
      `default`. */
  lemma ServiceNameExamples()
    ensures GetServiceName([("service", Str(" api "))]) == "api"
    ensures GetServiceName([("service", Str("  "))]) == "default"
    ensures GetServiceName([("env", Str("flex"))]) == "default"
  {
    ServiceNamed(" api ");
    ServiceNamed("  ");
    ServiceMissing();
    StripExamples();
  }

  lemma ServiceNamed(name: string)
    ensures var input: Config := [("service", Str(name))];
      GetServiceName(input) == if Strip(name) != "" then Strip(name) else "default"
  {
    var input: Config := [("service", Str(name))];
    assert Keys(input) == ["service"];
  }

  lemma ServiceMissing()
    ensures GetServiceName([("env", Str("flex"))]) == "default"
  {
    var input: Config := [("env", Str("flex"))];
    assert Keys(input) == ["env"];
  }

  /** `strip` also removes Unicode whitespace: `service: "api\u00a0"` (a trailing
      no-break space) names service `api`. */
  lemma UnicodeSpaceStripped()
    ensures GetServiceName([("service", Str("api\U{00a0}"))]) == "api"
  {
    var named: Config := [("service", Str("api\U{00a0}"))];
    assert Keys(named) == ["service"];
    assert StripLeft("api\U{00a0}") == "api\U{00a0}";
    assert StripRight("api\U{00a0}") == "api" by {
      assert "api\U{00a0}"[..3] == "api";
    }
  }

  lemma StripExamples()
    ensures Strip(" api ") == "api" && Strip("  ") == ""
  {
    StripSpaced();
    StripBlank();
  }

  lemma StripBlank()
    ensures Strip("  ") == ""
  {
    assert StripLeft(" ") == "" by {
      assert " "[1..] == "";
    }
    assert StripLeft("  ") == "" by {
      assert "  "[1..] == " ";
    }
  }

  lemma StripSpaced()
    ensures Strip(" api ") == "api"
  {
    assert !IsSpace('a') && !IsSpace('i');
    assert StripLeft("api ") == "api ";
    assert StripLeft(" api ") == "api " by {
      assert " api "[1..] == "api ";
    }
    assert StripRight("api") == "api";
    assert StripRight("api ") == "api" by {
      assert "api "[..3] == "api";
    }
  }

  // ---------------------------------------------------------------------------
  // _get_cloud_run_flags

  /** What every rule needs of the document (each raises otherwise). */
  predicate FlagsReady(input: Config, t: InputType, rangeLimited: seq<Feature>,
                       supported: Dict<Supported.SupportedFeature>,
                       projectCliFlag: Option<string>, gcloudProjectId: string)
  {
    && Concurrency.ConcurrencyReady(Flatten(input, ""), ByPath(rangeLimited, t))
    && (var used := Scaling.ScalingFeaturesUsed(input);
        |used| == 1 ==> Scaling.ScalingReady(Flatten(input, ""), ByPath(rangeLimited, t), used[0]))
    && CpuMemory.ResourcesReady(input, t, rangeLimited)
    && Supported.EnvReady(input, supported)
    && Supported.ServiceAccountReady(input, supported, projectCliFlag, gcloudProjectId)
  }

  /** The flags `_get_cloud_run_flags` returns. */
  function CloudRunFlags(input: Config, t: InputType, rangeLimited: seq<Feature>,
                         supported: Dict<Supported.SupportedFeature>, excluded: seq<string>,
                         projectCliFlag: Option<string>, gcloudProjectId: string, version: string): (r: seq<string>)
    requires FlagsReady(input, t, rangeLimited, supported, projectCliFlag, gcloudProjectId)
    ensures |r| >= 3 && r[|r| - 3..] == RequiredFlags.TranslateAddRequiredFlags(version)
  {
    Concurrency.TranslateConcurrentRequests(Flatten(input, ""), ByPath(rangeLimited, t))
    + Scaling.TranslateScalingFeatures(input, t, rangeLimited)
    + Timeout.TranslateTimeout(input)
    + CpuMemory.AppResources(input, t, rangeLimited)
    + Supported.SupportedFlags(input, supported, excluded, projectCliFlag, gcloudProjectId)
    + RequiredFlags.TranslateAddRequiredFlags(version)
  }

  /** The rules' flags sit in the combined list one block after the other:
      concurrency, then scaling, timeout, resources, the supported features, and
      the three required flags last. */
  lemma FlagOrder(input: Config, t: InputType, rangeLimited: seq<Feature>,
                  supported: Dict<Supported.SupportedFeature>, excluded: seq<string>,
                  projectCliFlag: Option<string>, gcloudProjectId: string, version: string,
                  c: seq<string>, s: seq<string>, tm: seq<string>, res: seq<string>, sup: seq<string>)
    requires FlagsReady(input, t, rangeLimited, supported, projectCliFlag, gcloudProjectId)
    requires c == Concurrency.TranslateConcurrentRequests(Flatten(input, ""), ByPath(rangeLimited, t))
    requires s == Scaling.TranslateScalingFeatures(input, t, rangeLimited)
    requires tm == Timeout.TranslateTimeout(input)
    requires res == CpuMemory.AppResources(input, t, rangeLimited)
    requires sup == Supported.SupportedFlags(input, supported, excluded, projectCliFlag, gcloudProjectId)
    ensures var r := CloudRunFlags(input, t, rangeLimited, supported, excluded, projectCliFlag, gcloudProjectId, version);
      && |r| == |c| + |s| + |tm| + |res| + |sup| + 3
      && r[..|c|] == c
      && r[|c|..|c| + |s|] == s
      && r[|c| + |s|..|c| + |s| + |tm|] == tm
      && r[|c| + |s| + |tm|..|c| + |s| + |tm| + |res|] == res
      && r[|c| + |s| + |tm| + |res|..|r| - 3] == sup
      && r[|r| - 3..] == RequiredFlags.TranslateAddRequiredFlags(version)
  {
    ConcatSlices(c, s, tm, res, sup, RequiredFlags.TranslateAddRequiredFlags(version));
  }

  /** Where each of six concatenated lists sits in the result. */
  lemma ConcatSlices<T>(a: seq<T>, b: seq<T>, c: seq<T>, d: seq<T>, e: seq<T>, f: seq<T>)
    ensures var r := a + b + c + d + e + f;
      && |r| == |a| + |b| + |c| + |d| + |e| + |f|
      && r[..|a|] == a
      && r[|a|..|a| + |b|] == b
      && r[|a| + |b|..|a| + |b| + |c|] == c
      && r[|a| + |b| + |c|..|a| + |b| + |c| + |d|] == d
      && r[|a| + |b| + |c| + |d|..|r| - |f|] == e
      && r[|r| - |f|..] == f
  {
  }

  /** `_get_cloud_run_flags`, with each rule given what its own definition takes; the
      concurrency rule, which looks up dotted keys, gets the flattened document. */
  method GetCloudRunFlags(inputData: Config, inputType: InputType, rangeLimited: seq<Feature>,
                          supported: Dict<Supported.SupportedFeature>, excluded: seq<string>,
                          project: Option<string>, gcloudProjectId: string, version: string)
    returns (flags: seq<string>)
    requires FlagsReady(inputData, inputType, rangeLimited, supported, project, gcloudProjectId)
    ensures flags == CloudRunFlags(inputData, inputType, rangeLimited, supported, excluded, project, gcloudProjectId, version)
  {
    var flat := FlattenKeys(inputData, "");
    var concurrency := Concurrency.TranslateConcurrentRequests(flat, ByPath(rangeLimited, inputType));
    var scaling := Scaling.TranslateScalingFeatures(inputData, inputType, rangeLimited);
    var timeout := Timeout.TranslateTimeout(inputData);
    var resources := CpuMemory.TranslateAppResources(inputData, inputType, rangeLimited);
    var supportedFlags := Supported.TranslateSupportedFeatures(inputData, supported, excluded, project, gcloudProjectId);
    flags := concurrency + scaling + timeout + resources + supportedFlags
             + RequiredFlags.TranslateAddRequiredFlags(version);
  }

  /** Every translation ends with the three required flags, and a flexible
      environment one carries the 60-minute timeout. */
  lemma RequiredAndTimeout(input: Config, t: InputType, rangeLimited: seq<Feature>,
                           supported: Dict<Supported.SupportedFeature>, excluded: seq<string>,
                           projectCliFlag: Option<string>, gcloudProjectId: string, version: string)
    requires FlagsReady(input, t, rangeLimited, supported, projectCliFlag, gcloudProjectId)
    ensures var r := CloudRunFlags(input, t, rangeLimited, supported, excluded, projectCliFlag, gcloudProjectId, version);
      && "--no-cpu-throttling" in r && "--allow-unauthenticated" in r
      && (IsFlexEnv(input) ==> "--timeout=60m" in r)
  {
    var required := RequiredFlags.TranslateAddRequiredFlags(version);
    assert required[0] in required && required[1] in required;
    if IsFlexEnv(input) {
      var tm := Timeout.TranslateTimeout(input);
      assert tm[0] in tm;
    }
  }

  // ---------------------------------------------------------------------------
  // _generate_output

  /** The line the command starts on, ending in a continuation `\` when flags follow. */
  function HeaderLine(serviceName: string, flags: seq<string>): (r: string)
    ensures |r| > 0 && (r[|r| - 1] == '\\' <==> flags != [])
    ensures StartsWith(r, "gcloud beta run deploy " + serviceName + " ")
  {
    var firstLineEndingChar := if |flags| == 0 then "" else "\\";
    "gcloud beta run deploy " + serviceName + " " + firstLineEndingChar
  }

  /** The line of flag `i`: indented by two spaces, ending in ` \` unless it is the
      last. */
  function FlagLine(flags: seq<string>, i: int): (r: string)
    requires 0 <= i < |flags|
    ensures |r| == |flags[i]| + (if i < |flags| - 1 then 4 else 2)
    ensures r[..2] == "  " && r[2..2 + |flags[i]|] == flags[i]
    ensures i < |flags| - 1 ==> r[|r| - 2..] == " \\"
  {
    "  " + (if i < |flags| - 1 then flags[i] + " \\" else flags[i])
  }

  /** The flag lines, in flag order. */
  function FlagLines(flags: seq<string>): (r: seq<string>)
    ensures |r| == |flags|
    ensures forall i :: 0 <= i < |flags| ==> r[i] == FlagLine(flags, i)
  {
    seq(|flags|, i requires 0 <= i < |flags| => FlagLine(flags, i))
  }

  /** The lines of the printed command: a blank line, the header, one line per flag,
      and the empty remainder after the final newline. */
  function OutputLines(serviceName: string, flags: seq<string>): (r: seq<string>)
    ensures |r| == |flags| + 3
    ensures r[0] == "" && r[1] == HeaderLine(serviceName, flags) && r[|r| - 1] == ""
    ensures forall i :: 0 <= i < |flags| ==> r[i + 2] == FlagLine(flags, i)
  {
    ["", HeaderLine(serviceName, flags)] + FlagLines(flags) + [""]
  }

  /** `_generate_output`: the header, then each flag on its own line, built up one
      line at a time; the result is what the command prints. */
  method GenerateOutput(serviceName: string, flags: seq<string>) returns (output: string)
    ensures output == JoinWith("\n", OutputLines(serviceName, flags))
  {
    var firstLineEndingChar := if |flags| == 0 then "" else "\\";
    output := "\n" + "gcloud beta run deploy " + serviceName + " " + firstLineEndingChar + "\n";
    ghost var head := ["", HeaderLine(serviceName, flags)];
    ghost var lines := FlagLines(flags);
    assert head[1..] == [head[1]];
    for i := 0 to |flags|
      invariant output == JoinWith("\n", head + lines[..i]) + "\n"
    {
      output := output + "  ";
      output := output + (if i < |flags| - 1 then flags[i] + " \\" else flags[i]);
      output := output + "\n";
      JoinSnoc("\n", head + lines[..i], lines[i]);
      assert head + lines[..i + 1] == (head + lines[..i]) + [lines[i]];
    }
    assert head + lines[..|flags|] == head + lines;
    JoinSnoc("\n", head + lines, "");
  }

  /** A line of the printed command, split at its newlines, is a line of
      `OutputLines` when no flag and not the service name holds a newline: so the
      header ends in `\` exactly when flags follow, and every flag line but the last
      ends in ` \`. */
  lemma OutputLayout(serviceName: string, flags: seq<string>)
    requires '\n' !in serviceName
    requires forall i :: 0 <= i < |flags| ==> '\n' !in flags[i]
    ensures Split(JoinWith("\n", OutputLines(serviceName, flags)), '\n') == OutputLines(serviceName, flags)
  {
    var lines := OutputLines(serviceName, flags);
    NoNewlineInLines(serviceName, flags);
    assert "\n" == ['\n'];
    SplitJoin(lines, '\n');
  }

  lemma NoNewlineInLines(serviceName: string, flags: seq<string>)
    requires '\n' !in serviceName
    requires forall i :: 0 <= i < |flags| ==> '\n' !in flags[i]
    ensures forall i :: 0 <= i < |OutputLines(serviceName, flags)| ==> '\n' !in OutputLines(serviceName, flags)[i]
  {
    var lines := OutputLines(serviceName, flags);
    forall i | 0 <= i < |lines|
      ensures '\n' !in lines[i]
    {
      if i == 1 {
        NoNewlineInHeader(serviceName, flags);
      } else if 2 <= i < |lines| - 1 {
        NoNewlineInFlagLine(flags, i - 2);
      }
    }
  }

  lemma NoNewlineInFlagLine(flags: seq<string>, i: int)
    requires 0 <= i < |flags| && '\n' !in flags[i]
    ensures '\n' !in FlagLine(flags, i)
  {
    assert '\n' !in "  " && '\n' !in " \\";
  }

  lemma NoNewlineInHeader(serviceName: string, flags: seq<string>)
    requires '\n' !in serviceName
    ensures '\n' !in HeaderLine(serviceName, flags)
  {
    var prefix := "gcloud beta run deploy ";
    assert forall j :: 0 <= j < |prefix| ==> prefix[j] != '\n';
  }

  // ---------------------------------------------------------------------------
  // translate

  /** What `translate` prints: `<file> is empty.` for an empty app.yaml, else the
      command for the app.yaml translation, named by `--service-name` or by
      `_get_service_name`. */
  method TranslateApp(appyamlName: string, inputData: Option<Config>, project: Option<string>,
                      serviceName: Option<string>, rangeLimited: seq<Feature>,
                      supported: Dict<Supported.SupportedFeature>, excluded: seq<string>,
                      gcloudProjectId: string, version: string)
    returns (output: string)
    requires inputData.Some? ==>
      && FlagsReady(inputData.value, AppYaml, rangeLimited, supported, project, gcloudProjectId)
      && (serviceName.None? ==> ServiceReady(inputData.value))
    ensures inputData.None? ==> output == appyamlName + " is empty."
    ensures inputData.Some? ==>
      var name := if serviceName.Some? then serviceName.value else GetServiceName(inputData.value);
      output == JoinWith("\n", OutputLines(name, CloudRunFlags(inputData.value, AppYaml, rangeLimited, supported,
                                                                excluded, project, gcloudProjectId, version)))
  {
    if inputData.None? {
      return appyamlName + " is empty.";
    }
    var flags := GetCloudRunFlags(inputData.value, AppYaml, rangeLimited, supported, excluded, project,
                                  gcloudProjectId, version);
    var name := if serviceName.Some? then serviceName.value else GetServiceName(inputData.value);
    output := GenerateOutput(name, flags);
  }
}
