/** The passthrough translation rule
    (app2run/commands/translation_rules/supported_features.py): every supported key
    present in the document passes its quoted value to the rule's Cloud Run flags;
    `env_variables` is serialised into one `k=v;k=v` string, and a missing
    `service_account` is replaced by the project's default App Engine service
    account when the project id is known.

    The rule looks its keys up directly in the dictionary it is given. */
module Supported {
  import opened Dicts
  import opened Text
  import opened Values
  import opened Util

  const AllowEnvVariablesKey := "env_variables"
  const AllowServiceAccountKey := "service_account"

  /** A supported feature: the Cloud Run flags its value is passed to. */
  datatype SupportedFeature = SupportedFeature(flags: seq<string>)

  // ---------------------------------------------------------------------------
  // The passthrough loop of translate_supported_features

  /** The flags of one supported key: its value, quoted, under each of its flags. */
  function KeyFlags(input: Config, key: string, feature: SupportedFeature): seq<string>
    requires HasKey(input, key)
  {
    OutputFlags(feature.flags, Quote(Show(Get(input, key))))
  }

  /** The flags the loop over the supported table accumulates: each table key present
      in the document and not excluded contributes its flags, in table order. */
  function Passthrough(table: Dict<SupportedFeature>, input: Config, excluded: seq<string>): (r: seq<string>)
    ensures (forall i :: 0 <= i < |table| ==> !HasKey(input, table[i].0) || table[i].0 in excluded) ==> r == []
  {
    if table == [] then []
    else
      var entry := table[|table| - 1];
      Passthrough(table[..|table| - 1], input, excluded)
      + (if HasKey(input, entry.0) && entry.0 !in excluded then KeyFlags(input, entry.0, entry.1) else [])
  }

  /** Flag `s` passes on the quoted value of table entry `i`, whose key is present
      and not excluded. */
  predicate FromEntry(s: string, table: Dict<SupportedFeature>, input: Config, excluded: seq<string>, i: int)
  {
    && 0 <= i < |table| && HasKey(input, table[i].0) && table[i].0 !in excluded
    && s in KeyFlags(input, table[i].0, table[i].1)
  }

  /** Every passthrough flag comes from a present, non-excluded table key and carries
      that key's quoted value: excluded keys never produce a flag here. */
  lemma {:induction false} PassthroughSound(table: Dict<SupportedFeature>, input: Config, excluded: seq<string>)
    ensures forall s :: s in Passthrough(table, input, excluded) ==>
      exists i :: FromEntry(s, table, input, excluded, i)
    decreases |table|
  {
    if table != [] {
      var n := |table| - 1;
      var init := table[..n];
      PassthroughSound(init, input, excluded);
      forall s | s in Passthrough(table, input, excluded)
        ensures exists i :: FromEntry(s, table, input, excluded, i)
      {
        if s in Passthrough(init, input, excluded) {
          var i :| FromEntry(s, init, input, excluded, i);
          assert table[i] == init[i];
          assert FromEntry(s, table, input, excluded, i);
        } else {
          assert FromEntry(s, table, input, excluded, n);
        }
      }
    }
  }

  /** Every present, non-excluded table key has all its flags in the output. */
  lemma {:induction false} PassthroughComplete(table: Dict<SupportedFeature>, input: Config, excluded: seq<string>, i: int)
    requires 0 <= i < |table| && HasKey(input, table[i].0) && table[i].0 !in excluded
    ensures forall s :: s in KeyFlags(input, table[i].0, table[i].1) ==> s in Passthrough(table, input, excluded)
    decreases |table|
  {
    var n := |table| - 1;
    var init := table[..n];
    var last := if HasKey(input, table[n].0) && table[n].0 !in excluded then KeyFlags(input, table[n].0, table[n].1) else [];
    var out := Passthrough(table, input, excluded);
    assert out == Passthrough(init, input, excluded) + last;
    if i < n {
      assert table[i] == init[i];
      PassthroughComplete(init, input, excluded, i);
    } else {
      assert i == n;
      assert HasKey(input, table[n].0) && table[n].0 !in excluded;
    }
  }

  // ---------------------------------------------------------------------------
  // _generate_envs_output

  /** `f'{key}={value}'` for one environment variable. */
  function EnvEntry(e: (string, Value)): string
  {
    e.0 + "=" + Show(e.1)
  }

  /** The `k=v` entries of the variables, in order. */
  function EnvEntries(envs: Dict<Value>): (r: seq<string>)
    ensures |r| == |envs|
  {
    if envs == [] then [] else [EnvEntry(envs[0])] + EnvEntries(envs[1..])
  }

  lemma {:induction false} EnvEntriesAt(envs: Dict<Value>, i: int)
    requires 0 <= i < |envs|
    ensures EnvEntries(envs)[i] == EnvEntry(envs[i])
    decreases i
  {
    if i > 0 {
      EnvEntriesAt(envs[1..], i - 1);
      assert envs[1..][i - 1] == envs[i];
      assert EnvEntries(envs) == [EnvEntry(envs[0])] + EnvEntries(envs[1..]);
    }
  }

  /** Each part followed by `;`, as the loop of `_generate_envs_output` builds it. */
  function Terminated(parts: seq<string>): string
  {
    if parts == [] then "" else parts[0] + ";" + Terminated(parts[1..])
  }

  lemma {:induction false} TerminatedSnoc(parts: seq<string>, x: string)
    ensures Terminated(parts + [x]) == Terminated(parts) + x + ";"
    decreases |parts|
  {
    if parts != [] {
      TerminatedSnoc(parts[1..], x);
      assert (parts + [x])[1..] == parts[1..] + [x];
    }
  }

  /** Dropping the last `;` of the terminated parts leaves them joined by `;`. */
  lemma {:induction false} TerminatedJoin(parts: seq<string>)
    requires parts != []
    ensures |Terminated(parts)| >= 1
    ensures Terminated(parts)[..|Terminated(parts)| - 1] == JoinWith(";", parts)
    decreases |parts|
  {
    if |parts| > 1 {
      TerminatedJoin(parts[1..]);
      var t := Terminated(parts[1..]);
      assert Terminated(parts) == parts[0] + ";" + t;
      assert (parts[0] + ";" + t)[..|parts[0] + ";" + t| - 1] == parts[0] + ";" + t[..|t| - 1];
    }
  }

  /** The value of `--set-env-vars`: the variables as `k=v` joined by `;`. */
  function EnvsOutput(envs: Dict<Value>): (r: string)
    ensures r == "" <==> envs == []
  {
    if envs == [] then ""
    else
      assert EnvEntries(envs)[0][|envs[0].0|] == '=';
      JoinWith(";", EnvEntries(envs))
  }

  /** The serialised variables can be split back into their `k=v` entries when no
      key or value contains `;`. */
  lemma EnvsOutputSplits(envs: Dict<Value>)
    requires envs != []
    requires forall i :: 0 <= i < |envs| ==> ';' !in EnvEntry(envs[i])
    ensures Split(EnvsOutput(envs), ';') == EnvEntries(envs)
  {
    forall i | 0 <= i < |envs| ensures ';' !in EnvEntries(envs)[i] {
      EnvEntriesAt(envs, i);
    }
    SplitJoin(EnvEntries(envs), ';');
  }

  /** `_generate_envs_output`: appends `k=v;` per variable, then drops the last `;`. */
  method GenerateEnvsOutput(envs: Dict<Value>) returns (r: string)
    ensures r == EnvsOutput(envs)
  {
    if |envs| == 0 {
      return "";
    }
    ghost var entries := EnvEntries(envs);
    var outputStr := "";
    for i := 0 to |envs|
      invariant outputStr == Terminated(entries[..i])
    {
      TerminatedStep(envs, i);
      outputStr := outputStr + (EnvEntry(envs[i]) + ";");
    }
    TerminatedEnvs(envs);
    r := outputStr[..|outputStr| - 1];
  }

  /** One more variable appends its `k=v;`. */
  lemma TerminatedStep(envs: Dict<Value>, i: int)
    requires 0 <= i < |envs|
    ensures Terminated(EnvEntries(envs)[..i + 1]) == Terminated(EnvEntries(envs)[..i]) + (EnvEntry(envs[i]) + ";")
  {
    var entries := EnvEntries(envs);
    TakeSnoc(entries, i);
    TerminatedSnoc(entries[..i], entries[i]);
    EnvEntriesAt(envs, i);
    AppendAssoc(Terminated(entries[..i]), entries[i], ";");
  }

  /** All variables terminated, less the last `;`, are the serialised variables. */
  lemma TerminatedEnvs(envs: Dict<Value>)
    requires envs != []
    ensures var t := Terminated(EnvEntries(envs)[..|envs|]);
      |t| >= 1 && t[..|t| - 1] == EnvsOutput(envs)
  {
    var entries := EnvEntries(envs);
    assert entries[..|envs|] == entries;
    TerminatedJoin(entries);
  }

  /** `env_variables: {foo: bar}` gives `--set-env-vars="foo=bar"`. */
  lemma EnvExample()
    ensures OutputFlags(["--set-env-vars"], Quote(EnvsOutput([("foo", Str("bar"))]))) == ["--set-env-vars=\"foo=bar\""]
  {
    assert "foo" + "=" + "bar" == "foo=bar";
    assert EnvEntries([("foo", Str("bar"))]) == ["foo=bar"];
    assert "--set-env-vars" + "=" + Quote("foo=bar") == "--set-env-vars=\"foo=bar\"";
  }

  // ---------------------------------------------------------------------------
  // _get_output_flags_for_env_variables

  /** `env_variables`, when present, is a mapping and has a supported rule (Python
      raises `AttributeError` or `KeyError` otherwise). */
  predicate EnvReady(input: Config, supported: Dict<SupportedFeature>)
  {
    HasKey(input, AllowEnvVariablesKey) ==>
      Get(input, AllowEnvVariablesKey).Map? && HasKey(supported, AllowEnvVariablesKey)
  }

  /** The flags `_get_output_flags_for_env_variables` returns. */
  function EnvVariablesFlags(input: Config, supported: Dict<SupportedFeature>): (r: seq<string>)
    requires EnvReady(input, supported)
    ensures !HasKey(input, AllowEnvVariablesKey) ==> r == []
    ensures HasKey(input, AllowEnvVariablesKey) ==>
      var flags := Get(supported, AllowEnvVariablesKey).flags;
      && |r| == |flags|
      && forall i :: 0 <= i < |flags| ==>
           r[i] == flags[i] + "=" + Quote(EnvsOutput(Get(input, AllowEnvVariablesKey).entries))
  {
    match FeatureKeyFromInput(input, [AllowEnvVariablesKey])
    case None => []
    case Some(k) =>
      var feature := Get(supported, k);
      OutputFlags(feature.flags, Quote(EnvsOutput(Get(input, k).entries)))
  }

  /** `_get_output_flags_for_env_variables`: no flags without `env_variables`, else the
      serialised variables, quoted, under each flag of its rule. */
  method GetOutputFlagsForEnvVariables(input: Config, supported: Dict<SupportedFeature>)
    returns (outputFlags: seq<string>)
    requires EnvReady(input, supported)
    ensures outputFlags == EnvVariablesFlags(input, supported)
    ensures !HasKey(input, AllowEnvVariablesKey) ==> outputFlags == []
    ensures HasKey(input, AllowEnvVariablesKey) ==>
      |outputFlags| == |Get(supported, AllowEnvVariablesKey).flags| &&
      forall i :: 0 <= i < |outputFlags| ==>
        outputFlags[i] == Get(supported, AllowEnvVariablesKey).flags[i] + "=" +
                          Quote(JoinWith(";", EnvEntries(Get(input, AllowEnvVariablesKey).entries)))
  {
    outputFlags := [];
    var envVariablesKeyFromInput := FeatureKeyFromInput(input, [AllowEnvVariablesKey]);
    if envVariablesKeyFromInput.Some? {
      var envVariablesValue := GenerateEnvsOutput(Get(input, envVariablesKeyFromInput.value).entries);
      var feature := Get(supported, envVariablesKeyFromInput.value);
      outputFlags := outputFlags + OutputFlags(feature.flags, Quote(envVariablesValue));
    }
  }

  // ---------------------------------------------------------------------------
  // _get_output_flags_for_default_service_account

  /** The project id: the `--project` flag when given, else what the gcloud
      configuration names (`""` when it names none). */
  function ProjectId(projectCliFlag: Option<string>, gcloudProjectId: string): string
  {
    if projectCliFlag.Some? then projectCliFlag.value else gcloudProjectId
  }

  /** The default service account is needed only when `service_account` is absent and
      the project id is known; it then takes the `service_account` rule. */
  predicate ServiceAccountReady(input: Config, supported: Dict<SupportedFeature>,
                                projectCliFlag: Option<string>, gcloudProjectId: string)
  {
    !HasKey(input, AllowServiceAccountKey) && ProjectId(projectCliFlag, gcloudProjectId) != "" ==>
      HasKey(supported, AllowServiceAccountKey)
  }

  /** `_get_output_flags_for_default_service_account` */
  function DefaultServiceAccountFlags(input: Config, supported: Dict<SupportedFeature>,
                                      projectCliFlag: Option<string>, gcloudProjectId: string): (r: seq<string>)
    requires ServiceAccountReady(input, supported, projectCliFlag, gcloudProjectId)
    ensures HasKey(input, AllowServiceAccountKey) ==> r == []
    ensures ProjectId(projectCliFlag, gcloudProjectId) == "" ==> r == []
    ensures r != [] ==> |r| == |Get(supported, AllowServiceAccountKey).flags|
  {
    match FeatureKeyFromInput(input, [AllowServiceAccountKey])
    case None =>
      var projectId := ProjectId(projectCliFlag, gcloudProjectId);
      if projectId == "" then []
      else
        var feature := Get(supported, AllowServiceAccountKey);
        var defaultServiceAccount := Quote(projectId + "@appspot.gserviceaccount.com");
        OutputFlags(feature.flags, defaultServiceAccount)
    case Some(_) => []
  }

  /** A `--project` flag makes the gcloud configuration irrelevant. */
  lemma ProjectFlagWins(input: Config, supported: Dict<SupportedFeature>, project: string, g1: string, g2: string)
    requires ServiceAccountReady(input, supported, Some(project), g1)
    ensures ServiceAccountReady(input, supported, Some(project), g2)
    ensures DefaultServiceAccountFlags(input, supported, Some(project), g1)
         == DefaultServiceAccountFlags(input, supported, Some(project), g2)
  {
  }

  /** Without `service_account`, a known project `p` gives the one flag of a
      `--service-account` rule set to `"p@appspot.gserviceaccount.com"`, quoted
      like every other passthrough value. */
  lemma DefaultServiceAccountExample(input: Config, supported: Dict<SupportedFeature>,
                                     project: string, gcloudProjectId: string)
    requires !HasKey(input, AllowServiceAccountKey) && project != ""
    requires HasKey(supported, AllowServiceAccountKey)
    requires Get(supported, AllowServiceAccountKey).flags == ["--service-account"]
    ensures DefaultServiceAccountFlags(input, supported, Some(project), gcloudProjectId)
         == ["--service-account=" + Quote(project + "@appspot.gserviceaccount.com")]
  {
    assert FeatureKeyFromInput(input, [AllowServiceAccountKey]) == None;
    var q := Quote(project + "@appspot.gserviceaccount.com");
    assert OutputFlags(["--service-account"], q) == ["--service-account" + "=" + q];
    assert "--service-account" + "=" == "--service-account=";
  }

  // ---------------------------------------------------------------------------
  // translate_supported_features

  /** The flags `translate_supported_features` returns: the passthrough flags in
      table order, then the environment variables, then the default service
      account. */
  function SupportedFlags(input: Config, supported: Dict<SupportedFeature>, excluded: seq<string>,
                          projectCliFlag: Option<string>, gcloudProjectId: string): (r: seq<string>)
    requires EnvReady(input, supported) && ServiceAccountReady(input, supported, projectCliFlag, gcloudProjectId)
    ensures var p := Passthrough(supported, input, excluded);
      var e := EnvVariablesFlags(input, supported);
      && |r| == |p| + |e| + |DefaultServiceAccountFlags(input, supported, projectCliFlag, gcloudProjectId)|
      && r[..|p|] == p && r[|p|..|p| + |e|] == e
      && r[|p| + |e|..] == DefaultServiceAccountFlags(input, supported, projectCliFlag, gcloudProjectId)
  {
    Passthrough(supported, input, excluded)
    + EnvVariablesFlags(input, supported)
    + DefaultServiceAccountFlags(input, supported, projectCliFlag, gcloudProjectId)
  }

  /** `translate_supported_features`, with `_EXCLUDE_FEATURES` (the entrypoint keys)
      passed in as `excluded` and the gcloud lookup's result as `gcloudProjectId`. */
  method TranslateSupportedFeatures(input: Config, supported: Dict<SupportedFeature>, excluded: seq<string>,
                                    projectCliFlag: Option<string>, gcloudProjectId: string)
    returns (outputFlags: seq<string>)
    requires EnvReady(input, supported) && ServiceAccountReady(input, supported, projectCliFlag, gcloudProjectId)
    ensures outputFlags == SupportedFlags(input, supported, excluded, projectCliFlag, gcloudProjectId)
  {
    outputFlags := [];
    for i := 0 to |supported|
      invariant outputFlags == Passthrough(supported[..i], input, excluded)
    {
      assert supported[..i + 1][..i] == supported[..i];
      var key := supported[i].0;
      if HasKey(input, key) {
        if key in excluded {
          continue;
        }
        var feature := supported[i].1;
        var inputValue := Quote(Show(Get(input, key)));
        outputFlags := outputFlags + OutputFlags(feature.flags, inputValue);
      }
    }
    assert supported[..|supported|] == supported;
    var envFlags := GetOutputFlagsForEnvVariables(input, supported);
    outputFlags := outputFlags + envFlags;
    outputFlags := outputFlags + DefaultServiceAccountFlags(input, supported, projectCliFlag, gcloudProjectId);
  }
}
