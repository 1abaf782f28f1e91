/** The entrypoint translation rule (app2run/commands/translation_rules/entrypoint.py):
    an app whose runtime is built by Buildpacks from a Procfile gets its entrypoint
    written to a `Procfile` (never over an existing one) and no flag; any other app
    gets the entrypoint as the value of `--command`.

    The working directory's `Procfile` is the state of class `WorkDir`. The lists
    `RUNTIMES_WITH_PROCFILE_ENTRYPOINT` and `ENTRYPOINT_FEATURE_KEYS`, which
    app2run/common/util.py does not define, are parameters. */
module Entrypoint {
  import opened Dicts
  import opened Text
  import opened Values
  import opened Util
  import opened Features
  import opened Supported

  /** `_DEFAULT_PYTHON_ENTRYPOINT` */
  const DefaultPythonEntrypoint := "gunicorn -b :$PORT main:app"

  /** `_DEFAULT_RUBY_ENTRYPOINT` */
  const DefaultRubyEntrypoint := "bundle exec ruby app.rb -o 0.0.0.0"

  /** The key `_generate_entrypoint_app_yaml` translates to a flag. */
  const EntrypointKey := "entrypoint"

  /** A substring of the string it ends. */
  lemma {:induction false} SuffixIsSubstring(a: string, b: string)
    ensures IsSubstring(b, a + b)
    decreases |a|
  {
    if a != [] {
      SuffixIsSubstring(a[1..], b);
      assert (a + b)[1..] == a[1..] + b;
    }
  }

  /** The `Procfile` after `_generate_procfile`: an existing one is kept as it is,
      and a missing one is created naming the entrypoint. */
  function ProcfileAfter(procfile: Option<string>, entrypoint: string): (r: Option<string>)
    ensures r.Some?
    ensures procfile.Some? ==> r == procfile
    ensures procfile.None? ==> r == Some("web: " + entrypoint)
    ensures procfile.None? ==> StartsWith(r.value, "web: ") && IsSubstring(entrypoint, r.value)
  {
    if procfile.Some? then procfile
    else
      SuffixIsSubstring("web: ", entrypoint);
      Some("web: " + entrypoint)
  }

  // ---------------------------------------------------------------------------
  // Decision helpers

  /** `runtime in RUNTIMES_WITH_PROCFILE_ENTRYPOINT`: only a string can be equal to one
      of the listed runtimes. */
  predicate IsProcfileRuntime(runtime: Value, runtimesWithProcfile: seq<string>)
  {
    runtime.Str? && runtime.s in runtimesWithProcfile
  }

  /** `_should_generate_procfile`: the document names a runtime built from a Procfile. */
  predicate ShouldGenerateProcfile(flat: Config, runtimesWithProcfile: seq<string>)
    ensures ShouldGenerateProcfile(flat, runtimesWithProcfile) ==>
      HasKey(flat, "runtime") && Get(flat, "runtime").Str? && runtimesWithProcfile != []
  {
    HasKey(flat, "runtime") && IsProcfileRuntime(Get(flat, "runtime"), runtimesWithProcfile)
  }

  /** `_get_entrypoint_from_input`: the value of the first of `keys` present in the
      document, else the empty string. */
  function EntrypointFromInput(flat: Config, keys: seq<string>): (r: Value)
    ensures (forall i :: 0 <= i < |keys| ==> !HasKey(flat, keys[i])) ==> r == Str("")
    ensures forall i :: 0 <= i < |keys| && HasKey(flat, keys[i]) &&
                        (forall j :: 0 <= j < i ==> !HasKey(flat, keys[j])) ==>
                          r == Get(flat, keys[i])
  {
    match FeatureKeyFromInput(flat, keys)
    case None => Str("")
    case Some(k) => Get(flat, k)
  }

  /** `_get_default_entrypoint_by_runtime`: gunicorn for a `python*` runtime, bundle for
      a `ruby*` one, and nothing otherwise (a runtime that is not a string raises
      `AttributeError`). */
  function DefaultEntrypointByRuntime(flat: Config): (r: string)
    requires HasKey(flat, "runtime") ==> Get(flat, "runtime").Str?
    ensures r != "" <==> HasKey(flat, "runtime") &&
                         (StartsWith(Get(flat, "runtime").s, "python") || StartsWith(Get(flat, "runtime").s, "ruby"))
    ensures r != "" && StartsWith(Get(flat, "runtime").s, "python") ==> r == DefaultPythonEntrypoint
    ensures r != "" && !StartsWith(Get(flat, "runtime").s, "python") ==> r == DefaultRubyEntrypoint
  {
    if HasKey(flat, "runtime") then
      var runtime := Get(flat, "runtime").s;
      if StartsWith(runtime, "python") then DefaultPythonEntrypoint
      else if StartsWith(runtime, "ruby") then DefaultRubyEntrypoint
      else ""
    else ""
  }

  /** What `_generate_procfile` needs when a Procfile already exists: the entrypoint
      it looks for with `in` must be a string, so a truthy entrypoint from the document
      that is a number or a mapping would raise `TypeError`. A falsy one is replaced
      by the runtime's default, and a missing Procfile is written with `f'web: {...}'`,
      which takes any value. */
  predicate ProcfileCheckReady(procfile: Option<string>, flat: Config, keys: seq<string>,
                               runtimesWithProcfile: seq<string>)
  {
    procfile.Some? && ShouldGenerateProcfile(flat, runtimesWithProcfile) && Truthy(EntrypointFromInput(flat, keys)) ==>
      EntrypointFromInput(flat, keys).Str?
  }

  /** `entrypoint: 5` for a Procfile runtime is refused when a Procfile exists, where
      `5 in procfile_content` raises, and accepted when none does, where it is written
      as `web: 5`. */
  lemma NumericEntrypointChecked(runtime: string, existing: string)
    ensures var flat: Config := [("runtime", Str(runtime)), (EntrypointKey, Int(5))];
      && !ProcfileCheckReady(Some(existing), flat, [EntrypointKey], [runtime])
      && ProcfileCheckReady(None, flat, [EntrypointKey], [runtime])
  {
    var flat: Config := [("runtime", Str(runtime)), (EntrypointKey, Int(5))];
    assert Keys(flat) == ["runtime", EntrypointKey];
    assert FeatureKeyFromInput(flat, [EntrypointKey]) == Some(EntrypointKey);
  }

  /** The entrypoint `_generate_entrypoint_app_yaml` writes to the Procfile: the one in
      the document when it is truthy, else the runtime's default. */
  function ProcfileEntrypoint(flat: Config, keys: seq<string>, runtimesWithProcfile: seq<string>): (r: string)
    requires ShouldGenerateProcfile(flat, runtimesWithProcfile)
    ensures Truthy(EntrypointFromInput(flat, keys)) ==> r == Show(EntrypointFromInput(flat, keys))
    ensures !Truthy(EntrypointFromInput(flat, keys)) ==> r == DefaultEntrypointByRuntime(flat)
  {
    var entrypoint := EntrypointFromInput(flat, keys);
    if Truthy(entrypoint) then Show(entrypoint) else DefaultEntrypointByRuntime(flat)
  }

  // ---------------------------------------------------------------------------
  // The flags of each input type

  /** The flags `_generate_entrypoint_admin_api` returns: none without a command or
      when the command goes to a Procfile, else `--command` with the quoted command. */
  function AdminApiFlags(flat: Config, runtimesWithProcfile: seq<string>, command: Option<string>): (r: seq<string>)
    ensures command.None? || ShouldGenerateProcfile(flat, runtimesWithProcfile) ==> r == []
    ensures command.Some? && !ShouldGenerateProcfile(flat, runtimesWithProcfile) ==>
      r == ["--command=" + Quote(command.value)]
  {
    if command.None? then []
    else if ShouldGenerateProcfile(flat, runtimesWithProcfile) then []
    else
      assert "--command" + "=" + Quote(command.value) == "--command=" + Quote(command.value);
      OutputFlags(["--command"], Quote(command.value))
  }

  /** What `_generate_entrypoint_app_yaml` needs: a rule for `entrypoint` whenever it
      is translated to a flag. */
  predicate AppYamlReady(flat: Config, runtimesWithProcfile: seq<string>, supported: Dict<SupportedFeature>)
  {
    !ShouldGenerateProcfile(flat, runtimesWithProcfile) && HasKey(flat, EntrypointKey) ==>
      HasKey(supported, EntrypointKey)
  }

  /** The flags `_generate_entrypoint_app_yaml` returns: none when the entrypoint goes
      to a Procfile, else the `entrypoint` rule's flags with the quoted value. */
  function AppYamlFlags(flat: Config, runtimesWithProcfile: seq<string>, supported: Dict<SupportedFeature>): (r: seq<string>)
    requires AppYamlReady(flat, runtimesWithProcfile, supported)
    ensures ShouldGenerateProcfile(flat, runtimesWithProcfile) || !HasKey(flat, EntrypointKey) ==> r == []
    ensures !ShouldGenerateProcfile(flat, runtimesWithProcfile) && HasKey(flat, EntrypointKey) ==>
      var flags := Get(supported, EntrypointKey).flags;
      && |r| == |flags|
      && forall i :: 0 <= i < |flags| ==> r[i] == flags[i] + "=" + Quote(Show(Get(flat, EntrypointKey)))
  {
    if ShouldGenerateProcfile(flat, runtimesWithProcfile) then []
    else if HasKey(flat, EntrypointKey) then
      var feature := Get(supported, EntrypointKey);
      var inputValue := Quote(Show(Get(flat, EntrypointKey)));
      OutputFlags(feature.flags, inputValue)
    else []
  }

  /** What `translate_entrypoint_features` needs of the document. */
  predicate EntrypointReady(inputData: Config, inputType: InputType, runtimesWithProcfile: seq<string>,
                            supported: Dict<SupportedFeature>)
  {
    inputType == AppYaml ==> AppYamlReady(Flatten(inputData, ""), runtimesWithProcfile, supported)
  }

  /** The flags `translate_entrypoint_features` returns. */
  function EntrypointFlags(inputData: Config, inputType: InputType, runtimesWithProcfile: seq<string>,
                           supported: Dict<SupportedFeature>, command: Option<string>): seq<string>
    requires EntrypointReady(inputData, inputType, runtimesWithProcfile, supported)
  {
    var flat := Flatten(inputData, "");
    if inputType == AdminApi then AdminApiFlags(flat, runtimesWithProcfile, command)
    else AppYamlFlags(flat, runtimesWithProcfile, supported)
  }

  /** Whether `translate_entrypoint_features` takes the Procfile step, and with which
      entrypoint. */
  function ProcfileStep(inputData: Config, inputType: InputType, runtimesWithProcfile: seq<string>,
                        keys: seq<string>, command: Option<string>): (r: Option<string>)
    ensures r.Some? ==> ShouldGenerateProcfile(Flatten(inputData, ""), runtimesWithProcfile)
  {
    var flat := Flatten(inputData, "");
    if !ShouldGenerateProcfile(flat, runtimesWithProcfile) then None
    else if inputType == AdminApi then command
    else Some(ProcfileEntrypoint(flat, keys, runtimesWithProcfile))
  }

  /** A translation either writes the entrypoint to a Procfile or emits flags, never
      both; and a Procfile runtime never gets flags. */
  lemma FlagsOrProcfile(inputData: Config, inputType: InputType, runtimesWithProcfile: seq<string>,
                        supported: Dict<SupportedFeature>, keys: seq<string>, command: Option<string>)
    requires EntrypointReady(inputData, inputType, runtimesWithProcfile, supported)
    ensures ShouldGenerateProcfile(Flatten(inputData, ""), runtimesWithProcfile) ==>
      EntrypointFlags(inputData, inputType, runtimesWithProcfile, supported, command) == []
    ensures ProcfileStep(inputData, inputType, runtimesWithProcfile, keys, command).Some? ==>
      EntrypointFlags(inputData, inputType, runtimesWithProcfile, supported, command) == []
  {
  }

  /** The same entrypoint given as `--command` to the admin API route or written as
      `entrypoint` in app.yaml under a `--command` rule gives the same flag. */
  lemma RoutesAgree(flat: Config, runtimesWithProcfile: seq<string>, supported: Dict<SupportedFeature>,
                    command: string)
    requires HasKey(flat, EntrypointKey) && Get(flat, EntrypointKey) == Str(command)
    requires HasKey(supported, EntrypointKey) && Get(supported, EntrypointKey).flags == ["--command"]
    ensures AppYamlFlags(flat, runtimesWithProcfile, supported) == AdminApiFlags(flat, runtimesWithProcfile, Some(command))
  {
    if !ShouldGenerateProcfile(flat, runtimesWithProcfile) {
      var r := AppYamlFlags(flat, runtimesWithProcfile, supported);
      assert r[0] == "--command" + "=" + Quote(command);
    }
  }

  /** `entrypoint: foo` under a `--command` rule, outside the Procfile runtimes, gives
      `--command="foo"`. */
  lemma EntrypointExample(runtimesWithProcfile: seq<string>, supported: Dict<SupportedFeature>)
    requires HasKey(supported, EntrypointKey) && Get(supported, EntrypointKey).flags == ["--command"]
    ensures AppYamlFlags([(EntrypointKey, Str("foo"))], runtimesWithProcfile, supported) == ["--command=\"foo\""]
  {
    var flat: Config := [(EntrypointKey, Str("foo"))];
    assert Keys(flat) == [EntrypointKey];
    assert !ShouldGenerateProcfile(flat, runtimesWithProcfile);
    assert "--command" + "=" + Quote("foo") == "--command=\"foo\"";
  }

  // ---------------------------------------------------------------------------
  // The working directory

  /** The working directory the tool runs in, reduced to its `Procfile`. */
  class WorkDir {
    var procfile: Option<string>

    constructor (procfile: Option<string>)
      ensures this.procfile == procfile
    {
      this.procfile := procfile;
    }

    /** `_procfile_exists` */
    predicate ProcfileExists()
      reads this
    {
      procfile.Some?
    }

    /** `_procfile_contains_entrypoint` */
    predicate ProcfileContainsEntrypoint(entrypoint: string)
      reads this
      ensures ProcfileContainsEntrypoint(entrypoint) ==> ProcfileExists()
      ensures procfile == Some("web: " + entrypoint) ==> ProcfileContainsEntrypoint(entrypoint)
    {
      SuffixIsSubstring("web: ", entrypoint);
      ProcfileExists() && IsSubstring(entrypoint, procfile.value)
    }

    /** `_generate_procfile`: creates `web: <entrypoint>` when there is no Procfile, and
        otherwise leaves it alone, returning whether the warning that it lacks the
        entrypoint is printed. */
    method GenerateProcfile(runtime: Value, entrypoint: string) returns (warning: bool)
      modifies this
      ensures procfile == ProcfileAfter(old(procfile), entrypoint)
      ensures warning <==> old(procfile).Some? && !IsSubstring(entrypoint, old(procfile).value)
      ensures ProcfileContainsEntrypoint(entrypoint) || warning
    {
      if !ProcfileExists() {
        procfile := ProcfileAfter(procfile, entrypoint);
        return false;
      }
      warning := !ProcfileContainsEntrypoint(entrypoint);
    }

    /** `_generate_entrypoint_admin_api` */
    method GenerateEntrypointAdminApi(flat: Config, runtimesWithProcfile: seq<string>, command: Option<string>)
      returns (flags: seq<string>)
      modifies this
      ensures flags == AdminApiFlags(flat, runtimesWithProcfile, command)
      ensures command.Some? && ShouldGenerateProcfile(flat, runtimesWithProcfile) ==>
        procfile == ProcfileAfter(old(procfile), command.value)
      ensures command.None? || !ShouldGenerateProcfile(flat, runtimesWithProcfile) ==> procfile == old(procfile)
    {
      if command.None? {
        return [];
      }
      if HasKey(flat, "runtime") {
        var runtime := Get(flat, "runtime");
        if IsProcfileRuntime(runtime, runtimesWithProcfile) {
          var _ := GenerateProcfile(runtime, command.value);
          return [];
        }
      }
      flags := GenerateOutputFlags(["--command"], Quote(command.value));
    }

    /** `_generate_entrypoint_app_yaml` */
    method GenerateEntrypointAppYaml(flat: Config, runtimesWithProcfile: seq<string>, keys: seq<string>,
                                     supported: Dict<SupportedFeature>)
      returns (flags: seq<string>)
      requires AppYamlReady(flat, runtimesWithProcfile, supported)
      requires ProcfileCheckReady(procfile, flat, keys, runtimesWithProcfile)
      modifies this
      ensures flags == AppYamlFlags(flat, runtimesWithProcfile, supported)
      ensures ShouldGenerateProcfile(flat, runtimesWithProcfile) ==>
        procfile == ProcfileAfter(old(procfile), ProcfileEntrypoint(flat, keys, runtimesWithProcfile))
      ensures !ShouldGenerateProcfile(flat, runtimesWithProcfile) ==> procfile == old(procfile)
    {
      if ShouldGenerateProcfile(flat, runtimesWithProcfile) {
        var runtime := Get(flat, "runtime");
        var entrypointValue := EntrypointFromInput(flat, keys);
        var entrypoint := if Truthy(entrypointValue) then Show(entrypointValue) else "";
        if !Truthy(entrypointValue) {
          entrypoint := DefaultEntrypointByRuntime(flat);
        }
        var _ := GenerateProcfile(runtime, entrypoint);
        return [];
      }
      var featureKey := EntrypointKey;
      if HasKey(flat, featureKey) {
        var feature := Get(supported, featureKey);
        var inputValue := Quote(Show(Get(flat, featureKey)));
        flags := GenerateOutputFlags(feature.flags, inputValue);
        return;
      }
      flags := [];
    }

    /** `translate_entrypoint_features`: the admin API route for admin API input, the
        app.yaml route otherwise, both on the flattened document. */
    method TranslateEntrypointFeatures(inputData: Config, inputType: InputType, supported: Dict<SupportedFeature>,
                                       command: Option<string>, runtimesWithProcfile: seq<string>,
                                       keys: seq<string>)
      returns (flags: seq<string>)
      requires EntrypointReady(inputData, inputType, runtimesWithProcfile, supported)
      requires inputType == AppYaml ==> ProcfileCheckReady(procfile, Flatten(inputData, ""), keys, runtimesWithProcfile)
      modifies this
      ensures flags == EntrypointFlags(inputData, inputType, runtimesWithProcfile, supported, command)
      ensures var step := ProcfileStep(inputData, inputType, runtimesWithProcfile, keys, command);
        procfile == if step.Some? then ProcfileAfter(old(procfile), step.value) else old(procfile)
    {
      var inputKeyValuePairs := FlattenKeys(inputData, "");
      if inputType == AdminApi {
        flags := GenerateEntrypointAdminApi(inputKeyValuePairs, runtimesWithProcfile, command);
      } else {
        flags := GenerateEntrypointAppYaml(inputKeyValuePairs, runtimesWithProcfile, keys, supported);
      }
    }
  }

  /** An existing Procfile is never overwritten, whatever the input. */
  method ExistingProcfileKept(dir: WorkDir, inputData: Config, inputType: InputType, supported: Dict<SupportedFeature>,
                              command: Option<string>, runtimesWithProcfile: seq<string>, keys: seq<string>)
    requires EntrypointReady(inputData, inputType, runtimesWithProcfile, supported)
    requires dir.procfile.Some?
    requires inputType == AppYaml ==> ProcfileCheckReady(dir.procfile, Flatten(inputData, ""), keys, runtimesWithProcfile)
    modifies dir
    ensures dir.procfile == old(dir.procfile)
  {
    var _ := dir.TranslateEntrypointFeatures(inputData, inputType, supported, command, runtimesWithProcfile, keys);
  }
}
