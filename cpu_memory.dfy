/** The resources translation rule (app2run/commands/translation_rules/cpu_memory.py):
    in the flexible environment `resources.cpu` and `resources.memory_gb` become
    `--cpu` and `--memory`, any value outside the rule's range replaced by its
    maximum; in the standard environment the instance class (given, or the default
    of the scaling group) is looked up in a fixed table of CPU and memory sizes. */
module CpuMemory {
  import opened Dicts
  import opened Text
  import opened Values
  import opened Util
  import opened Features
  import opened Incompatible
  import opened FieldGroups
  import opened Scaling

  /** `_ALLOWED_RESOURCE_KEY` */
  const AllowedResourceKey := ["cpu", "memory_gb", "memoryGb"]

  /** The group the flexible environment's resource fields live under. */
  const ResourcesPrefix := "resources"

  /** `_DEFAULT_CPU_MEM_CONFIG`: the instance class App Engine uses by default for each
      scaling group. */
  function DefaultInstanceClass(s: ScalingType): string
  {
    match s
    case Automatic => "F1"
    case Manual => "B2"
    case Basic => "B2"
  }

  /** One row of `_INSTANCE_CLASS_MAP`: the CPU count and the memory in GiB, each as
      Python prints the number. */
  datatype Size = Size(cpu: string, memory: string)

  /** `_INSTANCE_CLASS_MAP[instance_class]`, or `None` where Python raises `KeyError`. */
  function InstanceClassMap(instanceClass: string): Option<Size>
  {
    match instanceClass
    case "F1" => Some(Size("1", "0.25"))
    case "F2" => Some(Size("1.2", "0.5"))
    case "F4" => Some(Size("2.4", "1"))
    case "F4_1G" => Some(Size("2.4", "2"))
    case "B1" => Some(Size("1", "0.25"))
    case "B2" => Some(Size("1.2", "0.5"))
    case "B4" => Some(Size("2.4", "1"))
    case "B4_1G" => Some(Size("2.4", "2"))
    case "B8" => Some(Size("4.8", "2"))
    case _ => None
  }

  /** `_format_cloud_run_memory_unit`: Cloud Run wants a unit on `--memory`. */
  function FormatCloudRunMemoryUnit(value: string): (r: string)
    ensures |r| == |value| + 2 && r[..|value|] == value && r[|value|..] == "Gi"
  {
    value + "Gi"
  }

  // ---------------------------------------------------------------------------
  // _translate_flex_cpu_memory

  /** The flags of one resource field with value `inputValue`: every flag of the rule
      set to the value when within range and to the maximum otherwise, on either
      side; a memory field carries the `Gi` unit. */
  function ResourceField(feature: Feature, field: string, inputValue: int): (r: seq<string>)
    ensures feature.RangeLimited? ==> |r| == |feature.flags|
    ensures feature.RangeLimited? && feature.IsWithinRange(inputValue) ==>
      forall i :: 0 <= i < |r| ==>
        r[i] == feature.flags[i] + "=" + IntToString(inputValue) + (if StartsWith(field, "memory") then "Gi" else "")
    ensures feature.RangeLimited? && !feature.IsWithinRange(inputValue) ==>
      forall i :: 0 <= i < |r| ==>
        r[i] == feature.flags[i] + "=" + IntToString(feature.range.max) + (if StartsWith(field, "memory") then "Gi" else "")
  {
    if feature.RangeLimited? then
      var targetValue := if feature.IsWithinRange(inputValue) then inputValue else feature.range.max;
      var rendered := if StartsWith(field, "memory") then FormatCloudRunMemoryUnit(IntToString(targetValue))
                      else IntToString(targetValue);
      OutputFlags(feature.flags, rendered)
    else []
  }

  /** The document can be translated: every key under `resources` has a second
      segment, and every allow-listed one holds an integer and has a range-limited
      rule. */
  predicate FlexReady(flat: Config, rules: Dict<Feature>)
  {
    GroupReady(flat, rules, ResourcesPrefix, AllowedResourceKey)
  }

  /** The flags `_translate_flex_cpu_memory` returns for the flattened document. */
  function FlexResourceFlags(flat: Config, rules: Dict<Feature>): seq<string>
    requires DistinctKeys(flat) && FlexReady(flat, rules)
  {
    GroupFlags(flat, rules, ResourcesPrefix, AllowedResourceKey, ResourceField)
  }

  /** `_translate_flex_cpu_memory`, with the rule list passed in. */
  method TranslateFlexCpuMemory(inputData: Config, inputType: InputType, rangeLimited: seq<Feature>)
    returns (outputFlags: seq<string>)
    requires FlexReady(Flatten(inputData, ""), ByPath(rangeLimited, inputType))
    ensures outputFlags == FlexResourceFlags(Flatten(inputData, ""), ByPath(rangeLimited, inputType))
  {
    var rangeLimitedFeatures := GetFeatureListByInputType(inputType, rangeLimited);
    var inputKeyValuePairs := FlattenKeys(inputData, "");
    var inputFeatureKeys := GetFeaturesByPrefix(inputKeyValuePairs, ResourcesPrefix);
    GroupKeysReady(inputKeyValuePairs, rangeLimitedFeatures, ResourcesPrefix, AllowedResourceKey);
    var allowedInputFeatureKeys := AllowedFeatureKeys(inputFeatureKeys, AllowedResourceKey);
    outputFlags := AccumulateFieldFlags(allowedInputFeatureKeys, inputKeyValuePairs, rangeLimitedFeatures, ResourceField);
  }

  /** How one more key of the flattened document changes the flexible environment's
      flags: an allow-listed key under `resources` appends its field's flags, and any
      other key (`instance_class` among them) adds nothing. */
  lemma FlexResourceFlagsSnoc(flat: Config, e: (string, Value), rules: Dict<Feature>)
    requires DistinctKeys(flat + [e]) && FlexReady(flat + [e], rules)
    ensures DistinctKeys(flat) && FlexReady(flat, rules)
    ensures StartsWith(e.0, ResourcesPrefix) ==> '.' in e.0
    ensures StartsWith(e.0, ResourcesPrefix) && Field(e.0) in AllowedResourceKey ==>
      e.1.Int? && HasKey(rules, e.0) && Get(rules, e.0).RangeLimited?
    ensures StartsWith(e.0, ResourcesPrefix) && Field(e.0) in AllowedResourceKey ==>
      FlexResourceFlags(flat + [e], rules)
      == FlexResourceFlags(flat, rules) + ResourceField(Get(rules, e.0), Field(e.0), e.1.i)
    ensures !(StartsWith(e.0, ResourcesPrefix) && Field(e.0) in AllowedResourceKey) ==>
      FlexResourceFlags(flat + [e], rules) == FlexResourceFlags(flat, rules)
  {
    GroupFlagsSnoc(flat, e, rules, ResourcesPrefix, AllowedResourceKey, ResourceField);
  }

  /** Unlike a scaling field, whose value below the minimum is dropped, a resource
      field below the minimum is raised to the maximum. */
  lemma BelowMinimumDiffers(feature: Feature, field: string, inputValue: int)
    requires feature.RangeLimited? && inputValue < feature.range.min && feature.flags != []
    ensures ScalingField(feature, field, inputValue) == []
    ensures ResourceField(feature, field, inputValue) != []
    ensures ResourceField(feature, field, inputValue)[0]
         == feature.flags[0] + "=" + IntToString(feature.range.max) + (if StartsWith(field, "memory") then "Gi" else "")
  {
  }

  /** `resources.cpu: 9` under a `--cpu` rule over [1, 8] gives `--cpu=8`, and
      `resources.memory_gb: 33` under a `--memory` rule with maximum 32 gives
      `--memory=32Gi`; `cpu: 7` and `memory_gb: 31` pass through. */
  lemma FlexExamples(cpu: Feature, memory: Feature)
    requires cpu.RangeLimited? && cpu.range == Range(1, 8) && cpu.flags == ["--cpu"]
    requires memory.RangeLimited? && memory.range == Range(1, 32) && memory.flags == ["--memory"]
    ensures ResourceField(cpu, "cpu", 9) == ["--cpu=8"]
    ensures ResourceField(cpu, "cpu", 7) == ["--cpu=7"]
    ensures ResourceField(memory, "memory_gb", 33) == ["--memory=32Gi"]
    ensures ResourceField(memory, "memory_gb", 31) == ["--memory=31Gi"]
  {
    assert IntToString(7) == "7" && IntToString(8) == "8";
    assert IntToString(31) == "31" && IntToString(32) == "32" by {
      assert NatToString(3) == "3";
    }
    assert StartsWith("memory_gb", "memory") && !StartsWith("cpu", "memory");
    assert "--cpu" + "=" + "8" == "--cpu=8" && "--cpu" + "=" + "7" == "--cpu=7";
    assert "--memory" + "=" + "32" + "Gi" == "--memory=32Gi";
    assert "--memory" + "=" + "31" + "Gi" == "--memory=31Gi";
  }

  // ---------------------------------------------------------------------------
  // _translate_standard_instance_class

  /** `_generate_cpu_memory_flags_by_instance_class`: `--cpu` then `--memory`, from the
      table (an unknown class raises `KeyError`). */
  function InstanceClassFlags(instanceClass: string): (r: seq<string>)
    requires InstanceClassMap(instanceClass).Some?
    ensures |r| == 2 && StartsWith(r[0], "--cpu=") && StartsWith(r[1], "--memory=")
    ensures r[1][|r[1]| - 2..] == "Gi"
    ensures r == ["--cpu=" + InstanceClassMap(instanceClass).value.cpu,
                  "--memory=" + (InstanceClassMap(instanceClass).value.memory + "Gi")]
  {
    var cpuMemoryConfig := InstanceClassMap(instanceClass).value;
    var cpuValue := cpuMemoryConfig.cpu;
    var memoryValue := FormatCloudRunMemoryUnit(cpuMemoryConfig.memory);
    ["--cpu=" + cpuValue, "--memory=" + memoryValue]
  }

  /** The default classes' rows, which `CpuMemoryDefault` uses. */
  lemma InstanceClassExamples()
    ensures InstanceClassMap("F1").Some? && InstanceClassFlags("F1") == ["--cpu=1", "--memory=0.25Gi"]
    ensures InstanceClassMap("B2").Some? && InstanceClassFlags("B2") == ["--cpu=1.2", "--memory=0.5Gi"]
    ensures InstanceClassMap("F4_1G").Some? && InstanceClassFlags("F4_1G") == ["--cpu=2.4", "--memory=2Gi"]
    ensures InstanceClassMap("B8").Some? && InstanceClassFlags("B8") == ["--cpu=4.8", "--memory=2Gi"]
  {
    assert "--cpu=" + "1" == "--cpu=1" && "--memory=" + ("0.25" + "Gi") == "--memory=0.25Gi";
    assert "--cpu=" + "1.2" == "--cpu=1.2" && "--memory=" + ("0.5" + "Gi") == "--memory=0.5Gi";
    assert "--cpu=" + "2.4" == "--cpu=2.4" && "--memory=" + ("2" + "Gi") == "--memory=2Gi";
    assert "--cpu=" + "4.8" == "--cpu=4.8";
  }

  /** The table's nine rows: cpu and memory (in GB) per instance class. */
  lemma InstanceClassTable()
    ensures InstanceClassMap("F1") == Some(Size("1", "0.25"))
    ensures InstanceClassMap("F2") == Some(Size("1.2", "0.5"))
    ensures InstanceClassMap("F4") == Some(Size("2.4", "1"))
    ensures InstanceClassMap("F4_1G") == Some(Size("2.4", "2"))
    ensures InstanceClassMap("B1") == Some(Size("1", "0.25"))
    ensures InstanceClassMap("B2") == Some(Size("1.2", "0.5"))
    ensures InstanceClassMap("B4") == Some(Size("2.4", "1"))
    ensures InstanceClassMap("B4_1G") == Some(Size("2.4", "2"))
    ensures InstanceClassMap("B8") == Some(Size("4.8", "2"))
  {
  }

  /** A class with a row gets exactly that row's figures as flags, e.g. B8 gives
      `--cpu=4.8` and `--memory=2Gi`. */
  lemma InstanceClassFlagsOfRow(c: string, cpu: string, memory: string)
    requires InstanceClassMap(c) == Some(Size(cpu, memory))
    ensures InstanceClassFlags(c) == ["--cpu=" + cpu, "--memory=" + memory + "Gi"]
  {
    AppendAssoc("--memory=", memory, "Gi");
  }

  /** Only the nine classes of the table have a row. */
  lemma InstanceClassRows(c: string)
    requires InstanceClassMap(c).Some?
    ensures c in ["F1", "F2", "F4", "F4_1G", "B1", "B2", "B4", "B4_1G", "B8"]
  {
  }

  /** Both default classes are rows of the table. */
  lemma DefaultsInTable(s: ScalingType)
    ensures InstanceClassMap(DefaultInstanceClass(s)).Some?
  {
  }

  /** `_get_cpu_memory_default_based_on_scaling_method`: the sizes of the scaling
      group's default class, or nothing unless exactly one group is present. */
  function CpuMemoryDefault(input: Config): (r: seq<string>)
    ensures |ScalingFeaturesUsed(input)| != 1 ==> r == []
    ensures ScalingFeaturesUsed(input) == [Automatic] ==> r == ["--cpu=1", "--memory=0.25Gi"]
    ensures ScalingFeaturesUsed(input) == [Manual] || ScalingFeaturesUsed(input) == [Basic] ==>
      r == ["--cpu=1.2", "--memory=0.5Gi"]
  {
    InstanceClassExamples();
    var scalingFeaturesUsed := ScalingFeaturesUsed(input);
    if |scalingFeaturesUsed| == 0 then []
    else if |scalingFeaturesUsed| > 1 then []
    else
      var scalingMethod := scalingFeaturesUsed[0];
      DefaultsInTable(scalingMethod);
      InstanceClassFlags(DefaultInstanceClass(scalingMethod))
  }

  /** A standard document can be translated: its `instance_class`, when present, is
      a string naming a row of the table. */
  predicate StandardReady(input: Config)
  {
    HasKey(input, "instance_class") ==>
      Get(input, "instance_class").Str? && InstanceClassMap(Get(input, "instance_class").s).Some?
  }

  /** `_translate_standard_instance_class`: an explicit class wins over the scaling
      group's default. */
  function TranslateStandardInstanceClass(input: Config): (r: seq<string>)
    requires StandardReady(input)
    ensures HasKey(input, "instance_class") ==> r == InstanceClassFlags(Get(input, "instance_class").s)
    ensures !HasKey(input, "instance_class") ==> r == CpuMemoryDefault(input)
    ensures r == [] || |r| == 2
  {
    if HasKey(input, "instance_class") then
      var instanceClass := Get(input, "instance_class").s;
      InstanceClassFlags(instanceClass)
    else CpuMemoryDefault(input)
  }

  /** The standard rule reads only `instance_class` and the scaling groups present,
      so `resources.*` keys never matter to it. */
  lemma StandardReadsInstanceClassOnly(a: Config, b: Config)
    requires StandardReady(a) && StandardReady(b)
    requires AgreeOn(a, b, {"instance_class"})
    requires ScalingFeaturesUsed(a) == ScalingFeaturesUsed(b)
    ensures TranslateStandardInstanceClass(a) == TranslateStandardInstanceClass(b)
  {
    assert "instance_class" in {"instance_class"};
  }

  // ---------------------------------------------------------------------------
  // translate_app_resources

  /** What `translate_app_resources` needs of the document in its environment. */
  predicate ResourcesReady(input: Config, inputType: InputType, rangeLimited: seq<Feature>)
  {
    if IsFlexEnv(input) then FlexReady(Flatten(input, ""), ByPath(rangeLimited, inputType))
    else StandardReady(input)
  }

  /** The flags `translate_app_resources` returns. */
  function AppResources(input: Config, inputType: InputType, rangeLimited: seq<Feature>): seq<string>
    requires ResourcesReady(input, inputType, rangeLimited)
  {
    if IsFlexEnv(input) then FlexResourceFlags(Flatten(input, ""), ByPath(rangeLimited, inputType))
    else TranslateStandardInstanceClass(input)
  }

  /** `translate_app_resources`: the flexible environment reads `resources`, the
      standard one the instance class. */
  method TranslateAppResources(inputData: Config, inputType: InputType, rangeLimited: seq<Feature>)
    returns (flags: seq<string>)
    requires ResourcesReady(inputData, inputType, rangeLimited)
    ensures IsFlexEnv(inputData) ==> flags == FlexResourceFlags(Flatten(inputData, ""), ByPath(rangeLimited, inputType))
    ensures !IsFlexEnv(inputData) ==> flags == TranslateStandardInstanceClass(inputData)
    ensures flags == AppResources(inputData, inputType, rangeLimited)
  {
    if IsFlexEnv(inputData) {
      flags := TranslateFlexCpuMemory(inputData, inputType, rangeLimited);
    } else {
      flags := TranslateStandardInstanceClass(inputData);
    }
  }
}
