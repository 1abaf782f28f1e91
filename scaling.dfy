/** The scaling translation rule (app2run/commands/translation_rules/scaling.py):
    exactly one of the three App Engine scaling groups may be present, and each of
    its allow-listed fields becomes the Cloud Run flags of its range-limited rule,
    with the value clamped to the rule's maximum. */
module Scaling {
  import opened Dicts
  import opened Text
  import opened Values
  import opened Util
  import opened Features
  import opened Incompatible
  import opened FieldGroups

  /** `ScalingTypeAppYaml` */
  datatype ScalingType = Automatic | Manual | Basic
  {
    /** The group's top-level key in app.yaml. */
    function Name(): string
    {
      match this
      case Automatic => "automatic_scaling"
      case Manual => "manual_scaling"
      case Basic => "basic_scaling"
    }

    /** Position in the order in which the groups are looked for. */
    function Rank(): nat
    {
      match this
      case Automatic => 0
      case Manual => 1
      case Basic => 2
    }
  }

  /** `_SCALING_FEATURE_KEYS_ALLOWED_LIST`: the fields of each group that are translated. */
  function AllowedKeys(s: ScalingType): seq<string>
  {
    match s
    case Automatic => ["min_num_instances", "max_num_instances", "min_instances", "max_instances"]
    case Manual => ["instances"]
    case Basic => ["max_instances"]
  }

  /** `_get_scaling_features_used`: the groups present at the top level of the
      document, in the fixed order automatic, manual, basic. */
  function ScalingFeaturesUsed(input: Config): (r: seq<ScalingType>)
    ensures forall s :: s in r <==> HasKey(input, s.Name())
    ensures forall i, j :: 0 <= i < j < |r| ==> r[i].Rank() < r[j].Rank()
  {
    var a := HasKey(input, Automatic.Name());
    var m := HasKey(input, Manual.Name());
    var b := HasKey(input, Basic.Name());
    UsedInOrder(a, m, b);
    Used(a, m, b)
  }

  /** The groups appended, in order, given which of the three are present. */
  function Used(a: bool, m: bool, b: bool): seq<ScalingType>
  {
    (if a then [Automatic] else []) + (if m then [Manual] else []) + (if b then [Basic] else [])
  }

  lemma UsedInOrder(a: bool, m: bool, b: bool)
    ensures forall s :: s in Used(a, m, b) <==> (s == Automatic && a) || (s == Manual && m) || (s == Basic && b)
    ensures forall i, j :: 0 <= i < j < |Used(a, m, b)| ==> Used(a, m, b)[i].Rank() < Used(a, m, b)[j].Rank()
  {
  }

  // ---------------------------------------------------------------------------
  // _get_output_flags_by_scaling_type

  /** The flags for one scaling field with value `inputValue`: none below the rule's
      minimum, otherwise every flag of the rule set to the value, or to the maximum
      when the value is above it. */
  function OutputFlagsByScalingType(feature: Feature, inputValue: int): (r: seq<string>)
    requires feature.RangeLimited?
    ensures inputValue < feature.range.min ==> r == []
    ensures feature.IsWithinRange(inputValue) ==> r == OutputFlags(feature.flags, IntToString(inputValue))
    ensures feature.range.min <= inputValue && feature.range.max < inputValue ==>
      r == OutputFlags(feature.flags, IntToString(feature.range.max))
    ensures r == [] || |r| == |feature.flags|
  {
    if inputValue < feature.range.min then []
    else OutputFlags(feature.flags, IntToString(feature.Clamp(inputValue)))
  }

  /** Manual `instances: 10` under a rule with flags `--min-instances` and
      `--max-instances` and range [0, 1000] sets both flags to 10; 1001 sets both to
      1000; -1 sets none. */
  lemma InstancesExample(f: Feature)
    requires f.RangeLimited? && f.range == Range(0, 1000) && f.flags == ["--min-instances", "--max-instances"]
    ensures OutputFlagsByScalingType(f, 10) == ["--min-instances=10", "--max-instances=10"]
    ensures OutputFlagsByScalingType(f, 1001) == ["--min-instances=1000", "--max-instances=1000"]
    ensures OutputFlagsByScalingType(f, -1) == []
  {
    DecimalExamples();
    var r10 := OutputFlagsByScalingType(f, 10);
    assert r10 == OutputFlags(f.flags, "10");
    assert r10[0] == "--min-instances=10" && r10[1] == "--max-instances=10";
    var r1001 := OutputFlagsByScalingType(f, 1001);
    assert r1001 == OutputFlags(f.flags, "1000");
    assert r1001[0] == "--min-instances=1000" && r1001[1] == "--max-instances=1000";
  }

  /** `_get_output_flags_by_scaling_type` as the rendering of one scaling field. */
  function ScalingField(feature: Feature, field: string, inputValue: int): seq<string>
  {
    if feature.RangeLimited? then OutputFlagsByScalingType(feature, inputValue) else []
  }

  // ---------------------------------------------------------------------------
  // _get_output_flags

  /** Every key under group `s` has a second segment, and every allow-listed one can
      be translated (Python fails with `IndexError`, `KeyError` or `TypeError`
      otherwise). */
  predicate ScalingReady(flat: Config, rules: Dict<Feature>, s: ScalingType)
  {
    GroupReady(flat, rules, s.Name(), AllowedKeys(s))
  }

  /** The flags `_get_output_flags` returns for the flattened document `flat`. */
  function ScalingFlags(flat: Config, rules: Dict<Feature>, s: ScalingType): seq<string>
    requires DistinctKeys(flat) && ScalingReady(flat, rules, s)
  {
    GroupFlags(flat, rules, s.Name(), AllowedKeys(s), ScalingField)
  }

  /** `_get_output_flags`: flattens the document, keeps the allow-listed keys under
      the group, and accumulates the flags of each. */
  method GetOutputFlags(inputData: Config, rangeLimitedFeatures: Dict<Feature>, scalingType: ScalingType)
    returns (outputFlags: seq<string>)
    requires ScalingReady(Flatten(inputData, ""), rangeLimitedFeatures, scalingType)
    ensures outputFlags == ScalingFlags(Flatten(inputData, ""), rangeLimitedFeatures, scalingType)
  {
    var inputKeyValuePairs := FlattenKeys(inputData, "");
    var inputFeatureKeys := GetFeaturesByPrefix(inputKeyValuePairs, scalingType.Name());
    GroupKeysReady(inputKeyValuePairs, rangeLimitedFeatures, scalingType.Name(), AllowedKeys(scalingType));
    var allowedInputFeatureKeys := AllowedFeatureKeys(inputFeatureKeys, AllowedKeys(scalingType));
    outputFlags := AccumulateFieldFlags(allowedInputFeatureKeys, inputKeyValuePairs, rangeLimitedFeatures, ScalingField);
  }

  /** How one more key of the flattened document changes the scaling flags: a key
      under the group whose field is allow-listed appends that field's flags, and
      any other key adds nothing. */
  lemma ScalingFlagsSnoc(flat: Config, e: (string, Value), rules: Dict<Feature>, s: ScalingType)
    requires DistinctKeys(flat + [e]) && ScalingReady(flat + [e], rules, s)
    ensures DistinctKeys(flat) && ScalingReady(flat, rules, s)
    ensures StartsWith(e.0, s.Name()) ==> '.' in e.0
    ensures StartsWith(e.0, s.Name()) && Field(e.0) in AllowedKeys(s) ==>
      e.1.Int? && HasKey(rules, e.0) && Get(rules, e.0).RangeLimited?
    ensures StartsWith(e.0, s.Name()) && Field(e.0) in AllowedKeys(s) ==>
      ScalingFlags(flat + [e], rules, s)
      == ScalingFlags(flat, rules, s) + OutputFlagsByScalingType(Get(rules, e.0), e.1.i)
    ensures !(StartsWith(e.0, s.Name()) && Field(e.0) in AllowedKeys(s)) ==>
      ScalingFlags(flat + [e], rules, s) == ScalingFlags(flat, rules, s)
  {
    GroupFlagsSnoc(flat, e, rules, s.Name(), AllowedKeys(s), ScalingField);
  }

  // ---------------------------------------------------------------------------
  // translate_scaling_features

  /** The scaling flags of a document: none unless exactly one scaling group is
      present, and otherwise the flags of that group's fields. */
  function TranslateScalingFeatures(input: Config, t: InputType, rangeLimited: seq<Feature>): (r: seq<string>)
    requires var used := ScalingFeaturesUsed(input);
      |used| == 1 ==> ScalingReady(Flatten(input, ""), ByPath(rangeLimited, t), used[0])
    ensures |ScalingFeaturesUsed(input)| != 1 ==> r == []
    ensures forall s: ScalingType :: ScalingFeaturesUsed(input) == [s] ==>
      r == ScalingFlags(Flatten(input, ""), ByPath(rangeLimited, t), s)
  {
    var scalingTypesUsed := ScalingFeaturesUsed(input);
    var rangeLimitedFeatures := ByPath(rangeLimited, t);
    if |scalingTypesUsed| == 0 then []
    else if |scalingTypesUsed| > 1 then []
    else ScalingFlags(Flatten(input, ""), rangeLimitedFeatures, scalingTypesUsed[0])
  }

  /** A document with two scaling groups gets no scaling flags, whatever their fields. */
  lemma TwoGroupsNoFlags(input: Config, t: InputType, rangeLimited: seq<Feature>, s1: ScalingType, s2: ScalingType)
    requires s1 != s2 && HasKey(input, s1.Name()) && HasKey(input, s2.Name())
    ensures |ScalingFeaturesUsed(input)| >= 2
    ensures TranslateScalingFeatures(input, t, rangeLimited) == []
  {
    var used := ScalingFeaturesUsed(input);
    var i :| 0 <= i < |used| && used[i] == s1;
    var j :| 0 <= j < |used| && used[j] == s2;
    assert i != j;
  }
}
