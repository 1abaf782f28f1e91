/** The concurrency translation rule
    (app2run/commands/translation_rules/concurrent_requests.py): the Cloud Run
    `--concurrency` flag comes from `automatic_scaling.target_concurrent_requests` or
    `automatic_scaling.max_concurrent_requests`, clamped like a scaling field, and
    defaults to the rule's maximum (flex) or to 10 (standard) when neither is set.

    The rule looks its keys up directly in the dictionary it is given, so the keys
    are found only when that dictionary holds dotted paths. */
module Concurrency {
  import opened Dicts
  import opened Text
  import opened Values
  import opened Util
  import opened Features
  import Scaling

  const MaxConcurrentRequestsKey := "automatic_scaling.max_concurrent_requests"
  const TargetConcurrentRequestsKey := "automatic_scaling.target_concurrent_requests"

  /** `_ALLOW_MAX_CONCURRENT_REQ_KEYS`, in the order they are looked for. */
  const AllowMaxConcurrentReqKeys := [MaxConcurrentRequestsKey, TargetConcurrentRequestsKey]

  const DefaultStandardConcurrency := 10

  /** `rules[k]` exists and is range-limited. */
  predicate RangeRule(rules: Dict<Feature>, k: string)
  {
    HasKey(rules, k) && Get(rules, k).RangeLimited?
  }

  /** What the rule needs to run without a `KeyError` or `TypeError`: the default rule
      when no key is set, otherwise that key's rule and an integer value. */
  predicate ConcurrencyReady(input: Config, rules: Dict<Feature>)
  {
    match FeatureKeyFromInput(input, AllowMaxConcurrentReqKeys)
    case None => RangeRule(rules, MaxConcurrentRequestsKey)
    case Some(k) => RangeRule(rules, k) && Get(input, k).Int?
  }

  /** `translate_concurrent_requests_features` */
  function TranslateConcurrentRequests(input: Config, rules: Dict<Feature>): (r: seq<string>)
    requires ConcurrencyReady(input, rules)
    ensures !HasKey(input, MaxConcurrentRequestsKey) && !HasKey(input, TargetConcurrentRequestsKey) ==>
      var f := Get(rules, MaxConcurrentRequestsKey);
      r == OutputFlags(f.flags, IntToString(if IsFlexEnv(input) then f.range.max else 10))
    ensures forall k :: FeatureKeyFromInput(input, AllowMaxConcurrentReqKeys) == Some(k) ==>
      r == Scaling.OutputFlagsByScalingType(Get(rules, k), Get(input, k).i)
  {
    var featureKey := FeatureKeyFromInput(input, AllowMaxConcurrentReqKeys);
    match featureKey
    case None =>
      var feature := Get(rules, MaxConcurrentRequestsKey);
      var defaultValue := if IsFlexEnv(input) then feature.range.max else DefaultStandardConcurrency;
      OutputFlags(feature.flags, IntToString(defaultValue))
    case Some(k) =>
      var feature := Get(rules, k);
      var inputValue := Get(input, k).i;
      if inputValue < feature.range.min then []
      else
        var targetValue := if feature.IsWithinRange(inputValue) then inputValue else feature.range.max;
        OutputFlags(feature.flags, IntToString(targetValue))
  }

  /** With a concurrency key set, a value below the rule's minimum gives no flags;
      otherwise the flags carry one value between the rule's bounds, one flag per
      rule flag. */
  lemma SetValueBounded(input: Config, rules: Dict<Feature>, k: string)
    requires ConcurrencyReady(input, rules)
    requires FeatureKeyFromInput(input, AllowMaxConcurrentReqKeys) == Some(k)
    ensures var f := Get(rules, k);
      var r := TranslateConcurrentRequests(input, rules);
      && |r| <= |f.flags|
      && (Get(input, k).i < f.range.min ==> r == [])
      && (r != [] ==> exists v :: v <= f.range.max && (f.range.min <= f.range.max ==> f.range.min <= v) &&
                                  r == OutputFlags(f.flags, IntToString(v)))
  {
    var f := Get(rules, k);
    var v := Get(input, k).i;
    if f.range.min <= v {
      var c := f.Clamp(v);
      assert c <= f.range.max && (f.range.min <= f.range.max ==> f.range.min <= c);
      assert TranslateConcurrentRequests(input, rules) == OutputFlags(f.flags, IntToString(c));
    }
  }

  /** With no concurrency key and a `--concurrency` rule over [1, 1000], a flex
      document gets `--concurrency=1000` and a standard one `--concurrency=10`. */
  lemma DefaultExamples(rules: Dict<Feature>)
    requires RangeRule(rules, MaxConcurrentRequestsKey)
    requires Get(rules, MaxConcurrentRequestsKey).range == Range(1, 1000)
    requires Get(rules, MaxConcurrentRequestsKey).flags == ["--concurrency"]
    ensures TranslateConcurrentRequests([("env", Str("flex"))], rules) == ["--concurrency=1000"]
    ensures TranslateConcurrentRequests([("runtime", Str("python"))], rules) == ["--concurrency=10"]
  {
    DecimalExamples();
    var flex: Config := [("env", Str("flex"))];
    var standard: Config := [("runtime", Str("python"))];
    assert Keys(flex) == ["env"] && Keys(standard) == ["runtime"];
    assert IsFlexEnv(flex) && !IsFlexEnv(standard);
    assert FeatureKeyFromInput(flex, AllowMaxConcurrentReqKeys) == None;
    assert FeatureKeyFromInput(standard, AllowMaxConcurrentReqKeys) == None;
    assert "--concurrency" + "=" + "1000" == "--concurrency=1000";
    assert "--concurrency" + "=" + "10" == "--concurrency=10";
    assert OutputFlags(["--concurrency"], "1000") == ["--concurrency=1000"];
    assert OutputFlags(["--concurrency"], "10") == ["--concurrency=10"];
  }

  /** When `max_concurrent_requests` and `target_concurrent_requests` are both set,
      `max_concurrent_requests`, listed first, decides and the other is ignored. */
  lemma MaxKeyWins(input: Config, rules: Dict<Feature>)
    requires HasKey(input, MaxConcurrentRequestsKey) && HasKey(input, TargetConcurrentRequestsKey)
    requires ConcurrencyReady(input, rules)
    ensures FeatureKeyFromInput(input, AllowMaxConcurrentReqKeys) == Some(MaxConcurrentRequestsKey)
    ensures TranslateConcurrentRequests(input, rules)
         == Scaling.OutputFlagsByScalingType(Get(rules, MaxConcurrentRequestsKey), Get(input, MaxConcurrentRequestsKey).i)
  {
  }

  /** The flex document `automatic_scaling: {target_concurrent_requests: v}` flattens
      to `env` and the dotted concurrency key. */
  lemma FlattenTargetDoc(v: int)
    ensures Flatten([("env", Str("flex")), ("automatic_scaling", Map([("target_concurrent_requests", Int(v))]))], "")
         == [("env", Str("flex")), (TargetConcurrentRequestsKey, Int(v))]
  {
    assert "automatic_scaling" + "." + "target_concurrent_requests" == TargetConcurrentRequestsKey;
    assert |"env"| != |TargetConcurrentRequestsKey|;
    FlattenLeafThenGroup("env", Str("flex"), "automatic_scaling", "target_concurrent_requests", Int(v));
  }

  /** The two concurrency keys and `env` are three different keys. */
  lemma KeysApart()
    ensures MaxConcurrentRequestsKey != TargetConcurrentRequestsKey
    ensures "env" != MaxConcurrentRequestsKey && "env" != TargetConcurrentRequestsKey
  {
    assert MaxConcurrentRequestsKey[18] != TargetConcurrentRequestsKey[18];
    assert |"env"| < |MaxConcurrentRequestsKey| && |"env"| < |TargetConcurrentRequestsKey|;
  }

  /** With only `target_concurrent_requests` set, that key's rule decides. */
  lemma OnlyTargetSet(input: Config, rules: Dict<Feature>)
    requires !HasKey(input, MaxConcurrentRequestsKey) && HasKey(input, TargetConcurrentRequestsKey)
    requires Get(input, TargetConcurrentRequestsKey).Int? && RangeRule(rules, TargetConcurrentRequestsKey)
    ensures ConcurrencyReady(input, rules)
    ensures TranslateConcurrentRequests(input, rules)
         == Scaling.OutputFlagsByScalingType(Get(rules, TargetConcurrentRequestsKey), Get(input, TargetConcurrentRequestsKey).i)
  {
    assert FeatureKeyFromInput(input, AllowMaxConcurrentReqKeys) == Some(TargetConcurrentRequestsKey);
  }

  /** Given the nested document itself, as the rule's own lookups see it, the same
      `target_concurrent_requests: v` is never found: the rule falls back to the
      default, the maximum of the `max_concurrent_requests` rule, whatever `v` is. */
  lemma NestedTargetIgnored(v: int, rules: Dict<Feature>)
    requires RangeRule(rules, MaxConcurrentRequestsKey)
    ensures var doc := [("env", Str("flex")), ("automatic_scaling", Map([("target_concurrent_requests", Int(v))]))];
      var f := Get(rules, MaxConcurrentRequestsKey);
      && ConcurrencyReady(doc, rules)
      && TranslateConcurrentRequests(doc, rules) == OutputFlags(f.flags, IntToString(f.range.max))
  {
    var doc: Config := [("env", Str("flex")), ("automatic_scaling", Map([("target_concurrent_requests", Int(v))]))];
    assert Keys(doc) == ["env", "automatic_scaling"];
    KeysApart();
    assert |"automatic_scaling"| < |MaxConcurrentRequestsKey| && |"automatic_scaling"| < |TargetConcurrentRequestsKey|;
    assert FeatureKeyFromInput(doc, AllowMaxConcurrentReqKeys) == None;
    assert IsFlexEnv(doc);
  }

  /** Read through the flattened view, a flex document's nested
      `target_concurrent_requests: v` is the key the rule translates. */
  lemma NestedTarget(v: int, rules: Dict<Feature>)
    requires RangeRule(rules, TargetConcurrentRequestsKey)
    ensures var flat := Flatten([("env", Str("flex")), ("automatic_scaling", Map([("target_concurrent_requests", Int(v))]))], "");
      && ConcurrencyReady(flat, rules)
      && TranslateConcurrentRequests(flat, rules) == Scaling.OutputFlagsByScalingType(Get(rules, TargetConcurrentRequestsKey), v)
  {
    var flat: Config := [("env", Str("flex")), (TargetConcurrentRequestsKey, Int(v))];
    FlattenTargetDoc(v);
    KeysApart();
    assert Keys(flat) == ["env", TargetConcurrentRequestsKey];
    assert IndexOf(flat, TargetConcurrentRequestsKey) == 1;
    OnlyTargetSet(flat, rules);
  }
}
