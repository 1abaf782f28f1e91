/** Translating the allow-listed fields of one top-level group.

    Two translators share one shape: `_get_output_flags` of
    app2run/commands/translation_rules/scaling.py and `_translate_flex_cpu_memory` of
    app2run/commands/translation_rules/cpu_memory.py both flatten the document, keep
    the keys under a group prefix, keep those whose second segment is allow-listed,
    and add up the flags of the range-limited rule of each kept key, rendered from
    its integer value. They differ only in the prefix, the allow-list and how one
    field is rendered, which are parameters here. */
module FieldGroups {
  import opened Dicts
  import opened Text
  import opened Values
  import opened Util
  import opened Features
  import opened Incompatible

  /** How one field becomes flags: from its rule, its second segment and its value. */
  type Render = (Feature, string, int) -> seq<string>

  /** Key `k` can be translated: it has a second segment, the document has an
      integer under it and the rule table a range-limited rule (Python fails with
      `IndexError`, `KeyError` or `TypeError` otherwise). */
  predicate FieldReady(flat: Config, rules: Dict<Feature>, k: string)
  {
    '.' in k && HasKey(flat, k) && Get(flat, k).Int? && HasKey(rules, k) && Get(rules, k).RangeLimited?
  }

  /** Every key has a second segment. */
  predicate DottedKeys(features: Config)
  {
    forall i :: 0 <= i < |features| ==> '.' in features[i].0
  }

  /** Every key of `keys` can be translated. */
  predicate KeysReady(keys: seq<string>, flat: Config, rules: Dict<Feature>)
  {
    forall j :: 0 <= j < |keys| ==> FieldReady(flat, rules, keys[j])
  }

  /** The list comprehension keeping the keys of `features` whose second segment
      is in `allowed`, in order. */
  function AllowedFeatureKeys(features: Config, allowed: seq<string>): (ks: seq<string>)
    requires DottedKeys(features)
    ensures |ks| <= |features|
    ensures forall j :: 0 <= j < |ks| ==> HasKey(features, ks[j]) && '.' in ks[j] && Field(ks[j]) in allowed
    ensures forall i :: 0 <= i < |features| && Field(features[i].0) in allowed ==> features[i].0 in ks
  {
    if features == [] then []
    else
      var init := features[..|features| - 1];
      var last := features[|features| - 1];
      assert forall i :: 0 <= i < |init| ==> init[i] == features[i];
      var prev := AllowedFeatureKeys(init, allowed);
      AllowedStep(features, allowed, prev);
      prev + (if Field(last.0) in allowed then [last.0] else [])
  }

  lemma AllowedStep(features: Config, allowed: seq<string>, prev: seq<string>)
    requires features != [] && DottedKeys(features)
    requires var init := features[..|features| - 1];
      && (forall j :: 0 <= j < |prev| ==> HasKey(init, prev[j]) && '.' in prev[j] && Field(prev[j]) in allowed)
      && (forall i :: 0 <= i < |init| && Field(init[i].0) in allowed ==> init[i].0 in prev)
    ensures var last := features[|features| - 1];
      var ks := prev + (if Field(last.0) in allowed then [last.0] else []);
      && (forall j :: 0 <= j < |ks| ==> HasKey(features, ks[j]) && '.' in ks[j] && Field(ks[j]) in allowed)
      && (forall i :: 0 <= i < |features| && Field(features[i].0) in allowed ==> features[i].0 in ks)
  {
    var n := |features| - 1;
    var init := features[..n];
    var last := features[n];
    assert Keys(features) == Keys(init) + [last.0];
    forall i | 0 <= i < |features| && Field(features[i].0) in allowed
      ensures features[i].0 in prev + (if Field(last.0) in allowed then [last.0] else [])
    {
      if i < n {
        assert init[i] == features[i];
      }
    }
  }

  /** The flags the loop accumulates over `keys`. */
  function FieldFlags(keys: seq<string>, flat: Config, rules: Dict<Feature>, render: Render): seq<string>
    requires KeysReady(keys, flat, rules)
  {
    if keys == [] then []
    else
      var init := keys[..|keys| - 1];
      var k := keys[|keys| - 1];
      assert forall j :: 0 <= j < |init| ==> init[j] == keys[j];
      assert FieldReady(flat, rules, k);
      FieldFlags(init, flat, rules, render) + render(Get(rules, k), Field(k), Get(flat, k).i)
  }

  /** Every key under `prefix` has a second segment, and every allow-listed one can
      be translated. */
  predicate GroupReady(flat: Config, rules: Dict<Feature>, prefix: string, allowed: seq<string>)
  {
    forall i :: 0 <= i < |flat| && StartsWith(flat[i].0, prefix) ==>
      && '.' in flat[i].0
      && (Field(flat[i].0) in allowed ==>
            flat[i].1.Int? && HasKey(rules, flat[i].0) && Get(rules, flat[i].0).RangeLimited?)
  }

  lemma GroupKeysReady(flat: Config, rules: Dict<Feature>, prefix: string, allowed: seq<string>)
    requires DistinctKeys(flat) && GroupReady(flat, rules, prefix, allowed)
    ensures DottedKeys(FeaturesByPrefix(flat, prefix))
    ensures KeysReady(AllowedFeatureKeys(FeaturesByPrefix(flat, prefix), allowed), flat, rules)
  {
    var features := FeaturesByPrefix(flat, prefix);
    forall i | 0 <= i < |features| ensures '.' in features[i].0 {
      assert features[i] in features;
    }
    var ks := AllowedFeatureKeys(features, allowed);
    forall j | 0 <= j < |ks| ensures FieldReady(flat, rules, ks[j]) {
      var e := features[IndexOf(features, ks[j])];
      assert e in features;
      var m :| 0 <= m < |flat| && flat[m] == e;
      GetAt(flat, m);
    }
  }

  /** The flags of the group `prefix` of the flattened document `flat`. */
  function GroupFlags(flat: Config, rules: Dict<Feature>, prefix: string, allowed: seq<string>, render: Render)
    : seq<string>
    requires DistinctKeys(flat) && GroupReady(flat, rules, prefix, allowed)
  {
    GroupKeysReady(flat, rules, prefix, allowed);
    FieldFlags(AllowedFeatureKeys(FeaturesByPrefix(flat, prefix), allowed), flat, rules, render)
  }

  /** The loop over the allow-listed keys: looks up each key's value and rule and
      appends the rendered flags. */
  method AccumulateFieldFlags(keys: seq<string>, flat: Config, rules: Dict<Feature>, render: Render)
    returns (outputFlags: seq<string>)
    requires KeysReady(keys, flat, rules)
    ensures outputFlags == FieldFlags(keys, flat, rules, render)
  {
    outputFlags := [];
    for i := 0 to |keys|
      invariant KeysReady(keys[..i], flat, rules)
      invariant outputFlags == FieldFlags(keys[..i], flat, rules, render)
    {
      var key := keys[i];
      KeysReadyStep(keys, i, flat, rules);
      FieldFlagsSnoc(keys[..i], key, flat, rules, render);
      var inputValue := Get(flat, key);
      var rangeLimitedFeature := Get(rules, key);
      outputFlags := outputFlags + render(rangeLimitedFeature, Field(key), inputValue.i);
    }
    assert keys[..|keys|] == keys;
  }

  // ---------------------------------------------------------------------------
  // What each key of the document contributes

  lemma GroupReadyPrefix(flat: Config, e: (string, Value), rules: Dict<Feature>, prefix: string, allowed: seq<string>)
    requires GroupReady(flat + [e], rules, prefix, allowed)
    ensures GroupReady(flat, rules, prefix, allowed)
  {
    forall i | 0 <= i < |flat| ensures (flat + [e])[i] == flat[i] { }
  }

  /** Appending key/value pairs the keys already looked up do not include leaves the
      accumulated flags unchanged. */
  lemma {:induction false} FieldFlagsExtend(keys: seq<string>, flat: Config, e: (string, Value),
                                           rules: Dict<Feature>, render: Render)
    requires KeysReady(keys, flat, rules)
    ensures KeysReady(keys, flat + [e], rules)
    ensures FieldFlags(keys, flat + [e], rules, render) == FieldFlags(keys, flat, rules, render)
    decreases |keys|
  {
    forall j | 0 <= j < |keys| ensures FieldReady(flat + [e], rules, keys[j]) {
      GetExtend(flat, e, keys[j]);
    }
    if keys != [] {
      var init := keys[..|keys| - 1];
      assert forall j :: 0 <= j < |init| ==> init[j] == keys[j];
      FieldFlagsExtend(init, flat, e, rules, render);
      GetExtend(flat, e, keys[|keys| - 1]);
    }
  }

  lemma AllowedFeatureKeysSnoc(features: Config, e: (string, Value), allowed: seq<string>)
    requires DottedKeys(features) && '.' in e.0
    ensures DottedKeys(features + [e])
    ensures AllowedFeatureKeys(features + [e], allowed)
         == AllowedFeatureKeys(features, allowed) + (if Field(e.0) in allowed then [e.0] else [])
  {
    assert (features + [e])[..|features|] == features;
  }

  lemma KeysReadyStep(keys: seq<string>, i: int, flat: Config, rules: Dict<Feature>)
    requires KeysReady(keys, flat, rules) && 0 <= i < |keys|
    ensures FieldReady(flat, rules, keys[i]) && KeysReady(keys[..i], flat, rules)
    ensures keys[..i + 1] == keys[..i] + [keys[i]]
  {
  }

  lemma FieldFlagsSnoc(keys: seq<string>, k: string, flat: Config, rules: Dict<Feature>, render: Render)
    requires KeysReady(keys, flat, rules) && FieldReady(flat, rules, k)
    ensures KeysReady(keys + [k], flat, rules)
    ensures FieldFlags(keys + [k], flat, rules, render)
         == FieldFlags(keys, flat, rules, render) + render(Get(rules, k), Field(k), Get(flat, k).i)
  {
    assert (keys + [k])[..|keys|] == keys;
  }

  /** How one more key of the flattened document changes the group's flags: a key
      under the prefix whose field is allow-listed appends that field's rendering,
      and any other key adds nothing. */
  lemma GroupFlagsSnoc(flat: Config, e: (string, Value), rules: Dict<Feature>, prefix: string,
                       allowed: seq<string>, render: Render)
    requires DistinctKeys(flat + [e]) && GroupReady(flat + [e], rules, prefix, allowed)
    ensures DistinctKeys(flat) && GroupReady(flat, rules, prefix, allowed)
    ensures StartsWith(e.0, prefix) ==> '.' in e.0
    ensures StartsWith(e.0, prefix) && Field(e.0) in allowed ==>
      e.1.Int? && HasKey(rules, e.0) && Get(rules, e.0).RangeLimited?
    ensures StartsWith(e.0, prefix) && Field(e.0) in allowed ==>
      GroupFlags(flat + [e], rules, prefix, allowed, render)
      == GroupFlags(flat, rules, prefix, allowed, render) + render(Get(rules, e.0), Field(e.0), e.1.i)
    ensures !(StartsWith(e.0, prefix) && Field(e.0) in allowed) ==>
      GroupFlags(flat + [e], rules, prefix, allowed, render) == GroupFlags(flat, rules, prefix, allowed, render)
  {
    DistinctKeysSplit(flat, [e]);
    GroupReadyPrefix(flat, e, rules, prefix, allowed);
    assert (flat + [e])[|flat|] == e;
    if StartsWith(e.0, prefix) && Field(e.0) in allowed {
      AllowedFieldAppends(flat, e, rules, prefix, allowed, render);
    } else {
      OtherKeyIgnored(flat, e, rules, prefix, allowed, render);
    }
  }

  lemma AllowedFieldAppends(flat: Config, e: (string, Value), rules: Dict<Feature>, prefix: string,
                            allowed: seq<string>, render: Render)
    requires DistinctKeys(flat + [e]) && GroupReady(flat + [e], rules, prefix, allowed)
    requires DistinctKeys(flat) && GroupReady(flat, rules, prefix, allowed)
    requires StartsWith(e.0, prefix) && '.' in e.0 && Field(e.0) in allowed
    requires e.1.Int? && HasKey(rules, e.0) && Get(rules, e.0).RangeLimited?
    ensures GroupFlags(flat + [e], rules, prefix, allowed, render)
         == GroupFlags(flat, rules, prefix, allowed, render) + render(Get(rules, e.0), Field(e.0), e.1.i)
  {
    var full := flat + [e];
    var features := FeaturesByPrefix(flat, prefix);
    GroupKeysReady(flat, rules, prefix, allowed);
    var ks := AllowedFeatureKeys(features, allowed);
    FieldFlagsExtend(ks, flat, e, rules, render);
    FeaturesByPrefixSnoc(flat, e, prefix);
    AllowedFeatureKeysSnoc(features, e, allowed);
    GetLast(flat, e);
    FieldFlagsSnoc(ks, e.0, full, rules, render);
  }

  lemma OtherKeyIgnored(flat: Config, e: (string, Value), rules: Dict<Feature>, prefix: string,
                        allowed: seq<string>, render: Render)
    requires DistinctKeys(flat + [e]) && GroupReady(flat + [e], rules, prefix, allowed)
    requires DistinctKeys(flat) && GroupReady(flat, rules, prefix, allowed)
    requires StartsWith(e.0, prefix) ==> '.' in e.0 && Field(e.0) !in allowed
    ensures GroupFlags(flat + [e], rules, prefix, allowed, render) == GroupFlags(flat, rules, prefix, allowed, render)
  {
    var features := FeaturesByPrefix(flat, prefix);
    GroupKeysReady(flat, rules, prefix, allowed);
    var ks := AllowedFeatureKeys(features, allowed);
    FieldFlagsExtend(ks, flat, e, rules, render);
    FeaturesByPrefixSnoc(flat, e, prefix);
    var fullFeatures := FeaturesByPrefix(flat + [e], prefix);
    if StartsWith(e.0, prefix) {
      assert fullFeatures == features + [e];
      AllowedFeatureKeysSnoc(features, e, allowed);
      assert AllowedFeatureKeys(fullFeatures, allowed) == ks;
    } else {
      assert fullFeatures == features;
    }
    assert GroupFlags(flat + [e], rules, prefix, allowed, render) == FieldFlags(ks, flat + [e], rules, render);
  }
}
