/** The `list-incompatible-features` command
    (app2run/commands/list_incompatible_features.py): index the rule table by path,
    flatten the document, report every key that an unsupported rule names or whose
    value breaks a range-limited rule, and summarise the findings. */
module Incompatible {
  import opened Dicts
  import opened Text
  import opened Values
  import opened Util
  import opened Features

  // ---------------------------------------------------------------------------
  // _get_feature_list_by_input_type

  /** Every rule of `table` is stored under its own path for input type `t`. */
  predicate IndexedBy(table: Dict<Feature>, t: InputType)
  {
    forall e :: e in table ==> e.0 == e.1.path.For(t)
  }

  /** The dictionary `{rule.path[t]: rule}` built in list order: each rule is stored
      under its path, and a later rule with the same path replaces an earlier one. */
  function ByPath(features: seq<Feature>, t: InputType): (r: Dict<Feature>)
    ensures DistinctKeys(r) && IndexedBy(r, t)
    ensures forall e :: e in r ==> e.1 in features
    ensures forall i :: 0 <= i < |features| ==> HasKey(r, features[i].path.For(t))
    ensures forall i :: 0 <= i < |features| && LastWithPath(features, i, t) ==>
      Get(r, features[i].path.For(t)) == features[i]
  {
    if features == [] then []
    else
      var init := features[..|features| - 1];
      var last := features[|features| - 1];
      var prev := ByPath(init, t);
      ByPathStep(features, t, prev);
      Put(prev, last.path.For(t), last)
  }

  /** Storing the last rule into the table of the earlier ones. */
  lemma ByPathStep(features: seq<Feature>, t: InputType, prev: Dict<Feature>)
    requires features != []
    requires var init := features[..|features| - 1];
      && DistinctKeys(prev) && IndexedBy(prev, t)
      && (forall e :: e in prev ==> e.1 in init)
      && (forall i :: 0 <= i < |init| ==> HasKey(prev, init[i].path.For(t)))
      && (forall i :: 0 <= i < |init| && LastWithPath(init, i, t) ==> Get(prev, init[i].path.For(t)) == init[i])
    ensures var last := features[|features| - 1];
      var r := Put(prev, last.path.For(t), last);
      && DistinctKeys(r) && IndexedBy(r, t)
      && (forall e :: e in r ==> e.1 in features)
      && (forall i :: 0 <= i < |features| ==> HasKey(r, features[i].path.For(t)))
      && (forall i :: 0 <= i < |features| && LastWithPath(features, i, t) ==>
            Get(r, features[i].path.For(t)) == features[i])
  {
    var n := |features| - 1;
    var init := features[..n];
    assert features == init + [features[n]];
    ByPathStepEntries(init, features[n], t, prev);
    ByPathStepKeys(init, features[n], t, prev);
    ByPathStepValues(init, features[n], t, prev);
  }

  /** The table after storing `last` holds only rules from `init + [last]`, each under
      its own path. */
  lemma ByPathStepEntries(init: seq<Feature>, last: Feature, t: InputType, prev: Dict<Feature>)
    requires IndexedBy(prev, t) && forall e :: e in prev ==> e.1 in init
    ensures var r := Put(prev, last.path.For(t), last);
      IndexedBy(r, t) && forall e :: e in r ==> e.1 in init + [last]
  {
  }

  /** After storing `last`, every rule of `init + [last]` has its path in the table. */
  lemma ByPathStepKeys(init: seq<Feature>, last: Feature, t: InputType, prev: Dict<Feature>)
    requires forall i :: 0 <= i < |init| ==> HasKey(prev, init[i].path.For(t))
    ensures var features := init + [last];
      var r := Put(prev, last.path.For(t), last);
      forall i :: 0 <= i < |features| ==> HasKey(r, features[i].path.For(t))
  {
    var features := init + [last];
    forall i | 0 <= i < |features|
      ensures HasKey(Put(prev, last.path.For(t), last), features[i].path.For(t))
    {
      if i < |init| {
        assert features[i] == init[i];
      }
    }
  }

  /** After storing `last`, the last rule with each path is the one the table holds. */
  lemma ByPathStepValues(init: seq<Feature>, last: Feature, t: InputType, prev: Dict<Feature>)
    requires forall i :: 0 <= i < |init| ==> HasKey(prev, init[i].path.For(t))
    requires forall i :: 0 <= i < |init| && LastWithPath(init, i, t) ==> Get(prev, init[i].path.For(t)) == init[i]
    ensures var features := init + [last];
      var r := Put(prev, last.path.For(t), last);
      forall i :: 0 <= i < |features| && LastWithPath(features, i, t) ==>
        Get(r, features[i].path.For(t)) == features[i]
  {
    var features := init + [last];
    var n := |init|;
    var r := Put(prev, last.path.For(t), last);
    forall i | 0 <= i < |features| && LastWithPath(features, i, t)
      ensures Get(r, features[i].path.For(t)) == features[i]
    {
      if i < n {
        assert features[i] == init[i];
        assert features[n] == last;
        assert last.path.For(t) != init[i].path.For(t);
        assert LastWithPath(init, i, t) by {
          forall j | i < j < n ensures init[j].path.For(t) != init[i].path.For(t) {
            assert features[j] == init[j];
          }
        }
      }
    }
  }

  /** No rule after position `i` has the same path as rule `i`. */
  predicate LastWithPath(features: seq<Feature>, i: int, t: InputType)
    requires 0 <= i < |features|
  {
    forall j :: i < j < |features| ==> features[j].path.For(t) != features[i].path.For(t)
  }

  /** `_get_feature_list_by_input_type`: fills `feature_dict[i.path[t]] = i` in a loop. */
  method GetFeatureListByInputType(t: InputType, features: seq<Feature>) returns (featureDict: Dict<Feature>)
    ensures featureDict == ByPath(features, t)
  {
    featureDict := [];
    for i := 0 to |features|
      invariant featureDict == ByPath(features[..i], t)
    {
      assert features[..i + 1][..i] == features[..i];
      featureDict := Put(featureDict, features[i].path.For(t), features[i]);
    }
    assert features[..|features|] == features;
  }

  /** Of two rules with the same path, the later one is the one the table keeps. */
  lemma LaterRuleWins(features: seq<Feature>, t: InputType, i: int, j: int)
    requires 0 <= i < j < |features| && features[i].path.For(t) == features[j].path.For(t)
    requires LastWithPath(features, j, t)
    ensures Get(ByPath(features, t), features[i].path.For(t)) == features[j]
  {
  }

  // ---------------------------------------------------------------------------
  // _check_for_incompatibility

  /** Comparing the value of key `e.0` with a range-limited rule needs an integer
      value (Python raises `TypeError` otherwise) and a rule that has a range. */
  predicate Comparable(e: (string, Value), unsupported: Dict<Feature>, rangeLimited: Dict<Feature>)
  {
    !HasKey(unsupported, e.0) && HasKey(rangeLimited, e.0) ==>
      Get(rangeLimited, e.0).RangeLimited? && e.1.Int?
  }

  predicate AllComparable(flat: Config, unsupported: Dict<Feature>, rangeLimited: Dict<Feature>)
  {
    forall i :: 0 <= i < |flat| ==> Comparable(flat[i], unsupported, rangeLimited)
  }

  /** The finding, if any, for one key of the flattened document: the unsupported
      rule for the key if there is one, else the range-limited rule for the key when
      the value lies outside its range. */
  function Finding(e: (string, Value), unsupported: Dict<Feature>, rangeLimited: Dict<Feature>): seq<Feature>
    requires Comparable(e, unsupported, rangeLimited)
  {
    if HasKey(unsupported, e.0) then [Get(unsupported, e.0)]
    else if HasKey(rangeLimited, e.0) && !Get(rangeLimited, e.0).IsWithinRange(e.1.i) then
      [Get(rangeLimited, e.0)]
    else []
  }

  /** Rule `f` is a correct finding for `flat`: its path is a key of the document, and
      it is the unsupported rule for that key, or else the range-limited rule for that
      key with the key's value out of range. */
  predicate Justified(f: Feature, flat: Config, unsupported: Dict<Feature>, rangeLimited: Dict<Feature>,
                      t: InputType)
  {
    var p := f.path.For(t);
    && HasKey(flat, p)
    && if HasKey(unsupported, p) then f == Get(unsupported, p)
       else
         && HasKey(rangeLimited, p) && f == Get(rangeLimited, p) && f.RangeLimited?
         && Get(flat, p).Int? && !f.IsWithinRange(Get(flat, p).i)
  }

  /** Every key of `flat` under an unsupported rule, and every key under a
      range-limited rule whose value is out of range, has its rule in `r`. */
  predicate Complete(flat: Config, unsupported: Dict<Feature>, rangeLimited: Dict<Feature>, r: seq<Feature>)
    requires AllComparable(flat, unsupported, rangeLimited)
  {
    && (forall i :: 0 <= i < |flat| && HasKey(unsupported, flat[i].0) ==> Get(unsupported, flat[i].0) in r)
    && (forall i :: 0 <= i < |flat| && !HasKey(unsupported, flat[i].0) && HasKey(rangeLimited, flat[i].0) ==>
          (!Get(rangeLimited, flat[i].0).IsWithinRange(flat[i].1.i) ==> Get(rangeLimited, flat[i].0) in r))
  }

  /** Every rule in `r` is justified by a key of `flat`, and no two findings share a
      path (each key is reported at most once). */
  predicate Sound(flat: Config, unsupported: Dict<Feature>, rangeLimited: Dict<Feature>, t: InputType,
                  r: seq<Feature>)
  {
    && (forall f :: f in r ==> Justified(f, flat, unsupported, rangeLimited, t))
    && (forall m, n :: 0 <= m < n < |r| ==> r[m].path.For(t) != r[n].path.For(t))
  }

  /** The list `_check_for_incompatibility` returns, for the flattened document
      `flat` and the two rule tables indexed by path: at most one finding per key. */
  function Findings(flat: Config, unsupported: Dict<Feature>, rangeLimited: Dict<Feature>, t: InputType)
    : (r: seq<Feature>)
    requires AllComparable(flat, unsupported, rangeLimited)
    ensures |r| <= |flat|
  {
    if flat == [] then []
    else
      var init := flat[..|flat| - 1];
      assert forall i :: 0 <= i < |init| ==> init[i] == flat[i];
      Findings(init, unsupported, rangeLimited, t) + Finding(flat[|flat| - 1], unsupported, rangeLimited)
  }

  /** No finding is missed: every key that an unsupported rule names, and every key
      whose value breaks its range-limited rule, has its rule among the findings. */
  lemma {:induction false} FindingsComplete(flat: Config, unsupported: Dict<Feature>, rangeLimited: Dict<Feature>,
                                            t: InputType)
    requires AllComparable(flat, unsupported, rangeLimited)
    ensures Complete(flat, unsupported, rangeLimited, Findings(flat, unsupported, rangeLimited, t))
    decreases |flat|
  {
    if flat != [] {
      var init := flat[..|flat| - 1];
      var last := flat[|flat| - 1];
      assert init + [last] == flat;
      AllComparableSplit(init, [last], unsupported, rangeLimited);
      FindingsComplete(init, unsupported, rangeLimited, t);
      CompleteStep(init, last, unsupported, rangeLimited, Findings(init, unsupported, rangeLimited, t));
    }
  }

  lemma CompleteStep(init: Config, last: (string, Value), unsupported: Dict<Feature>,
                     rangeLimited: Dict<Feature>, prev: seq<Feature>)
    requires AllComparable(init, unsupported, rangeLimited) && Comparable(last, unsupported, rangeLimited)
    requires AllComparable(init + [last], unsupported, rangeLimited)
    requires Complete(init, unsupported, rangeLimited, prev)
    ensures Complete(init + [last], unsupported, rangeLimited, prev + Finding(last, unsupported, rangeLimited))
  {
    var flat := init + [last];
    var r := prev + Finding(last, unsupported, rangeLimited);
    forall i | 0 <= i < |flat| && HasKey(unsupported, flat[i].0) ensures Get(unsupported, flat[i].0) in r {
      if i < |init| {
        assert flat[i] == init[i];
      }
    }
    forall i | 0 <= i < |flat| && !HasKey(unsupported, flat[i].0) && HasKey(rangeLimited, flat[i].0)
               && !Get(rangeLimited, flat[i].0).IsWithinRange(flat[i].1.i)
      ensures Get(rangeLimited, flat[i].0) in r
    {
      if i < |init| {
        assert flat[i] == init[i];
      }
    }
  }

  /** No finding is spurious: with the rule tables indexed by path and a document
      with distinct keys, every finding is justified by its own key, and no key is
      reported twice. */
  lemma {:induction false} FindingsSound(flat: Config, unsupported: Dict<Feature>, rangeLimited: Dict<Feature>,
                                         t: InputType)
    requires AllComparable(flat, unsupported, rangeLimited)
    requires IndexedBy(unsupported, t) && IndexedBy(rangeLimited, t) && DistinctKeys(flat)
    ensures Sound(flat, unsupported, rangeLimited, t, Findings(flat, unsupported, rangeLimited, t))
    decreases |flat|
  {
    if flat != [] {
      var init := flat[..|flat| - 1];
      var last := flat[|flat| - 1];
      assert init + [last] == flat;
      assert forall i :: 0 <= i < |init| ==> init[i] == flat[i];
      DistinctKeysSplit(init, [last]);
      FindingsSound(init, unsupported, rangeLimited, t);
      SoundStep(init, last, unsupported, rangeLimited, t, Findings(init, unsupported, rangeLimited, t));
    }
  }

  /** Adding the last key keeps every earlier finding justified, and its own finding
      (if any) is justified and has a path no earlier finding has. */
  lemma SoundStep(init: Config, last: (string, Value), unsupported: Dict<Feature>,
                  rangeLimited: Dict<Feature>, t: InputType, prev: seq<Feature>)
    requires Comparable(last, unsupported, rangeLimited)
    requires IndexedBy(unsupported, t) && IndexedBy(rangeLimited, t) && DistinctKeys(init + [last])
    requires Sound(init, unsupported, rangeLimited, t, prev)
    ensures Sound(init + [last], unsupported, rangeLimited, t, prev + Finding(last, unsupported, rangeLimited))
  {
    var flat := init + [last];
    var found := Finding(last, unsupported, rangeLimited);
    var r := prev + found;
    forall f | f in prev ensures Justified(f, flat, unsupported, rangeLimited, t) {
      GetExtend(init, last, f.path.For(t));
    }
    forall f | f in found ensures Justified(f, flat, unsupported, rangeLimited, t) && f.path.For(t) == last.0 {
      assert (last.0, f) in unsupported || (last.0, f) in rangeLimited by {
        if HasKey(unsupported, last.0) {
          assert unsupported[IndexOf(unsupported, last.0)] in unsupported;
        } else {
          assert rangeLimited[IndexOf(rangeLimited, last.0)] in rangeLimited;
        }
      }
      GetLast(init, last);
    }
    forall m, n | 0 <= m < n < |r| ensures r[m].path.For(t) != r[n].path.For(t) {
      if n >= |prev| {
        assert r[m] in prev && r[n] in found;
        DistinctLast(init, last, r[m].path.For(t));
      }
    }
  }

  /** Looking up a key of `init` in `init + [last]` finds the same value. */
  lemma GetExtend(init: Config, last: (string, Value), p: string)
    ensures HasKey(init, p) ==> HasKey(init + [last], p) && Get(init + [last], p) == Get(init, p)
  {
    assert Keys(init + [last]) == Keys(init) + [last.0];
    if HasKey(init, p) {
      FirstIndex(init + [last], p, IndexOf(init, p));
    }
  }

  /** With distinct keys, the last key looks up the last value. */
  lemma GetLast(init: Config, last: (string, Value))
    requires DistinctKeys(init + [last])
    ensures HasKey(init + [last], last.0) && Get(init + [last], last.0) == last.1
  {
    GetAt(init + [last], |init|);
  }

  /** With distinct keys, the last key is not a key of the rest. */
  lemma DistinctLast(init: Config, last: (string, Value), p: string)
    requires DistinctKeys(init + [last]) && HasKey(init, p)
    ensures p != last.0
  {
    var i := IndexOf(init, p);
    assert (init + [last])[i] == init[i] && (init + [last])[|init|] == last;
  }

  /** `_check_for_incompatibility`: indexes both rule lists by path, flattens the
      document and walks its keys in order, collecting findings. */
  method CheckForIncompatibility(input: Config, t: InputType, config: FeatureConfig)
    returns (incompatibleList: seq<Feature>)
    requires AllComparable(Flatten(input, ""), ByPath(config.unsupported, t), ByPath(config.rangeLimited, t))
    ensures incompatibleList
      == Findings(Flatten(input, ""), ByPath(config.unsupported, t), ByPath(config.rangeLimited, t), t)
  {
    incompatibleList := [];
    var unsupportedFeatures := GetFeatureListByInputType(t, config.unsupported);
    var rangeLimitedFeatures := GetFeatureListByInputType(t, config.rangeLimited);
    var inputKeyValuePairs := FlattenKeys(input, "");
    for i := 0 to |inputKeyValuePairs|
      invariant incompatibleList == Findings(inputKeyValuePairs[..i], unsupportedFeatures, rangeLimitedFeatures, t)
    {
      var (key, val) := inputKeyValuePairs[i];
      FindingsSnoc(inputKeyValuePairs, unsupportedFeatures, rangeLimitedFeatures, t, i);
      if HasKey(unsupportedFeatures, key) {
        incompatibleList := incompatibleList + [Get(unsupportedFeatures, key)];
      } else if HasKey(rangeLimitedFeatures, key) {
        var feature := Get(rangeLimitedFeatures, key);
        if !feature.IsWithinRange(val.i) {
          incompatibleList := incompatibleList + [Get(rangeLimitedFeatures, key)];
        }
      }
    }
    assert inputKeyValuePairs[..|inputKeyValuePairs|] == inputKeyValuePairs;
  }

  /** One more key of the document adds that key's finding. */
  lemma FindingsSnoc(flat: Config, unsupported: Dict<Feature>, rangeLimited: Dict<Feature>, t: InputType, i: int)
    requires AllComparable(flat, unsupported, rangeLimited) && 0 <= i < |flat|
    ensures AllComparable(flat[..i], unsupported, rangeLimited)
    ensures AllComparable(flat[..i + 1], unsupported, rangeLimited)
    ensures Findings(flat[..i + 1], unsupported, rangeLimited, t)
         == Findings(flat[..i], unsupported, rangeLimited, t) + Finding(flat[i], unsupported, rangeLimited)
  {
    assert forall j :: 0 <= j <= i ==> flat[..i + 1][j] == flat[j];
    assert flat[..i + 1][..i] == flat[..i];
  }

  lemma AllComparableSplit(a: Config, b: Config, unsupported: Dict<Feature>, rangeLimited: Dict<Feature>)
    requires AllComparable(a + b, unsupported, rangeLimited)
    ensures AllComparable(a, unsupported, rangeLimited) && AllComparable(b, unsupported, rangeLimited)
  {
    forall i | 0 <= i < |a| ensures Comparable(a[i], unsupported, rangeLimited) {
      assert (a + b)[i] == a[i];
    }
    forall i | 0 <= i < |b| ensures Comparable(b[i], unsupported, rangeLimited) {
      assert (a + b)[|a| + i] == b[i];
    }
  }

  /** Findings of a document are the findings of its first part followed by those of
      the rest: one key's finding never depends on another key. */
  lemma {:induction false} FindingsAppend(a: Config, b: Config, unsupported: Dict<Feature>,
                                          rangeLimited: Dict<Feature>, t: InputType)
    requires AllComparable(a, unsupported, rangeLimited) && AllComparable(b, unsupported, rangeLimited)
    requires AllComparable(a + b, unsupported, rangeLimited)
    ensures Findings(a + b, unsupported, rangeLimited, t)
         == Findings(a, unsupported, rangeLimited, t) + Findings(b, unsupported, rangeLimited, t)
    decreases |b|
  {
    if b == [] {
      assert a + b == a;
    } else {
      var init := b[..|b| - 1];
      AllComparablePrefix(b, unsupported, rangeLimited);
      AllComparablePrefix(a + b, unsupported, rangeLimited);
      AppendLast(a, b);
      FindingsAppend(a, init, unsupported, rangeLimited, t);
      FindingsLast(a + b, unsupported, rangeLimited, t);
      FindingsLast(b, unsupported, rangeLimited, t);
      AppendAssoc(Findings(a, unsupported, rangeLimited, t), Findings(init, unsupported, rangeLimited, t),
                  Finding(b[|b| - 1], unsupported, rangeLimited));
    }
  }

  lemma AllComparablePrefix(flat: Config, unsupported: Dict<Feature>, rangeLimited: Dict<Feature>)
    requires flat != [] && AllComparable(flat, unsupported, rangeLimited)
    ensures AllComparable(flat[..|flat| - 1], unsupported, rangeLimited)
  {
  }

  /** The findings of a non-empty document end with its last key's finding. */
  lemma FindingsLast(flat: Config, unsupported: Dict<Feature>, rangeLimited: Dict<Feature>, t: InputType)
    requires flat != [] && AllComparable(flat, unsupported, rangeLimited)
    requires AllComparable(flat[..|flat| - 1], unsupported, rangeLimited)
    ensures Findings(flat, unsupported, rangeLimited, t)
         == Findings(flat[..|flat| - 1], unsupported, rangeLimited, t) + Finding(flat[|flat| - 1], unsupported, rangeLimited)
  {
  }

  /** A key is reported exactly by its own rule: with the tables indexed by path and
      the document flattened, a key under an unsupported rule yields that rule, and a
      key under only a range-limited rule yields it iff its value is out of range. */
  lemma FindingForKey(flat: Config, unsupported: Dict<Feature>, rangeLimited: Dict<Feature>,
                      t: InputType, i: int)
    requires AllComparable(flat, unsupported, rangeLimited) && 0 <= i < |flat|
    requires IndexedBy(unsupported, t) && IndexedBy(rangeLimited, t) && DistinctKeys(flat)
    ensures var r := Findings(flat, unsupported, rangeLimited, t);
      var k := flat[i].0;
      && (HasKey(unsupported, k) ==> Get(unsupported, k) in r)
      && (!HasKey(unsupported, k) && HasKey(rangeLimited, k) ==>
            (Get(rangeLimited, k) in r <==> !Get(rangeLimited, k).IsWithinRange(flat[i].1.i)))
  {
    var r := Findings(flat, unsupported, rangeLimited, t);
    var k := flat[i].0;
    FindingsComplete(flat, unsupported, rangeLimited, t);
    FindingsSound(flat, unsupported, rangeLimited, t);
    GetAt(flat, i);
    if !HasKey(unsupported, k) && HasKey(rangeLimited, k) {
      var f := Get(rangeLimited, k);
      assert rangeLimited[IndexOf(rangeLimited, k)] in rangeLimited;
      assert f.path.For(t) == k;
      if f in r {
        assert Justified(f, flat, unsupported, rangeLimited, t);
      }
    }
  }

  /** What the check promises for a whole document and rule file: no finding is
      missed, every finding is the rule for one key of the flattened document, and no
      key is reported twice. */
  lemma CheckIsExact(input: Config, unsupported: seq<Feature>, rangeLimited: seq<Feature>, t: InputType)
    requires AllComparable(Flatten(input, ""), ByPath(unsupported, t), ByPath(rangeLimited, t))
    ensures var flat, u, rl := Flatten(input, ""), ByPath(unsupported, t), ByPath(rangeLimited, t);
      var r := Findings(flat, u, rl, t);
      Complete(flat, u, rl, r) && Sound(flat, u, rl, t, r)
  {
    var flat, u, rl := Flatten(input, ""), ByPath(unsupported, t), ByPath(rangeLimited, t);
    FindingsComplete(flat, u, rl, t);
    FindingsSound(flat, u, rl, t);
  }

  /** Keys that no rule names produce no finding (e.g. `env: flex`). */
  lemma {:induction false} NoRuleNoFinding(flat: Config, unsupported: Dict<Feature>, rangeLimited: Dict<Feature>,
                                           t: InputType)
    requires forall i :: 0 <= i < |flat| ==> !HasKey(unsupported, flat[i].0) && !HasKey(rangeLimited, flat[i].0)
    ensures Findings(flat, unsupported, rangeLimited, t) == []
    decreases |flat|
  {
    if flat != [] {
      var init := flat[..|flat| - 1];
      assert forall i :: 0 <= i < |init| ==> init[i] == flat[i];
      NoRuleNoFinding(init, unsupported, rangeLimited, t);
    }
  }

  // ---------------------------------------------------------------------------
  // _get_display_features and _generate_output

  /** `{"path": ..., "severity": ..., "reason": ...}` */
  datatype DisplayFeature = DisplayFeature(path: string, severity: string, reason: string)

  /** The findings as displayed: one entry per finding, in order, with the path for
      the input type. */
  function DisplayFeatures(features: seq<Feature>, t: InputType): (r: seq<DisplayFeature>)
    ensures |r| == |features|
    ensures forall i :: 0 <= i < |features| ==>
      r[i] == DisplayFeature(features[i].path.For(t), features[i].severity, features[i].reason)
  {
    if features == [] then []
    else
      var last := features[|features| - 1];
      DisplayFeatures(features[..|features| - 1], t) + [DisplayFeature(last.path.For(t), last.severity, last.reason)]
  }

  /** `_get_display_features`: appends one display entry per finding. */
  method GetDisplayFeatures(features: seq<Feature>, t: InputType) returns (display: seq<DisplayFeature>)
    ensures display == DisplayFeatures(features, t)
  {
    display := [];
    for i := 0 to |features|
      invariant display == DisplayFeatures(features[..i], t)
    {
      assert features[..i + 1][..i] == features[..i];
      display := display + [DisplayFeature(features[i].path.For(t), features[i].severity, features[i].reason)];
    }
    assert features[..|features|] == features;
  }

  /** What the command echoes: the text lines, and the findings handed to `yaml.dump`. */
  datatype Report = Report(lines: seq<string>, dumped: seq<DisplayFeature>)

  /** `_generate_output` */
  function GenerateOutput(features: seq<Feature>, t: InputType): (r: Report)
    ensures features == [] <==> r.lines == ["No incompatibilities found."]
    ensures features == [] ==> r.dumped == []
    ensures features != [] ==>
      && r.lines == ["summary:", "  major: " + NatToString(|features|), "incompatible_features:"]
      && r.dumped == DisplayFeatures(features, t)
    ensures |r.dumped| == |features|
  {
    if |features| == 0 then Report(["No incompatibilities found."], [])
    else Report(["summary:", "  major: " + NatToString(|features|), "incompatible_features:"],
                DisplayFeatures(features, t))
  }

  /** A non-empty report counts exactly the records it dumps, and the record at
      position `i` names the `i`-th finding's path, severity and reason. */
  lemma ReportCountsRecords(features: seq<Feature>, t: InputType)
    requires features != []
    ensures var r := GenerateOutput(features, t);
      && r.lines[1] == "  major: " + NatToString(|r.dumped|)
      && forall i :: 0 <= i < |features| ==>
           r.dumped[i] == DisplayFeature(features[i].path.For(t), features[i].severity, features[i].reason)
  {
  }

  /** The `list-incompatible-features` command on a document that parsed to `input`
      (`None` for an empty file), with the rule file already loaded into `config`. */
  function ListIncompatibleFeatures(name: string, input: Option<Config>, unsupported: seq<Feature>,
                                    rangeLimited: seq<Feature>): (r: Report)
    requires input.Some? ==>
      AllComparable(Flatten(input.value, ""), ByPath(unsupported, AppYaml), ByPath(rangeLimited, AppYaml))
    ensures input.None? ==> r == Report([name + " is empty."], [])
  {
    match input
    case None => Report([name + " is empty."], [])
    case Some(d) =>
      GenerateOutput(Findings(Flatten(d, ""), ByPath(unsupported, AppYaml), ByPath(rangeLimited, AppYaml), AppYaml),
                     AppYaml)
  }

  /** A path no rule has is not a key of the table. */
  lemma {:induction false} NoRuleNoKey(features: seq<Feature>, t: InputType, k: string)
    requires forall i :: 0 <= i < |features| ==> features[i].path.For(t) != k
    ensures !HasKey(ByPath(features, t), k)
  {
    var table := ByPath(features, t);
    forall j | 0 <= j < |table| ensures Keys(table)[j] != k {
      assert table[j] in table;
    }
  }

  /** `env: flex` alone, with no rule for `env`, flattens to itself and gives
      "No incompatibilities found.". */
  lemma FlexOnlyIsCompatible(unsupported: seq<Feature>, rangeLimited: seq<Feature>)
    requires forall i :: 0 <= i < |unsupported| ==> unsupported[i].path.appYaml != "env"
    requires forall i :: 0 <= i < |rangeLimited| ==> rangeLimited[i].path.appYaml != "env"
    ensures var doc := [("env", Str("flex"))];
      && Flatten(doc, "") == doc
      && !HasKey(ByPath(unsupported, AppYaml), "env") && !HasKey(ByPath(rangeLimited, AppYaml), "env")
      && ListIncompatibleFeatures("app.yaml", Some(doc), unsupported, rangeLimited).lines
         == ["No incompatibilities found."]
  {
    var doc := [("env", Str("flex"))];
    var u, rl := ByPath(unsupported, AppYaml), ByPath(rangeLimited, AppYaml);
    FlattenFlatTop(doc);
    NoRuleNoKey(unsupported, AppYaml, "env");
    NoRuleNoKey(rangeLimited, AppYaml, "env");
    NoRuleNoFinding(doc, u, rl, AppYaml);
  }
}
