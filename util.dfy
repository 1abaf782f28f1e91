/** Shared helpers of the rule engine (app2run/common/util.py): flex detection,
    flag rendering, prefix filtering and the path flattener. */
module Util {
  import opened Dicts
  import opened Text
  import opened Values

  /** `is_flex_env`: the document has key `env` whose value is the string "flex". */
  predicate IsFlexEnv(input: Config)
    ensures IsFlexEnv(input) ==> ("env", Str("flex")) in input
  {
    HasKey(input, "env") && Get(input, "env") == Str("flex")
  }

  /** In a dictionary (keys distinct) the entry `env: flex` alone decides. */
  lemma FlexEnvEntry(input: Config)
    requires DistinctKeys(input)
    ensures IsFlexEnv(input) <==> ("env", Str("flex")) in input
  {
    if ("env", Str("flex")) in input {
      var i :| 0 <= i < |input| && input[i] == ("env", Str("flex"));
      GetAt(input, i);
    }
  }

  /** `{env: flex}` is flexible; `{}` and `{env: standard}` are not. */
  lemma IsFlexEnvExamples()
    ensures IsFlexEnv([("env", Str("flex"))])
    ensures !IsFlexEnv([])
    ensures !IsFlexEnv([("env", Str("standard"))])
  {
    assert Keys([("env", Str("flex"))]) == ["env"];
    assert Keys([("env", Str("standard"))]) == ["env"];
    assert "standard" != "flex";
  }

  /** `get_feature_key_from_input`, which app2run/common/util.py does not define: the
      first of `keys` present in `input`, if any. */
  function FeatureKeyFromInput(input: Config, keys: seq<string>): (r: Option<string>)
    ensures r.None? <==> forall i :: 0 <= i < |keys| ==> !HasKey(input, keys[i])
    ensures r.Some? ==>
              exists i :: 0 <= i < |keys| && keys[i] == r.value && HasKey(input, keys[i]) &&
                          (forall j :: 0 <= j < i ==> !HasKey(input, keys[j]))
  {
    if keys == [] then None
    else if HasKey(input, keys[0]) then Some(keys[0])
    else
      var r := FeatureKeyFromInput(input, keys[1..]);
      assert forall i :: 1 <= i < |keys| ==> keys[1..][i - 1] == keys[i];
      r
  }

  // ---------------------------------------------------------------------------
  // generate_output_flags

  /** One `flag=value` string per flag, in the order of `flags`. */
  function OutputFlags(flags: seq<string>, value: string): (r: seq<string>)
    ensures |r| == |flags|
    ensures forall i :: 0 <= i < |flags| ==> r[i] == flags[i] + "=" + value
  {
    if flags == [] then [] else [flags[0] + "=" + value] + OutputFlags(flags[1..], value)
  }

  /** `generate_output_flags`: appends `f'{flag}={value}'` for each flag. */
  method GenerateOutputFlags(flags: seq<string>, value: string) returns (outputFlags: seq<string>)
    ensures outputFlags == OutputFlags(flags, value)
  {
    outputFlags := [];
    for i := 0 to |flags|
      invariant outputFlags == OutputFlags(flags[..i], value)
    {
      outputFlags := outputFlags + [flags[i] + "=" + value];
    }
    assert flags[..|flags|] == flags;
  }

  /** Rendering the flags of two rule lists is rendering each in turn. */
  lemma OutputFlagsAppend(a: seq<string>, b: seq<string>, value: string)
    ensures OutputFlags(a + b, value) == OutputFlags(a, value) + OutputFlags(b, value)
  {
  }

  // ---------------------------------------------------------------------------
  // get_features_by_prefix

  /** The entries of `features` whose key starts with `prefix`, in order. */
  function FeaturesByPrefix<V>(features: Dict<V>, prefix: string): (r: Dict<V>)
    ensures forall e :: e in r ==> e in features && StartsWith(e.0, prefix)
    ensures forall i :: 0 <= i < |features| && StartsWith(features[i].0, prefix) ==> features[i] in r
    ensures |r| <= |features|
  {
    if features == [] then []
    else
      var last := features[|features| - 1];
      var init := features[..|features| - 1];
      assert forall i :: 0 <= i < |init| ==> features[i] == init[i];
      FeaturesByPrefix(init, prefix) + (if StartsWith(last.0, prefix) then [last] else [])
  }

  /** One more entry is kept exactly when its key has the prefix. */
  lemma FeaturesByPrefixSnoc<V>(features: Dict<V>, e: (string, V), prefix: string)
    ensures FeaturesByPrefix(features + [e], prefix)
         == FeaturesByPrefix(features, prefix) + (if StartsWith(e.0, prefix) then [e] else [])
  {
    assert (features + [e])[..|features|] == features;
  }

  /** A sub-map keeps the distinct-keys property of a dictionary. */
  lemma {:induction false} FeaturesByPrefixDistinct<V>(features: Dict<V>, prefix: string)
    requires DistinctKeys(features)
    ensures DistinctKeys(FeaturesByPrefix(features, prefix))
    decreases |features|
  {
    if features != [] {
      var init := features[..|features| - 1];
      FeaturesByPrefixDistinct(init, prefix);
      var sub := FeaturesByPrefix(init, prefix);
      var last := features[|features| - 1];
      forall e | e in sub ensures e.0 != last.0 {
        var j :| 0 <= j < |init| && init[j] == e;
      }
    }
  }

  /** The key at position `i` is not yet among the entries kept from before `i`. */
  lemma FreshKey<V>(features: Dict<V>, i: int, prefix: string)
    requires DistinctKeys(features) && 0 <= i < |features|
    ensures !HasKey(FeaturesByPrefix(features[..i], prefix), features[i].0)
  {
    var kept := FeaturesByPrefix(features[..i], prefix);
    forall j | 0 <= j < |kept| ensures Keys(kept)[j] != features[i].0 {
      assert kept[j] in features[..i];
    }
  }

  /** One more entry: a matching one is stored under its (fresh) key. */
  lemma GetFeaturesByPrefixStep<V>(features: Dict<V>, i: int, prefix: string)
    requires DistinctKeys(features) && 0 <= i < |features|
    ensures FeaturesByPrefix(features[..i + 1], prefix)
         == if StartsWith(features[i].0, prefix)
            then Put(FeaturesByPrefix(features[..i], prefix), features[i].0, features[i].1)
            else FeaturesByPrefix(features[..i], prefix)
  {
    TakeSnoc(features, i);
    FeaturesByPrefixSnoc(features[..i], features[i], prefix);
    FreshKey(features, i, prefix);
  }

  /** `get_features_by_prefix`: copies each matching entry into a fresh dictionary. */
  method GetFeaturesByPrefix<V>(features: Dict<V>, prefix: string) returns (matched: Dict<V>)
    requires DistinctKeys(features)
    ensures matched == FeaturesByPrefix(features, prefix)
  {
    matched := [];
    for i := 0 to |features|
      invariant matched == FeaturesByPrefix(features[..i], prefix)
    {
      GetFeaturesByPrefixStep(features, i, prefix);
      if StartsWith(features[i].0, prefix) {
        matched := Put(matched, features[i].0, features[i].1);
      }
    }
    assert features[..|features|] == features;
  }

  // ---------------------------------------------------------------------------
  // flatten_keys

  /** `f'{parent_path}.{key}' if parent_path else key` */
  function JoinPath(parent: string, key: string): (path: string)
    ensures parent == "" ==> path == key
    ensures parent != "" ==> StartsWith(path, parent + ".") && path[|parent| + 1..] == key
  {
    if parent != "" then parent + "." + key else key
  }

  /** `path` lies strictly below the dotted path `parent`. */
  predicate Under(path: string, parent: string)
  {
    StartsWith(path, parent + ".")
  }

  lemma UnderTrans(q: string, p: string, k: string)
    requires p != "" && Under(q, JoinPath(p, k))
    ensures Under(q, p)
  {
    assert (p + "." + k + ".")[..|p| + 1] == p + ".";
  }

  /** `key.split('.')[1]`: the second segment of a dotted path (Python raises
      `IndexError` on a key without a dot). */
  function Field(key: string): (f: string)
    requires '.' in key
    ensures '.' !in f
  {
    SplitSeparated(key, '.');
    Split(key, '.')[1]
  }

  /** The second segment of `group.field` is `field`. */
  lemma FieldOf(group: string, field: string)
    requires '.' !in group && '.' !in field
    ensures '.' in group + "." + field && Field(group + "." + field) == field
  {
    assert group + "." + field == group + ['.'] + field;
    assert (group + "." + field)[|group|] == '.';
    SplitAround(group, field, '.');
    SplitNoSeparator(field, '.');
  }

  /** The dictionary `flatten_keys(input_data, parent)` returns: every leaf of the
      nested mapping under its dotted path. */
  function Flatten(d: Config, parent: string): (r: Config)
    ensures forall e :: e in r ==> !e.1.Map?
    ensures DistinctKeys(r)
    ensures parent != "" ==> forall e :: e in r ==> Under(e.0, parent)
    decreases SizeOf(d), 4
  {
    FlattenFrom([], d, parent)
  }

  /** The loop of `flatten_keys` from a given point on: `paths` is the dictionary
      built so far and `d` the entries still to visit. */
  function FlattenFrom(paths: Config, d: Config, parent: string): (r: Config)
    ensures forall e :: e in r && e.1.Map? ==> e in paths
    ensures DistinctKeys(paths) ==> DistinctKeys(r)
    ensures parent != "" ==> forall e :: e in r ==> e in paths || Under(e.0, parent)
    decreases SizeOf(d), 3
  {
    if d == [] then paths
    else
      SizeOfCons(d);
      FlattenFrom(Visit(paths, d[0], parent), d[1..], parent)
  }

  /** One iteration of the loop: a leaf is stored under its path, a nested mapping
      is flattened under its path and merged in with `update`. */
  function Visit(paths: Config, entry: (string, Value), parent: string): (r: Config)
    ensures forall e :: e in r && e.1.Map? ==> e in paths
    ensures DistinctKeys(paths) ==> DistinctKeys(r)
    ensures parent != "" ==> forall e :: e in r ==> e in paths || Under(e.0, parent)
    decreases Size(entry.1), 2
  {
    var path := JoinPath(parent, entry.0);
    match entry.1
    case Map(es) =>
      var sub := Flatten(es, path);
      assert parent != "" ==> forall e :: e in sub ==> Under(e.0, parent) by {
        if parent != "" {
          forall e | e in sub ensures Under(e.0, parent) {
            UnderTrans(e.0, parent, entry.0);
          }
        }
      }
      UpdateAll(paths, sub)
    case _ =>
      Put(paths, path, entry.1)
  }

  /** A nested empty mapping contributes no key: visiting it leaves the paths as
      they were. */
  lemma EmptyMappingContributesNothing(paths: Config, key: string, parent: string)
    ensures Visit(paths, (key, Map([])), parent) == paths
  {
    assert Flatten([], JoinPath(parent, key)) == [];
  }

  /** `flatten_keys`: visits the entries in order; a leaf is stored under its path,
      a nested mapping is flattened recursively and merged with `update`. */
  method FlattenKeys(input: Config, parentPath: string) returns (paths: Config)
    ensures paths == Flatten(input, parentPath)
    decreases SizeOf(input)
  {
    paths := [];
    var i := 0;
    while i < |input|
      invariant 0 <= i <= |input|
      invariant FlattenFrom(paths, input[i..], parentPath) == Flatten(input, parentPath)
    {
      var (key, value) := input[i];
      assert input[i..][0] == input[i] && input[i..][1..] == input[i + 1..];
      var currPath := if parentPath != "" then parentPath + "." + key else key;
      if !value.Map? {
        paths := Put(paths, currPath, value);
      } else {
        SizeOfEntry(input, i);
        var sub := FlattenKeys(value.entries, currPath);
        paths := UpdateAll(paths, sub);
      }
      i := i + 1;
    }
  }

  /** A mapping without nested mappings, with every key put under `parent`. */
  function Prefixed(d: Config, parent: string): (r: Config)
    ensures |r| == |d|
    ensures forall i :: 0 <= i < |d| ==> r[i] == (JoinPath(parent, d[i].0), d[i].1)
  {
    if d == [] then [] else [(JoinPath(parent, d[0].0), d[0].1)] + Prefixed(d[1..], parent)
  }

  lemma PrefixedDistinct(d: Config, parent: string)
    requires DistinctKeys(d)
    ensures DistinctKeys(Prefixed(d, parent))
  {
    forall i, j | 0 <= i < j < |d| ensures JoinPath(parent, d[i].0) != JoinPath(parent, d[j].0) {
      PathStemJoin(parent, d[i].0);
      PathStemJoin(parent, d[j].0);
      assert (PathStem(parent) + d[i].0)[|PathStem(parent)|..] == d[i].0;
      assert (PathStem(parent) + d[j].0)[|PathStem(parent)|..] == d[j].0;
    }
  }

  /** Appending an entry with a fresh key is what `d[k] = v` does to `d`. */
  lemma PutFresh(d: Config, e: (string, Value))
    requires DistinctKeys(d + [e])
    ensures Put(d, e.0, e.1) == d + [e]
  {
    forall j | 0 <= j < |d| ensures Keys(d)[j] != e.0 {
      assert (d + [e])[j] == d[j] && (d + [e])[|d|] == e;
    }
  }

  /** `d.update(e)` appends `e` when none of its keys is in `d`. */
  lemma {:induction false} UpdateAllFresh(d: Config, e: Config)
    requires DistinctKeys(d + e)
    ensures UpdateAll(d, e) == d + e
    decreases |e|
  {
    if e != [] {
      assert d + e == (d + [e[0]]) + e[1..];
      DistinctKeysSplit(d + [e[0]], e[1..]);
      PutFresh(d, e[0]);
      UpdateAllFresh(d + [e[0]], e[1..]);
    }
  }

  lemma {:induction false} FlattenFromFlat(paths: Config, d: Config, parent: string)
    requires forall i :: 0 <= i < |d| ==> !d[i].1.Map?
    requires DistinctKeys(paths + Prefixed(d, parent))
    ensures FlattenFrom(paths, d, parent) == paths + Prefixed(d, parent)
    decreases |d|
  {
    if d != [] {
      var e := (JoinPath(parent, d[0].0), d[0].1);
      var tail := Prefixed(d[1..], parent);
      assert paths + Prefixed(d, parent) == (paths + [e]) + tail;
      DistinctKeysSplit(paths + [e], tail);
      PutFresh(paths, e);
      assert Visit(paths, d[0], parent) == paths + [e];
      FlattenFromFlat(paths + [e], d[1..], parent);
    }
  }

  /** A mapping that has no nested mappings flattens to itself with every key put
      under `parent`. */
  lemma FlattenFlat(d: Config, parent: string)
    requires DistinctKeys(d) && forall i :: 0 <= i < |d| ==> !d[i].1.Map?
    ensures Flatten(d, parent) == Prefixed(d, parent)
  {
    PrefixedDistinct(d, parent);
    assert [] + Prefixed(d, parent) == Prefixed(d, parent);
    FlattenFromFlat([], d, parent);
  }

  /** A document with no nested mapping is already flat. */
  lemma FlattenFlatTop(d: Config)
    requires DistinctKeys(d) && forall i :: 0 <= i < |d| ==> !d[i].1.Map?
    ensures Flatten(d, "") == d
  {
    FlattenFlat(d, "");
    assert Prefixed(d, "") == d;
  }

  /** Flattening an already flattened document changes nothing. */
  lemma FlattenIdempotent(d: Config, parent: string)
    ensures Flatten(Flatten(d, parent), "") == Flatten(d, parent)
  {
    var f := Flatten(d, parent);
    FlattenFlat(f, "");
    assert Prefixed(f, "") == f;
  }

  lemma FlattenExampleInner()
    ensures Flatten([("cpu", Int(5)), ("memory_gb", Int(10))], "resources")
         == [("resources.cpu", Int(5)), ("resources.memory_gb", Int(10))]
  {
    var inner := [("cpu", Int(5)), ("memory_gb", Int(10))];
    assert DistinctKeys(inner) by {
      assert inner[0].0[0] != inner[1].0[0];
    }
    assert Prefixed(inner, "resources") == [("resources.cpu", Int(5)), ("resources.memory_gb", Int(10))] by {
      var r := Prefixed(inner, "resources");
      assert JoinPath("resources", "cpu") == "resources.cpu";
      assert JoinPath("resources", "memory_gb") == "resources.memory_gb";
      assert r[0] == ("resources.cpu", Int(5));
      assert r[1] == ("resources.memory_gb", Int(10));
    }
    FlattenFlat(inner, "resources");
  }

  /** A document made of one group flattens to the group's own entries put under
      the group's name. */
  lemma FlattenOneGroup(g: string, d: Config)
    requires g != ""
    ensures Flatten([(g, Map(d))], "") == Flatten(d, g)
  {
    var doc: Config := [(g, Map(d))];
    var sub := Flatten(d, g);
    assert JoinPath("", g) == g;
    assert [] + sub == sub;
    UpdateAllFresh([], sub);
    assert Visit([], doc[0], "") == sub;
    assert doc[1..] == [];
    assert Flatten(doc, "") == FlattenFrom(sub, [], "");
  }

  /** `{resources: {cpu: 5, memory_gb: 10}}` flattens to
      `{resources.cpu: 5, resources.memory_gb: 10}`. */
  lemma FlattenExample()
    ensures Flatten([("resources", Map([("cpu", Int(5)), ("memory_gb", Int(10))]))], "")
         == [("resources.cpu", Int(5)), ("resources.memory_gb", Int(10))]
  {
    FlattenOneGroup("resources", [("cpu", Int(5)), ("memory_gb", Int(10))]);
    FlattenExampleInner();
  }

  /** A single leaf flattens to its path. */
  lemma FlattenSingleLeaf(k: string, v: Value, parent: string)
    requires !v.Map?
    ensures Flatten([(k, v)], parent) == [(JoinPath(parent, k), v)]
  {
    var d: Config := [(k, v)];
    assert Prefixed(d, parent) == [(JoinPath(parent, k), v)];
    FlattenFlat(d, parent);
  }

  /** Flattening two entries visits the first, then the second. */
  lemma FlattenTwo(a: (string, Value), b: (string, Value), parent: string)
    ensures Flatten([a, b], parent) == Visit(Visit([], a, parent), b, parent)
  {
    var d: Config := [a, b];
    assert d[1..] == [b] && [b][1..] == [];
    assert FlattenFrom([], d, parent) == FlattenFrom(Visit([], a, parent), [b], parent);
  }

  /** At top level, a group holding one leaf adds the leaf's dotted path. */
  lemma VisitGroupOfOne(top: Config, g: string, f: string, v: Value)
    requires !v.Map? && g != "" && DistinctKeys(top + [(g + "." + f, v)])
    ensures Visit(top, (g, Map([(f, v)])), "") == top + [(g + "." + f, v)]
  {
    FlattenSingleLeaf(f, v, g);
    assert JoinPath("", g) == g && JoinPath(g, f) == g + "." + f;
    UpdateAllFresh(top, [(g + "." + f, v)]);
  }

  /** At top level, a leaf visited first is stored under its own key. */
  lemma VisitFirstLeaf(k: string, v: Value)
    requires !v.Map?
    ensures Visit([], (k, v), "") == [(k, v)]
  {
    assert Put([], k, v) == [(k, v)];
  }

  /** Two entries with different keys form a dictionary. */
  lemma DistinctPair(a: (string, Value), b: (string, Value))
    requires a.0 != b.0
    ensures DistinctKeys([a, b])
  {
  }

  /** A top-level leaf followed by a group holding one leaf flattens to the leaf and
      the group's dotted path. */
  lemma FlattenLeafThenGroup(k0: string, v0: Value, g: string, f: string, v: Value)
    requires !v0.Map? && !v.Map? && g != "" && k0 != g + "." + f
    ensures Flatten([(k0, v0), (g, Map([(f, v)]))], "") == [(k0, v0), (g + "." + f, v)]
  {
    var top: Config := [(k0, v0)];
    var leaf := (g + "." + f, v);
    FlattenTwo((k0, v0), (g, Map([(f, v)])), "");
    VisitFirstLeaf(k0, v0);
    DistinctPair((k0, v0), leaf);
    assert top + [leaf] == [(k0, v0), leaf];
    VisitGroupOfOne(top, g, f, v);
  }

  /** The places the flattener writes while visiting entry `e`: the entry's own
      path for a leaf, paths strictly below it for a nested mapping. */
  predicate Writes(e: (string, Value), parent: string, q: string)
  {
    if e.1.Map? then Under(q, JoinPath(parent, e.0)) else q == JoinPath(parent, e.0)
  }

  /** Visiting entries that do not write `q` leaves `q` as it was: present with the
      same value, or absent. */
  lemma {:induction false} FlattenFromFrame(paths: Config, d: Config, parent: string, q: string)
    requires forall j :: 0 <= j < |d| ==> d[j].0 != "" && !Writes(d[j], parent, q)
    ensures var r := FlattenFrom(paths, d, parent);
      (HasKey(r, q) <==> HasKey(paths, q)) && (HasKey(r, q) ==> Get(r, q) == Get(paths, q))
    decreases |d|
  {
    if d != [] {
      VisitFrame(paths, d[0], parent, q);
      FlattenFromFrame(Visit(paths, d[0], parent), d[1..], parent, q);
    }
  }

  lemma VisitFrame(paths: Config, entry: (string, Value), parent: string, q: string)
    requires entry.0 != "" && !Writes(entry, parent, q)
    ensures var r := Visit(paths, entry, parent);
      (HasKey(r, q) <==> HasKey(paths, q)) && (HasKey(r, q) ==> Get(r, q) == Get(paths, q))
  {
    if entry.1.Map? {
      var sub := Flatten(entry.1.entries, JoinPath(parent, entry.0));
      forall j | 0 <= j < |sub| ensures Keys(sub)[j] != q {
        assert sub[j] in sub;
      }
    }
  }

  /** The documents the flattening lemmas cover: top-level keys distinct, non-empty
      and without `.`, so that no flattened path can equal another. YAML itself also
      allows empty and dotted keys. */
  predicate PlainKeys(d: Config)
  {
    DistinctKeys(d) && forall i :: 0 <= i < |d| ==> d[i].0 != "" && '.' !in d[i].0
  }

  lemma PrefixShift(p: string, x: string, y: string)
    ensures StartsWith(p + x, p + y) <==> StartsWith(x, y)
  {
    assert (p + x)[|p|..] == x;
    assert (p + y)[|p|..] == y;
    if StartsWith(x, y) {
      assert p + x == (p + y) + x[|y|..];
    }
  }

  lemma PrefixDot(q: string, a: string)
    ensures StartsWith(q, a + ".") ==> |q| > |a| && q[|a|] == '.'
  {
    assert (a + ".")[|a|] == '.';
  }

  /** The prefix of the path of `k` before the key itself. */
  function PathStem(parent: string): string
  {
    if parent != "" then parent + "." else ""
  }

  lemma PathStemJoin(parent: string, k: string)
    ensures JoinPath(parent, k) == PathStem(parent) + k
    ensures JoinPath(parent, k) + "." == PathStem(parent) + (k + ".")
  {
  }

  /** A plain key `k` other than `k'` neither equals nor lies under the path of `k'`. */
  lemma PlainPathsApart(parent: string, k: string, k': string)
    requires k != k' && '.' !in k && '.' !in k'
    ensures JoinPath(parent, k) != JoinPath(parent, k')
    ensures !Under(JoinPath(parent, k), JoinPath(parent, k'))
  {
    var P := PathStem(parent);
    PathStemJoin(parent, k);
    PathStemJoin(parent, k');
    assert (P + k)[|P|..] == k;
    assert (P + k')[|P|..] == k';
    PrefixShift(P, k, k' + ".");
    PrefixDot(k, k');
  }

  /** Paths below the plain key `k` are not the path of any plain key, and they lie
      below no other plain key. */
  lemma PlainSubtreesApart(parent: string, k: string, k': string, q: string)
    requires '.' !in k && '.' !in k' && Under(q, JoinPath(parent, k))
    ensures q != JoinPath(parent, k')
    ensures k != k' ==> !Under(q, JoinPath(parent, k'))
  {
    var P := PathStem(parent);
    PathStemJoin(parent, k);
    PathStemJoin(parent, k');
    PrefixShift(P, k', k + ".");
    PrefixDot(k', k);
    if Under(q, P + k') {
      var a, b := k + ".", k' + ".";
      assert StartsWith(q, P + a) && StartsWith(q, P + b);
      if |a| <= |b| {
        assert (P + b)[..|P + a|] == q[..|P + a|] == P + a;
        PrefixShift(P, b, a);
        PrefixDot(k', k);
        assert |k| == |k'|;
        assert a == b;
        assert k == a[..|k|] && k' == b[..|k'|];
      } else {
        assert (P + a)[..|P + b|] == q[..|P + b|] == P + b;
        PrefixShift(P, a, b);
        PrefixDot(k, k');
        assert false;
      }
    }
  }

  /** No later entry writes the path of the first entry. */
  lemma LeafApart(d: Config, parent: string)
    requires PlainKeys(d) && |d| > 0
    ensures forall j :: 0 <= j < |d[1..]| ==> d[1..][j].0 != "" && !Writes(d[1..][j], parent, JoinPath(parent, d[0].0))
  {
    forall j | 0 <= j < |d[1..]| ensures d[1..][j].0 != "" && !Writes(d[1..][j], parent, JoinPath(parent, d[0].0)) {
      assert d[1..][j] == d[j + 1];
      PlainPathsApart(parent, d[0].0, d[j + 1].0);
    }
  }

  /** No later entry writes a path below the first entry. */
  lemma NestedApart(d: Config, parent: string, q: string)
    requires PlainKeys(d) && |d| > 0 && Under(q, JoinPath(parent, d[0].0))
    ensures forall j :: 0 <= j < |d[1..]| ==> d[1..][j].0 != "" && !Writes(d[1..][j], parent, q)
  {
    forall j | 0 <= j < |d[1..]| ensures d[1..][j].0 != "" && !Writes(d[1..][j], parent, q) {
      assert d[1..][j] == d[j + 1];
      PlainSubtreesApart(parent, d[0].0, d[j + 1].0, q);
    }
  }

  /** A top-level leaf `k: v` keeps its place in the flattened view: the path of `k`
      holds `v`. */
  lemma {:induction false} FlattenFromLeaf(paths: Config, d: Config, parent: string, i: int)
    requires PlainKeys(d) && 0 <= i < |d| && !d[i].1.Map?
    ensures var r := FlattenFrom(paths, d, parent);
      HasKey(r, JoinPath(parent, d[i].0)) && Get(r, JoinPath(parent, d[i].0)) == d[i].1
    decreases |d|
  {
    var path := JoinPath(parent, d[0].0);
    var rest := d[1..];
    var next := Visit(paths, d[0], parent);
    if i == 0 {
      LeafApart(d, parent);
      FlattenFromFrame(next, rest, parent, path);
    } else {
      FlattenFromLeaf(next, rest, parent, i - 1);
    }
  }

  /** A top-level nested mapping keeps its place in the flattened view: every path of
      its own flattening holds the same value in the whole. */
  lemma {:induction false} FlattenFromNested(paths: Config, d: Config, parent: string, i: int, q: string)
    requires PlainKeys(d) && 0 <= i < |d| && d[i].1.Map?
    requires HasKey(Flatten(d[i].1.entries, JoinPath(parent, d[i].0)), q)
    ensures var r := FlattenFrom(paths, d, parent);
      HasKey(r, q) && Get(r, q) == Get(Flatten(d[i].1.entries, JoinPath(parent, d[i].0)), q)
    decreases |d|
  {
    var path := JoinPath(parent, d[0].0);
    var rest := d[1..];
    var next := Visit(paths, d[0], parent);
    if i == 0 {
      UpdateAllGet(paths, Flatten(d[0].1.entries, path), q);
      NestedApart(d, parent, q);
      FlattenFromFrame(next, rest, parent, q);
    } else {
      FlattenFromNested(next, rest, parent, i - 1, q);
    }
  }

  /** After `d.update(e)` every key of `e` holds `e`'s value (keys of `e` distinct). */
  lemma {:induction false} UpdateAllGet(d: Config, e: Config, q: string)
    requires DistinctKeys(e) && HasKey(e, q)
    ensures HasKey(UpdateAll(d, e), q) && Get(UpdateAll(d, e), q) == Get(e, q)
    decreases |e|
  {
    var rest := e[1..];
    assert Keys(e) == [e[0].0] + Keys(rest);
    if e[0].0 == q {
      forall j | 0 <= j < |rest| ensures Keys(rest)[j] != q {
        assert rest[j] == e[j + 1];
      }
    } else {
      assert HasKey(rest, q);
      assert IndexOf(e, q) == 1 + IndexOf(rest, q);
      UpdateAllGet(Put(d, e[0].0, e[0].1), rest, q);
    }
  }

  /** The flattened view answers a top-level plain key `k` exactly as the document
      does when `k` holds a leaf, and has no entry for it otherwise. */
  lemma FlattenTopLevel(d: Config, k: string)
    requires PlainKeys(d) && k != "" && '.' !in k
    ensures HasKey(Flatten(d, ""), k) <==> HasKey(d, k) && !Get(d, k).Map?
    ensures HasKey(Flatten(d, ""), k) ==> Get(Flatten(d, ""), k) == Get(d, k)
  {
    if HasKey(d, k) && !Get(d, k).Map? {
      FlattenFromLeaf([], d, "", IndexOf(d, k));
    } else {
      forall j | 0 <= j < |d| ensures d[j].0 != "" && !Writes(d[j], "", k) {
        PrefixDot(k, d[j].0);
        if d[j].0 == k {
          GetAt(d, j);
        }
      }
      FlattenFromFrame([], d, "", k);
    }
  }

  /** Flex detection gives the same answer on the document and on its flattened view. */
  lemma IsFlexEnvFlatten(d: Config)
    requires PlainKeys(d)
    ensures IsFlexEnv(Flatten(d, "")) <==> IsFlexEnv(d)
  {
    FlattenTopLevel(d, "env");
  }
}
