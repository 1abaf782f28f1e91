/** Python dictionaries as association lists.

    A Python `dict` remembers insertion order, and the rule engine depends on it
    (findings and flags come out in dictionary order), so a dictionary is modelled
    as a sequence of (key, value) pairs. Assigning to an existing key keeps its
    position and replaces the value; assigning to a new key appends it. */
module Dicts {

  datatype Option<+T> = None | Some(value: T)

  type Dict<V> = seq<(string, V)>

  /** The keys, in iteration order. */
  function Keys<V>(d: Dict<V>): (ks: seq<string>)
    ensures |ks| == |d|
    ensures forall i :: 0 <= i < |d| ==> ks[i] == d[i].0
  {
    if d == [] then [] else [d[0].0] + Keys(d[1..])
  }

  /** `k in d` */
  predicate HasKey<V>(d: Dict<V>, k: string)
  {
    k in Keys(d)
  }

  /** Python dictionaries never hold the same key twice. */
  predicate DistinctKeys<V>(d: Dict<V>)
  {
    forall i, j :: 0 <= i < j < |d| ==> d[i].0 != d[j].0
  }

  /** Position of the (first) entry with key `k`. */
  function IndexOf<V>(d: Dict<V>, k: string): (i: nat)
    requires HasKey(d, k)
    ensures i < |d| && d[i].0 == k
    ensures forall j :: 0 <= j < i ==> d[j].0 != k
  {
    if d[0].0 == k then 0 else 1 + IndexOf(d[1..], k)
  }

  /** `d[k]` */
  function Get<V>(d: Dict<V>, k: string): V
    requires HasKey(d, k)
  {
    d[IndexOf(d, k)].1
  }

  lemma GetAt<V>(d: Dict<V>, i: int)
    requires DistinctKeys(d) && 0 <= i < |d|
    ensures HasKey(d, d[i].0) && Get(d, d[i].0) == d[i].1
  {
    assert Keys(d)[i] == d[i].0;
  }

  /** `d[k] = v` */
  function Put<V>(d: Dict<V>, k: string, v: V): (r: Dict<V>)
    ensures forall k' :: HasKey(r, k') <==> k' == k || HasKey(d, k')
    ensures HasKey(r, k) && Get(r, k) == v
    ensures forall k' :: k' != k && HasKey(d, k') ==> Get(r, k') == Get(d, k')
    ensures HasKey(d, k) ==> |r| == |d|
    ensures !HasKey(d, k) ==> r == d + [(k, v)]
    ensures DistinctKeys(d) ==> DistinctKeys(r)
    ensures forall e :: e in r ==> e in d || e == (k, v)
  {
    if HasKey(d, k) then
      ReplaceAt(d, IndexOf(d, k), v);
      d[IndexOf(d, k) := (k, v)]
    else
      Append(d, k, v);
      d + [(k, v)]
  }

  lemma ReplaceAt<V>(d: Dict<V>, i: nat, v: V)
    requires i < |d|
    requires forall j :: 0 <= j < i ==> d[j].0 != d[i].0
    ensures var r := d[i := (d[i].0, v)];
      && Keys(r) == Keys(d)
      && HasKey(r, d[i].0) && Get(r, d[i].0) == v
      && (forall k' :: k' != d[i].0 && HasKey(d, k') ==> Get(r, k') == Get(d, k'))
      && (DistinctKeys(d) ==> DistinctKeys(r))
  {
    var r := d[i := (d[i].0, v)];
    KeysUpdate(d, i, v);
    FirstIndex(r, d[i].0, i);
    forall k' | k' != d[i].0 && HasKey(d, k') ensures Get(r, k') == Get(d, k') {
      FirstIndex(r, k', IndexOf(d, k'));
    }
  }

  lemma KeysUpdate<V>(d: Dict<V>, i: nat, v: V)
    requires i < |d|
    ensures Keys(d[i := (d[i].0, v)]) == Keys(d)
  {
  }

  lemma Append<V>(d: Dict<V>, k: string, v: V)
    requires !HasKey(d, k)
    ensures var r := d + [(k, v)];
      && Keys(r) == Keys(d) + [k]
      && HasKey(r, k) && Get(r, k) == v
      && (forall k' :: k' != k && HasKey(d, k') ==> Get(r, k') == Get(d, k'))
      && (DistinctKeys(d) ==> DistinctKeys(r))
  {
    var r := d + [(k, v)];
    KeysSnoc(d, (k, v));
    forall j | 0 <= j < |d| ensures r[j].0 != k {
      assert Keys(d)[j] == d[j].0;
    }
    FirstIndex(r, k, |d|);
    forall k' | k' != k && HasKey(d, k') ensures Get(r, k') == Get(d, k') {
      FirstIndex(r, k', IndexOf(d, k'));
    }
  }

  lemma KeysSnoc<V>(d: Dict<V>, e: (string, V))
    ensures Keys(d + [e]) == Keys(d) + [e.0]
  {
  }

  /** The first position holding `k` is `IndexOf(d, k)`. */
  lemma FirstIndex<V>(d: Dict<V>, k: string, i: nat)
    requires i < |d| && d[i].0 == k
    requires forall j :: 0 <= j < i ==> d[j].0 != k
    ensures HasKey(d, k) && IndexOf(d, k) == i
  {
    assert Keys(d)[i] == k;
  }

  /** A dictionary split in two leaves two dictionaries. */
  lemma DistinctKeysSplit<V>(a: Dict<V>, b: Dict<V>)
    requires DistinctKeys(a + b)
    ensures DistinctKeys(a) && DistinctKeys(b)
  {
    forall i, j | 0 <= i < j < |a| ensures a[i].0 != a[j].0 {
      assert (a + b)[i] == a[i] && (a + b)[j] == a[j];
    }
    forall i, j | 0 <= i < j < |b| ensures b[i].0 != b[j].0 {
      assert (a + b)[|a| + i] == b[i] && (a + b)[|a| + j] == b[j];
    }
  }

  /** `d.update(e)`: assigns every entry of `e`, in order. */
  function UpdateAll<V>(d: Dict<V>, e: Dict<V>): (r: Dict<V>)
    ensures forall k :: HasKey(r, k) <==> HasKey(d, k) || HasKey(e, k)
    ensures forall k :: HasKey(d, k) && !HasKey(e, k) ==> Get(r, k) == Get(d, k)
    ensures DistinctKeys(d) ==> DistinctKeys(r)
    ensures forall x :: x in r ==> x in d || x in e
    decreases |e|
  {
    if e == [] then d
    else
      assert forall k :: HasKey(e, k) <==> k == e[0].0 || HasKey(e[1..], k) by {
        assert Keys(e) == [e[0].0] + Keys(e[1..]);
      }
      UpdateAll(Put(d, e[0].0, e[0].1), e[1..])
  }

  /** True when `a` and `b` hold the same entry for every key in `ks`. */
  predicate AgreeOn<V(==)>(a: Dict<V>, b: Dict<V>, ks: set<string>)
  {
    forall k :: k in ks ==>
      (HasKey(a, k) <==> HasKey(b, k)) && (HasKey(a, k) ==> Get(a, k) == Get(b, k))
  }

  // ---------------------------------------------------------------------------
  // Sequence facts the solver is better off given one at a time

  /** Concatenation is associative. */
  lemma AppendAssoc<T>(x: seq<T>, y: seq<T>, z: seq<T>)
    ensures (x + y) + z == x + (y + z)
  {
  }

  /** The last element of `a + b`, for a non-empty `b`, is `b`'s, and what precedes
      it is `a` followed by the rest of `b`. */
  lemma AppendLast<T>(a: seq<T>, b: seq<T>)
    requires b != []
    ensures b == b[..|b| - 1] + [b[|b| - 1]]
    ensures (a + b)[..|a + b| - 1] == a + b[..|b| - 1]
    ensures (a + b)[|a + b| - 1] == b[|b| - 1]
  {
  }

  /** A non-empty sequence is its front followed by its last element. */
  lemma DropLast<T>(s: seq<T>)
    requires s != []
    ensures s == s[..|s| - 1] + [s[|s| - 1]]
  {
  }

  /** Slicing one more element off the front of a sequence. */
  lemma TakeSnoc<T>(s: seq<T>, i: int)
    requires 0 <= i < |s|
    ensures s[..i + 1] == s[..i] + [s[i]]
  {
  }
}
