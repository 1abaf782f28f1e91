/** The parsed configuration document: what `yaml.safe_load` yields for an
    app.yaml or a deployed version, restricted to integers, strings and nested
    mappings (lists, floats, booleans and null are not modelled). */
module Values {
  import opened Dicts
  import opened Text
  import opened StringRepr

  datatype Value = Int(i: int) | Str(s: string) | Map(entries: Dict<Value>)

  /** A configuration document is a top-level mapping. */
  type Config = Dict<Value>

  /** Number of nodes in a value; used as a termination measure. */
  function Size(v: Value): nat
    decreases v, 1
  {
    match v
    case Map(es) => 1 + SizeFrom(v, 0)
    case _ => 1
  }

  /** Sum of the sizes of the values of `parent`'s entries from position `i` on. */
  function SizeFrom(parent: Value, i: nat): nat
    requires parent.Map? && i <= |parent.entries|
    decreases parent, 0, |parent.entries| - i
  {
    if i == |parent.entries| then 0
    else
      assert parent.entries[i] in parent.entries;
      Size(parent.entries[i].1) + SizeFrom(parent, i + 1)
  }

  /** Sum of the sizes of the values of a mapping. */
  function SizeOf(d: Dict<Value>): nat
  {
    SizeFrom(Map(d), 0)
  }

  lemma {:induction false} SizeFromShift(d: Dict<Value>, i: nat)
    requires 1 <= i <= |d|
    ensures SizeFrom(Map(d), i) == SizeFrom(Map(d[1..]), i - 1)
    decreases |d| - i
  {
    if i < |d| {
      SizeFromShift(d, i + 1);
    }
  }

  /** A mapping's size is its first value's size plus the size of the rest. */
  lemma SizeOfCons(d: Dict<Value>)
    requires d != []
    ensures SizeOf(d) == Size(d[0].1) + SizeOf(d[1..])
  {
    SizeFromShift(d, 1);
  }

  lemma {:induction false} SizeOfEntry(d: Dict<Value>, i: int)
    requires 0 <= i < |d|
    ensures Size(d[i].1) <= SizeOf(d)
  {
    SizeOfCons(d);
    if i > 0 {
      SizeOfEntry(d[1..], i - 1);
    }
  }

  lemma {:induction false} SizeOfSuffix(d: Dict<Value>, i: int)
    requires 0 <= i <= |d|
    ensures SizeOf(d[i..]) <= SizeOf(d)
  {
    if i > 0 {
      SizeOfCons(d);
      SizeOfSuffix(d[1..], i - 1);
      assert d[1..][i - 1..] == d[i..];
    }
  }

  /** Python truthiness: `0`, `''` and `{}` are false. */
  predicate Truthy(v: Value)
  {
    match v
    case Int(n) => n != 0
    case Str(s) => s != ""
    case Map(es) => es != []
  }

  /** `str(v)`, as an f-string renders a value: a top-level string as it is, a
      mapping with its keys and nested strings written as `repr` literals. */
  function Show(v: Value): string
  {
    match v
    case Int(n) => IntToString(n)
    case Str(s) => s
    case Map(es) => "{" + ReprEntries(es) + "}"
  }

  /** `repr(v)` of a value nested in a mapping: a string as a quoted, escaped literal. */
  function Repr(v: Value): string
    decreases v, 1
  {
    match v
    case Int(n) => IntToString(n)
    case Str(s) => StrRepr(s)
    case Map(es) => "{" + ReprFrom(v, 0) + "}"
  }

  /** `repr(k): repr(v)` for `parent`'s entries from position `i` on, joined by ", ". */
  function ReprFrom(parent: Value, i: nat): string
    requires parent.Map? && i <= |parent.entries|
    decreases parent, 0, |parent.entries| - i
  {
    if i == |parent.entries| then ""
    else
      assert parent.entries[i] in parent.entries;
      var item := StrRepr(parent.entries[i].0) + ": " + Repr(parent.entries[i].1);
      if i + 1 == |parent.entries| then item else item + ", " + ReprFrom(parent, i + 1)
  }

  function ReprEntries(es: Dict<Value>): string
  {
    ReprFrom(Map(es), 0)
  }

  /** A one-entry mapping renders as `{repr(k): repr(v)}`. */
  lemma ShowSingleEntry(k: string, v: Value)
    ensures Show(Map([(k, v)])) == "{" + StrRepr(k) + ": " + Repr(v) + "}"
  {
    assert Map([(k, v)]).entries[0] == (k, v);
  }
}
