/** JSON values. An object is two parallel sequences in the map's iteration order. */
module Json {
  import opened Common

  datatype Value =
    | Null
    | Bool(b: bool)
    | Num(n: int)
    | Str(s: string)
    | Arr(items: seq<Value>)
    | Obj(keys: seq<string>, values: seq<Value>)

  /** Every object pairs each of its distinct keys with one value. */
  ghost predicate WellFormed(v: Value)
    decreases v, 1
  {
    match v
    case Arr(items) => AllWellFormed(items)
    case Obj(keys, values) =>
      && |keys| == |values|
      && (forall i, j :: 0 <= i < j < |keys| ==> keys[i] != keys[j])
      && AllWellFormed(values)
    case _ => true
  }

  ghost predicate AllWellFormed(vs: seq<Value>)
    decreases vs, 0
  {
    vs == [] || (WellFormed(vs[0]) && AllWellFormed(vs[1..]))
  }

  /** Number of values in the tree rooted at `v`, itself included. */
  function Nodes(v: Value): (n: nat)
    ensures n >= 1
    decreases v, 1
  {
    match v
    case Arr(items) => 1 + NodesAll(items)
    case Obj(_, values) => 1 + NodesAll(values)
    case _ => 1
  }

  function NodesAll(vs: seq<Value>): nat
    decreases vs, 0
  {
    if vs == [] then 0 else Nodes(vs[0]) + NodesAll(vs[1..])
  }

  lemma {:induction false} NodesAllAt(vs: seq<Value>, k: nat)
    requires k < |vs|
    ensures Nodes(vs[k]) <= NodesAll(vs)
  {
    if k == 0 {
    } else {
      NodesAllAt(vs[1..], k - 1);
    }
  }

  function Find(keys: seq<string>, values: seq<Value>, key: string): (r: Option<Value>)
    ensures r.Some? ==> Nodes(r.value) <= NodesAll(values)
  {
    if keys == [] || values == [] then None
    else if keys[0] == key then Some(values[0])
    else Find(keys[1..], values[1..], key)
  }

  /** The field `key` of an object; nothing for any other value. */
  function Get(v: Value, key: string): (r: Option<Value>)
    ensures r.Some? ==> Nodes(r.value) < Nodes(v)
  {
    if v.Obj? then Find(v.keys, v.values, key) else None
  }

  predicate Has(v: Value, key: string) {
    Get(v, key).Some?
  }

  /** The field `key`, when it is an array. */
  function GetArray(v: Value, key: string): (r: Option<seq<Value>>)
    ensures r.Some? ==> NodesAll(r.value) + 1 < Nodes(v)
  {
    match Get(v, key)
    case Some(Arr(items)) => Some(items)
    case _ => None
  }
}
