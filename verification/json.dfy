/** Decoded JSON as the application sees it after `json.loads`: objects
    are string-keyed dictionaries, and `{**a, **b}` merges two of them. */
module Json {

  datatype Value =
    | Null
    | Bool(b: bool)
    | Number(literal: string)
    | Str(s: string)
    | Arr(items: seq<Value>)
    | Obj(fields: map<string, Value>)

  /** A JSON object: a claim, a verdict, or a merged result row. */
  type Record = map<string, Value>

  /** `r` is `{**base, **over}`: it has the keys of both, takes every value
      from `over` where `over` has the key, and from `base` otherwise. */
  ghost predicate MergedFrom(r: Record, base: Record, over: Record) {
    && r.Keys == base.Keys + over.Keys
    && (forall k :: k in over ==> r[k] == over[k])
    && (forall k :: k in base && k !in over ==> r[k] == base[k])
  }

  /** The dictionary display `{**base, **over}`. */
  function Merge(base: Record, over: Record): (r: Record)
    ensures MergedFrom(r, base, over)
  {
    base + over
  }

  /** `MergedFrom` pins the merge down completely. */
  lemma MergedFromUnique(r: Record, base: Record, over: Record)
    requires MergedFrom(r, base, over)
    ensures r == Merge(base, over)
  {
    var m := Merge(base, over);
    assert forall k :: k in r ==> r[k] == m[k];
  }
}
