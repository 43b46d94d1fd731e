/** Parsed JSON documents as Python's `json` module produces them. */
module JsonValues {
  import opened Wrappers

  /** A JSON value. Objects keep their members in insertion order, which is
      the order Python's `dict.items()` yields them; numbers are integers. */
  datatype Json =
    | JNull
    | JBool(b: bool)
    | JNum(n: int)
    | JStr(s: string)
    | JArr(items: seq<Json>)
    | JObj(fields: seq<(string, Json)>)

  /** A Python dict never holds a key twice. */
  ghost predicate DistinctKeys(fields: seq<(string, Json)>) {
    forall i, j :: 0 <= i < j < |fields| ==> fields[i].0 != fields[j].0
  }

  /** The value bound to `key`, as `d[key]` finds it; None where `d[key]` raises KeyError. */
  function Get(fields: seq<(string, Json)>, key: string): (r: Option<Json>)
    ensures r.None? <==> forall i :: 0 <= i < |fields| ==> fields[i].0 != key
    ensures r.Some? ==> exists i :: 0 <= i < |fields| && fields[i] == (key, r.value)
  {
    if fields == [] then None
    else if fields[0].0 == key then Some(fields[0].1)
    else Get(fields[1..], key)
  }

  /** With distinct keys a lookup finds exactly the member bound to the key. */
  lemma {:induction false} GetFindsBinding(fields: seq<(string, Json)>, key: string, v: Json)
    requires DistinctKeys(fields)
    ensures Get(fields, key) == Some(v) <==> (key, v) in fields
  {
  }

  /** The values of a mapping, in the order its `items()` yields them. */
  function Values(fields: seq<(string, Json)>): (r: seq<Json>)
    ensures |r| == |fields|
    ensures forall i :: 0 <= i < |fields| ==> r[i] == fields[i].1
  {
    if fields == [] then [] else [fields[0].1] + Values(fields[1..])
  }
}
