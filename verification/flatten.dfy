/** `flatten_nested_list`: only JSON arrays are descended into; every other value is a leaf. */
module Flattening {
  import opened JsonValues

  predicate NoArrays(xs: seq<Json>) {
    forall i :: 0 <= i < |xs| ==> !xs[i].JArr?
  }

  /** The leaves of a nested list, left to right, depth first. */
  function Flatten(xs: seq<Json>): (r: seq<Json>)
    ensures NoArrays(r)
    decreases xs
  {
    if xs == [] then []
    else (if xs[0].JArr? then Flatten(xs[0].items) else [xs[0]]) + Flatten(xs[1..])
  }

  /** x occurs as a non-array value in xs, possibly inside nested arrays. */
  ghost predicate IsLeafOf(x: Json, xs: seq<Json>)
    decreases xs
  {
    exists i :: 0 <= i < |xs| && (if xs[i].JArr? then IsLeafOf(x, xs[i].items) else xs[i] == x)
  }

  /** Flattening distributes over concatenation. */
  lemma {:induction false} FlattenAppend(a: seq<Json>, b: seq<Json>)
    ensures Flatten(a + b) == Flatten(a) + Flatten(b)
  {
    if a == [] {
      assert a + b == b;
    } else {
      assert (a + b)[0] == a[0];
      assert (a + b)[1..] == a[1..] + b;
      FlattenAppend(a[1..], b);
    }
  }

  /** A one-element list flattens to that element's leaves: the flattened
      sublist for a list, the element itself otherwise. */
  lemma FlattenSingleton(x: Json)
    ensures Flatten([x]) == if x.JArr? then Flatten(x.items) else [x]
  {
  }

  /** Flattening leaves a list unchanged exactly when it holds no nested list. */
  lemma {:induction false} FlattenIdentity(xs: seq<Json>)
    ensures Flatten(xs) == xs <==> NoArrays(xs)
  {
    if xs != [] && NoArrays(xs) {
      assert NoArrays(xs[1..]);
      FlattenIdentity(xs[1..]);
    }
  }

  /** Flattening twice is flattening once. */
  lemma FlattenIdempotent(xs: seq<Json>)
    ensures Flatten(Flatten(xs)) == Flatten(xs)
  {
    FlattenIdentity(Flatten(xs));
  }

  /** The flattened list holds exactly the leaves of the nested one. */
  lemma {:induction false} FlattenLeaves(x: Json, xs: seq<Json>)
    ensures x in Flatten(xs) <==> IsLeafOf(x, xs)
    decreases xs
  {
    if xs != [] {
      var head := if xs[0].JArr? then Flatten(xs[0].items) else [xs[0]];
      assert Flatten(xs) == head + Flatten(xs[1..]);
      FlattenLeaves(x, xs[1..]);
      if xs[0].JArr? {
        FlattenLeaves(x, xs[0].items);
      }
      if IsLeafOf(x, xs) {
        var i :| 0 <= i < |xs| && (if xs[i].JArr? then IsLeafOf(x, xs[i].items) else xs[i] == x);
        if i > 0 {
          assert xs[1..][i - 1] == xs[i];
        }
      }
      if IsLeafOf(x, xs[1..]) {
        var i :| 0 <= i < |xs[1..]| && (if xs[1..][i].JArr? then IsLeafOf(x, xs[1..][i].items) else xs[1..][i] == x);
        assert xs[i + 1] == xs[1..][i];
      }
    }
  }
}
