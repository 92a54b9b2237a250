/**
  Accumulating one set per item of a sequence into a growing set, as a loop
  that only ever adds does.
 */
module Accumulation {

  /** The union of `f(k)` over the items `ks`, added in order. */
  function Union<K, V>(ks: seq<K>, f: K -> set<V>): set<V>
    decreases |ks|
  {
    if ks == [] then {} else Union(ks[..|ks| - 1], f) + f(ks[|ks| - 1])
  }

  /** An element is in the union exactly when some item contributes it. */
  lemma {:induction false} UnionMembers<K, V>(ks: seq<K>, f: K -> set<V>)
    ensures forall v :: v in Union(ks, f) ==> exists i :: 0 <= i < |ks| && v in f(ks[i])
    ensures forall i, v :: 0 <= i < |ks| && v in f(ks[i]) ==> v in Union(ks, f)
    decreases |ks|
  {
    if ks != [] {
      var pre := ks[..|ks| - 1];
      UnionMembers(pre, f);
      forall v | v in Union(ks, f)
        ensures exists i :: 0 <= i < |ks| && v in f(ks[i])
      {
        if v in Union(pre, f) {
          var i :| 0 <= i < |pre| && v in f(pre[i]);
          assert ks[i] == pre[i];
        }
      }
      forall i, v | 0 <= i < |ks| && v in f(ks[i])
        ensures v in Union(ks, f)
      {
        if i < |ks| - 1 {
          assert pre[i] == ks[i];
        }
      }
    }
  }

  /** The union only grows as more items are added. */
  lemma {:induction false} UnionGrows<K, V>(ks: seq<K>, f: K -> set<V>, i: nat, j: nat)
    requires i <= j <= |ks|
    ensures Union(ks[..i], f) <= Union(ks[..j], f)
    decreases j - i
  {
    if i < j {
      UnionGrows(ks, f, i, j - 1);
      assert ks[..j][..j - 1] == ks[..j - 1];
    }
  }

  /** The union depends on which items there are, not on their order or repetition. */
  lemma UnionOrderIrrelevant<K, V>(ks: seq<K>, ls: seq<K>, f: K -> set<V>)
    requires forall k :: k in ks <==> k in ls
    ensures Union(ks, f) == Union(ls, f)
  {
    UnionMembers(ks, f);
    UnionMembers(ls, f);
    forall v | v in Union(ks, f) ensures v in Union(ls, f) {
      var i :| 0 <= i < |ks| && v in f(ks[i]);
      assert ks[i] in ls;
      var j :| 0 <= j < |ls| && ls[j] == ks[i];
    }
    forall v | v in Union(ls, f) ensures v in Union(ks, f) {
      var j :| 0 <= j < |ls| && v in f(ls[j]);
      assert ls[j] in ks;
      var i :| 0 <= i < |ks| && ks[i] == ls[j];
    }
  }
}
