/**
  Candidate grouping: the bindings of the discovery query are folded into the
  candidate resources, each with the set of dataset graphs that use it.
 */
module Discovery {
  import opened Rdf

  /**
    One query binding. `objectType` and `objectValue` are the `type` and `value`
    entries of its `o` field and `dsgraph` the `value` entry of its `dsgraph`
    field; an entry that is absent, or whose whole field is absent, is `None`.
   */
  datatype Binding = Binding(objectType: Option<string>, objectValue: Option<string>, dsgraph: Option<string>)

  /** The origins of one candidate: dataset graph IRIs, `None` for a binding without one. */
  type Origins = set<Option<string>>

  /** Binding `b` names resource `r`: its object is a URI whose value is `r`. */
  predicate Names(b: Binding, r: string)
  {
    b.objectType == Some("uri") && b.objectValue == Some(r)
  }

  /** `r` is a candidate of `bindings`: some binding names it. */
  ghost predicate IsCandidate(bindings: seq<Binding>, r: string)
  {
    exists i :: 0 <= i < |bindings| && Names(bindings[i], r)
  }

  /** The dataset graphs of the bindings that name `r`. */
  ghost function OriginsOf(bindings: seq<Binding>, r: string): Origins
  {
    set i | 0 <= i < |bindings| && Names(bindings[i], r) :: bindings[i].dsgraph
  }

  /** No resource occurs twice in `rs`. */
  predicate Distinct(rs: seq<string>)
  {
    forall a, b :: 0 <= a < b < |rs| ==> rs[a] != rs[b]
  }

  lemma OriginsOfStep(bindings: seq<Binding>, i: nat, r: string)
    requires i < |bindings|
    ensures OriginsOf(bindings[..i + 1], r)
         == OriginsOf(bindings[..i], r) + (if Names(bindings[i], r) then {bindings[i].dsgraph} else {})
  {
    var pre, post := bindings[..i], bindings[..i + 1];
    var extra := if Names(bindings[i], r) then {bindings[i].dsgraph} else {};
    forall d | d in OriginsOf(post, r)
      ensures d in OriginsOf(pre, r) + extra
    {
      var j :| 0 <= j < |post| && Names(post[j], r) && post[j].dsgraph == d;
      if j < i { assert pre[j] == post[j]; }
    }
    forall d | d in OriginsOf(pre, r) + extra
      ensures d in OriginsOf(post, r)
    {
      if d in OriginsOf(pre, r) {
        var j :| 0 <= j < |pre| && Names(pre[j], r) && pre[j].dsgraph == d;
        assert post[j] == pre[j];
      } else {
        assert post[i] == bindings[i];
      }
    }
  }

  /**
    The grouping loop. `order` lists the candidates in the order the loop first
    meets them (the iteration order of the dictionary); `undefined` maps each
    candidate to its origins. A binding whose object is not a URI or has no
    value never makes a candidate.
   */
  method GroupCandidates(bindings: seq<Binding>) returns (order: seq<string>, undefined: map<string, Origins>)
    ensures forall r :: r in undefined <==> IsCandidate(bindings, r)
    ensures forall r :: r in undefined ==> undefined[r] == OriginsOf(bindings, r)
    ensures Distinct(order)
    ensures forall r :: r in order <==> r in undefined
  {
    order, undefined := [], map[];
    var i := 0;
    while i < |bindings|
      invariant 0 <= i <= |bindings|
      invariant forall r :: r in undefined <==> IsCandidate(bindings[..i], r)
      invariant forall r :: r in undefined ==> undefined[r] == OriginsOf(bindings[..i], r)
      invariant Distinct(order)
      invariant forall r :: r in order <==> r in undefined
    {
      var binding := bindings[i];
      if binding.objectType == Some("uri") && binding.objectValue.Some? {
        var resource := binding.objectValue.value;
        var seen := if resource in undefined then undefined[resource] else {};
        if resource !in undefined {
          order := order + [resource];
        }
        undefined := undefined[resource := seen + {binding.dsgraph}];
      }
      forall r ensures IsCandidate(bindings[..i + 1], r) <==> IsCandidate(bindings[..i], r) || Names(bindings[i], r) {
        assert bindings[..i + 1][i] == bindings[i];
        assert forall j :: 0 <= j < i ==> bindings[..i + 1][j] == bindings[..i][j];
      }
      forall r {
        OriginsOfStep(bindings, i, r);
      }
      i := i + 1;
    }
    assert bindings[..i] == bindings;
  }
}
