/**
  The resolve loop: every candidate is fetched once, in order; one whose fetch
  status is not 200 is skipped, and for every other one the projection of its
  description and its label are added to the output graph.
 */
module Resolver {
  import opened Rdf
  import opened PyStrings
  import opened Discovery
  import opened Projector
  import opened Labels
  import opened Accumulation

  /** `requests.codes.ok` */
  const HTTP_OK: int := 200

  /** The outcome of requesting one candidate as Turtle: the status, and the parsed payload when it is 200. */
  datatype Response = Response(status: int, description: Description)

  /** The HTTP fetch and the Turtle parse of a candidate IRI. */
  type Fetcher = string -> Response

  /** The label statement of subject `Iri(r)`: none, or one. */
  function LabelStatement(r: string, g: Description, sel: Selector): (out: Description)
    ensures forall t :: t in out ==> t.s == Iri(r) && t.p == Iri(RDFS_LABEL)
    ensures forall t, u :: t in out && u in out ==> t == u
    ensures out == {} <==> SelectedLabel(r, g, sel).None?
    ensures SelectedLabel(r, g, sel).Some? ==>
              out == {Triple(Iri(r), Iri(RDFS_LABEL), StoredLabel(SelectedLabel(r, g, sel).value))}
  {
    match Label(r, g, sel)
    case None => {}
    case Some(l) => {Triple(Iri(r), Iri(RDFS_LABEL), l)}
  }

  /**
    Everything one successfully fetched candidate adds (main.py:83-112): it is
    about the candidate, holds both interval types, and its label statements
    are exactly the stored label, if there is one.
   */
  function Definition(r: string, g: Description, sel: Selector): (out: Description)
    ensures forall t :: t in out ==> t.s == Iri(r)
    ensures MarkerTypes(Iri(r)) <= out
    ensures forall l :: Triple(Iri(r), Iri(RDFS_LABEL), l) in out <==> Label(r, g, sel) == Some(l)
  {
    LabelNotType();
    Projection(r, g, sel) + LabelStatement(r, g, sel)
  }

  /** What candidate `r` adds to the output graph: something exactly when its fetch status is OK, and only about `r`. */
  function Contribution(r: string, fetch: Fetcher, sel: Selector): (out: Description)
    ensures out != {} <==> fetch(r).status == HTTP_OK
    ensures forall t :: t in out ==> t.s == Iri(r)
  {
    var response := fetch(r);
    if response.status == HTTP_OK then
      assert Triple(Iri(r), Iri(RDF_TYPE), Iri(TIME_INTERVAL)) in MarkerTypes(Iri(r));
      Definition(r, response.description, sel)
    else {}
  }

  /** Every candidate's contribution, as one function. */
  function Contributions(fetch: Fetcher, sel: Selector): string -> Description
  {
    r => Contribution(r, fetch, sel)
  }

  /** The output graph after processing the candidates `cs` in order. */
  function Resolved(cs: seq<string>, fetch: Fetcher, sel: Selector): Description
  {
    Union(cs, Contributions(fetch, sel))
  }

  /** The loop of main.py:73-112 over the candidates, accumulating into `result`. */
  method Resolve(candidates: seq<string>, fetch: Fetcher, sel: Selector) returns (result: Description)
    ensures result == Resolved(candidates, fetch, sel)
    ensures forall t :: t in result <==> exists i :: 0 <= i < |candidates| && t in Contribution(candidates[i], fetch, sel)
  {
    result := {};
    var i := 0;
    while i < |candidates|
      invariant 0 <= i <= |candidates|
      invariant result == Resolved(candidates[..i], fetch, sel)
    {
      assert candidates[..i + 1][..i] == candidates[..i];
      var refURI := candidates[i];
      var response := fetch(refURI);
      if response.status != HTTP_OK {
        i := i + 1;
        continue;
      }
      var g := response.description;
      var s := Iri(refURI);
      result := result + SourceTypes(s, g);
      result := result + MarkerTypes(s);
      result := result + AllowListed(s, g, sel);
      var chosen := SelectedLabel(refURI, g, sel);
      if chosen.Some? {
        result := result + {Triple(Iri(refURI), Iri(RDFS_LABEL), StoredLabel(chosen.value))};
      }
      i := i + 1;
    }
    assert candidates[..i] == candidates;
    ResolvedMembers(candidates, fetch, sel);
  }

  /** A statement is in the output graph exactly when some candidate contributes it. */
  lemma ResolvedMembers(cs: seq<string>, fetch: Fetcher, sel: Selector)
    ensures forall t :: t in Resolved(cs, fetch, sel) <==> exists i :: 0 <= i < |cs| && t in Contribution(cs[i], fetch, sel)
  {
    UnionMembers(cs, Contributions(fetch, sel));
  }

  lemma LabelNotType()
    ensures RDF_TYPE != RDFS_LABEL && !IsAllowListed(Iri(RDFS_LABEL))
  {
    assert RDF_TYPE[18] != RDFS_LABEL[18];
    assert RDFS_LABEL[11] != SCOVO_MIN[11] && RDFS_LABEL[11] != SCOVO_MAX[11];
    assert RDFS_LABEL[21] != TIME_HAS_BEGINNING[21] && RDFS_LABEL[21] != TIME_HAS_END[21];
    assert RDFS_LABEL[38] != RDFS_COMMENT[38];
  }

  /** What one candidate contributes is about that candidate only, only if it fetched OK, and only under the written predicates. */
  lemma ContributionShape(r: string, fetch: Fetcher, sel: Selector, t: Triple)
    requires t in Contribution(r, fetch, sel)
    ensures fetch(r).status == HTTP_OK && t.s == Iri(r)
    ensures t.p == Iri(RDF_TYPE) || t.p == Iri(RDFS_LABEL) || IsAllowListed(t.p)
  {
  }

  /**
    Every statement of the output graph is about a candidate that fetched OK,
    under `rdf:type`, `rdfs:label` or an allow-listed predicate.
   */
  lemma ResolvedShape(cs: seq<string>, fetch: Fetcher, sel: Selector, t: Triple)
    requires t in Resolved(cs, fetch, sel)
    ensures exists i :: 0 <= i < |cs| && t.s == Iri(cs[i]) && fetch(cs[i]).status == HTTP_OK
    ensures t.p == Iri(RDF_TYPE) || t.p == Iri(RDFS_LABEL) || IsAllowListed(t.p)
  {
    ResolvedMembers(cs, fetch, sel);
    var i :| 0 <= i < |cs| && t in Contribution(cs[i], fetch, sel);
    ContributionShape(cs[i], fetch, sel, t);
  }

  /** A candidate whose fetch status is not OK has no statement in the output graph. */
  lemma FailedFetchAddsNothing(cs: seq<string>, fetch: Fetcher, sel: Selector, r: string)
    requires fetch(r).status != HTTP_OK
    ensures forall t :: t in Resolved(cs, fetch, sel) ==> t.s != Iri(r)
  {
    forall t | t in Resolved(cs, fetch, sel) ensures t.s != Iri(r) {
      ResolvedShape(cs, fetch, sel, t);
    }
  }

  /** Every candidate that fetched OK has both interval types, whatever its source asserted. */
  lemma FetchedHasMarkers(cs: seq<string>, fetch: Fetcher, sel: Selector, i: nat)
    requires i < |cs| && fetch(cs[i]).status == HTTP_OK
    ensures Triple(Iri(cs[i]), Iri(RDF_TYPE), Iri(INTERVALS_INTERVAL)) in Resolved(cs, fetch, sel)
    ensures Triple(Iri(cs[i]), Iri(RDF_TYPE), Iri(TIME_INTERVAL)) in Resolved(cs, fetch, sel)
  {
    ResolvedMembers(cs, fetch, sel);
    assert MarkerTypes(Iri(cs[i])) <= Contribution(cs[i], fetch, sel);
  }

  /**
    A type of a subject in the output graph is one of the two interval types,
    or a type its source description asserts under the trusted namespace.
   */
  lemma ResolvedTypes(cs: seq<string>, fetch: Fetcher, sel: Selector, r: string, o: Term)
    requires Triple(Iri(r), Iri(RDF_TYPE), o) in Resolved(cs, fetch, sel)
    ensures fetch(r).status == HTTP_OK
    ensures IsMarker(o) ||
              (Triple(Iri(r), Iri(RDF_TYPE), o) in fetch(r).description && StartsWith(Str(o), TRUSTED_DEFINITIONS))
  {
    var t := Triple(Iri(r), Iri(RDF_TYPE), o);
    ResolvedMembers(cs, fetch, sel);
    var i :| 0 <= i < |cs| && t in Contribution(cs[i], fetch, sel);
    ContributionShape(cs[i], fetch, sel, t);
    LabelNotType();
    assert t in Projection(r, fetch(r).description, sel);
  }

  /**
    An allow-listed statement of the output graph carries exactly the value
    the lookup gives for its subject and predicate, and that value is one the
    source description holds.
   */
  lemma ResolvedValues(cs: seq<string>, fetch: Fetcher, sel: Selector, r: string, p: string, o: Term)
    requires SoundSelector(sel)
    requires p in ALLOW_LIST && Triple(Iri(r), Iri(p), o) in Resolved(cs, fetch, sel)
    ensures fetch(r).status == HTTP_OK
    ensures sel(fetch(r).description, Iri(r), Iri(p)) == Some(o)
    ensures Triple(Iri(r), Iri(p), o) in fetch(r).description
  {
    var t := Triple(Iri(r), Iri(p), o);
    var g := fetch(r).description;
    ResolvedMembers(cs, fetch, sel);
    var i :| 0 <= i < |cs| && t in Contribution(cs[i], fetch, sel);
    ContributionShape(cs[i], fetch, sel, t);
    LabelNotType();
    assert t in Projection(r, g, sel);
    assert SoundAnswer(sel(g, Iri(r), Iri(p)), g, Iri(r), Iri(p));
  }

  /**
    The label statements of the output graph: a subject has label `l` exactly
    when it is a candidate that fetched OK, a label was chosen for it, and `l`
    is that label as the colon rule stores it.
   */
  lemma ResolvedLabels(cs: seq<string>, fetch: Fetcher, sel: Selector, r: string, l: Term)
    ensures Triple(Iri(r), Iri(RDFS_LABEL), l) in Resolved(cs, fetch, sel) <==>
              && r in cs && fetch(r).status == HTTP_OK
              && SelectedLabel(r, fetch(r).description, sel).Some?
              && l == StoredLabel(SelectedLabel(r, fetch(r).description, sel).value)
  {
    var t := Triple(Iri(r), Iri(RDFS_LABEL), l);
    var g := fetch(r).description;
    ResolvedMembers(cs, fetch, sel);
    if t in Resolved(cs, fetch, sel) {
      var i :| 0 <= i < |cs| && t in Contribution(cs[i], fetch, sel);
      ContributionShape(cs[i], fetch, sel, t);
      assert cs[i] == r;
      assert t in Definition(r, g, sel);
    }
    if r in cs && fetch(r).status == HTTP_OK && SelectedLabel(r, g, sel).Some? && l == StoredLabel(SelectedLabel(r, g, sel).value) {
      var i :| 0 <= i < |cs| && cs[i] == r;
      assert Label(r, g, sel) == Some(l);
      assert t in Contribution(cs[i], fetch, sel);
    }
  }

  /** One candidate's definition holds at most one label and at most one value per allow-listed predicate. */
  lemma DefinitionSingleValued(r: string, g: Description, sel: Selector, t: Triple, u: Triple)
    requires t in Definition(r, g, sel) && u in Definition(r, g, sel)
    requires t.p == u.p && (t.p == Iri(RDFS_LABEL) || IsAllowListed(t.p))
    ensures t == u
  {
    LabelNotType();
    if t.p == Iri(RDFS_LABEL) {
      assert t in LabelStatement(r, g, sel) && u in LabelStatement(r, g, sel);
    } else {
      assert t in Projection(r, g, sel) && u in Projection(r, g, sel);
      assert t.p.iri in ALLOW_LIST;
      assert sel(g, Iri(r), t.p) == Some(t.o) && sel(g, Iri(r), u.p) == Some(u.o);
    }
  }

  /**
    Each subject has at most one `rdfs:label` statement and at most one value
    per allow-listed predicate in the output graph.
   */
  lemma ResolvedSingleValued(cs: seq<string>, fetch: Fetcher, sel: Selector, t: Triple, u: Triple)
    requires t in Resolved(cs, fetch, sel) && u in Resolved(cs, fetch, sel)
    requires t.s == u.s && t.p == u.p && (t.p == Iri(RDFS_LABEL) || IsAllowListed(t.p))
    ensures t == u
  {
    ResolvedMembers(cs, fetch, sel);
    var i :| 0 <= i < |cs| && t in Contribution(cs[i], fetch, sel);
    var j :| 0 <= j < |cs| && u in Contribution(cs[j], fetch, sel);
    ContributionShape(cs[i], fetch, sel, t);
    ContributionShape(cs[j], fetch, sel, u);
    assert cs[i] == cs[j];
    DefinitionSingleValued(cs[i], fetch(cs[i]).description, sel, t, u);
  }

  /**
    The whole run below the query: the bindings are grouped into candidates
    and the candidates resolved. Only resources named by a URI binding can
    have statements in the result.
   */
  method Run(bindings: seq<Binding>, fetch: Fetcher, sel: Selector) returns (result: Description)
    ensures forall t :: t in result <==> exists r :: IsCandidate(bindings, r) && t in Contribution(r, fetch, sel)
    ensures forall t :: t in result ==> exists r :: IsCandidate(bindings, r) && t.s == Iri(r) && fetch(r).status == HTTP_OK
  {
    var order, undefined := GroupCandidates(bindings);
    result := Resolve(order, fetch, sel);
    forall t | t in result
      ensures exists r :: IsCandidate(bindings, r) && t in Contribution(r, fetch, sel)
      ensures exists r :: IsCandidate(bindings, r) && t.s == Iri(r) && fetch(r).status == HTTP_OK
    {
      var i :| 0 <= i < |order| && t in Contribution(order[i], fetch, sel);
      assert order[i] in undefined;
      ContributionShape(order[i], fetch, sel, t);
    }
    forall t | exists r :: IsCandidate(bindings, r) && t in Contribution(r, fetch, sel)
      ensures t in result
    {
      var r :| IsCandidate(bindings, r) && t in Contribution(r, fetch, sel);
      assert r in order;
      var i :| 0 <= i < |order| && order[i] == r;
    }
  }

  /** The description of a year as its home location serves it: one trusted type and a label. */
  function YearDescription(r: string): Description
  {
    {Triple(Iri(r), Iri(RDF_TYPE), Iri(TRUSTED_DEFINITIONS + "intervals/Year")),
     Triple(Iri(r), Iri(RDFS_LABEL), Lit("2020", Plain))}
  }

  /**
    End to end: a year with the type `intervals/Year` and the label "2020"
    resolves to exactly four statements: its type, the two interval types and
    the label unchanged.
   */
  lemma YearEndToEnd(fetch: Fetcher, sel: Selector)
    requires SoundSelector(sel)
    requires fetch("http://reference.data.gov.uk/id/year/2020")
          == Response(HTTP_OK, YearDescription("http://reference.data.gov.uk/id/year/2020"))
    ensures var s := Iri("http://reference.data.gov.uk/id/year/2020");
      Resolved(["http://reference.data.gov.uk/id/year/2020"], fetch, sel)
        == {Triple(s, Iri(RDF_TYPE), Iri(TRUSTED_DEFINITIONS + "intervals/Year")),
            Triple(s, Iri(RDF_TYPE), Iri(INTERVALS_INTERVAL)),
            Triple(s, Iri(RDF_TYPE), Iri(TIME_INTERVAL)),
            Triple(s, Iri(RDFS_LABEL), Lit("2020", Plain))}
  {
    var r := "http://reference.data.gov.uk/id/year/2020";
    var s := Iri(r);
    var g := YearDescription(r);
    var year := Iri(TRUSTED_DEFINITIONS + "intervals/Year");
    LabelNotType();
    TypeIsNotAllowListed();
    // the label: the only one there is, not a gregorian interval, led by a digit
    OnlyValueSelected(sel, g, s, Iri(RDFS_LABEL), Lit("2020", Plain));
    assert !StartsWith(r, GREGORIAN_INTERVAL) by { assert r[32] != GREGORIAN_INTERVAL[32]; }
    assert Label(r, g, sel) == Some(Lit("2020", Plain));
    // no allow-listed predicate has a value
    forall p | p in ALLOW_LIST ensures sel(g, s, Iri(p)) == None {
      NoValueSelected(sel, g, s, Iri(p));
    }
    assert StartsWith(Str(year), TRUSTED_DEFINITIONS) by {
      assert Str(year)[..|TRUSTED_DEFINITIONS|] == TRUSTED_DEFINITIONS;
    }
    var expected := {Triple(s, Iri(RDF_TYPE), year), Triple(s, Iri(RDF_TYPE), Iri(INTERVALS_INTERVAL)),
                     Triple(s, Iri(RDF_TYPE), Iri(TIME_INTERVAL))};
    var out := Projection(r, g, sel);
    forall t | t in out ensures t in expected {
      assert t.s == s;
    }
    assert out == expected;
    assert [r][..0] == [];
  }
}
