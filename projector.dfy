/**
  Statement projection: the statements about one subject that are copied from
  its parsed description into the output graph.
 */
module Projector {
  import opened Rdf
  import opened PyStrings

  /** The two interval types every resolved subject is given. */
  predicate IsMarker(o: Term)
  {
    o == Iri(INTERVALS_INTERVAL) || o == Iri(TIME_INTERVAL)
  }

  /** A predicate of the five-predicate allow-list. */
  predicate IsAllowListed(p: Term)
  {
    p.Iri? && p.iri in ALLOW_LIST
  }

  /** The source's own types of `s`, kept when their text is under the trusted namespace. */
  function SourceTypes(s: Term, g: Description): Description
  {
    set t | t in g && t.s == s && t.p == Iri(RDF_TYPE) && StartsWith(Str(t.o), TRUSTED_DEFINITIONS)
      :: Triple(s, Iri(RDF_TYPE), t.o)
  }

  /** The two interval types, added whatever the source says. */
  function MarkerTypes(s: Term): Description
  {
    {Triple(s, Iri(RDF_TYPE), Iri(INTERVALS_INTERVAL)), Triple(s, Iri(RDF_TYPE), Iri(TIME_INTERVAL))}
  }

  /** One looked-up value for each allow-listed predicate that has one. */
  function AllowListed(s: Term, g: Description, sel: Selector): Description
  {
    set p | p in ALLOW_LIST && sel(g, s, Iri(p)).Some? :: Triple(s, Iri(p), sel(g, s, Iri(p)).value)
  }

  lemma TypeIsNotAllowListed()
    ensures !IsAllowListed(Iri(RDF_TYPE))
  {
    assert RDF_TYPE[11] != SCOVO_MIN[11];
    assert RDF_TYPE[11] != SCOVO_MAX[11];
    assert RDF_TYPE[18] != TIME_HAS_BEGINNING[18];
    assert RDF_TYPE[18] != TIME_HAS_END[18];
    assert RDF_TYPE[18] != RDFS_COMMENT[18];
  }

  /**
    main.py:84-92 for subject `Iri(r)`: trusted source types, the two interval
    types, and at most one value per allow-listed predicate, namely the one the
    lookup returns; nothing else and no other subject.
   */
  function Projection(r: string, g: Description, sel: Selector): (out: Description)
    ensures forall t :: t in out ==> t.s == Iri(r)
    ensures forall t :: t in out ==> t.p == Iri(RDF_TYPE) || IsAllowListed(t.p)
    ensures MarkerTypes(Iri(r)) <= out
    ensures forall o :: Triple(Iri(r), Iri(RDF_TYPE), o) in out
                    <==> IsMarker(o) || (Triple(Iri(r), Iri(RDF_TYPE), o) in g && StartsWith(Str(o), TRUSTED_DEFINITIONS))
    ensures forall p, o :: p in ALLOW_LIST ==>
              (Triple(Iri(r), Iri(p), o) in out <==> sel(g, Iri(r), Iri(p)) == Some(o))
  {
    var s := Iri(r);
    TypeIsNotAllowListed();
    SourceTypes(s, g) + MarkerTypes(s) + AllowListed(s, g, sel)
  }
}
