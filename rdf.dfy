/**
  RDF terms and statements as the resolver sees them once the RDF library has
  parsed a payload, the vocabulary the resolver writes, and the single-value
  lookup `Graph.value(s, p)` of the library, kept abstract as a `Selector`.
 */
module Rdf {

  datatype Option<T> = None | Some(value: T)

  /** What a literal carries beyond its lexical form. */
  datatype LiteralTag = Plain | Lang(language: string) | Typed(datatypeIri: string)

  /** An RDF node: an IRI reference, a blank node or a literal. */
  datatype Term = Iri(iri: string) | Blank(id: string) | Lit(lexical: string, tag: LiteralTag)

  /** A statement (subject, predicate, object). */
  datatype Triple = Triple(s: Term, p: Term, o: Term)

  /** A parsed description, and also the output graph: a set of statements. */
  type Description = set<Triple>

  /** The text of a term, as Python's `str` gives it for every kind of node. */
  function Str(t: Term): string
  {
    match t
    case Iri(i) => i
    case Blank(b) => b
    case Lit(l, _) => l
  }

  /**
    `g.value(s, p)`: some object of a statement with subject `s` and predicate
    `p` in `g`, or none. Which object is returned when there are several is the
    library's business; the model fixes no choice.
   */
  type Selector = (Description, Term, Term) -> Option<Term>

  /** The answer `v` of a lookup is an object of `g` for (s, p), and "none" only when there is none. */
  ghost predicate SoundAnswer(v: Option<Term>, g: Description, s: Term, p: Term)
  {
    match v
    case Some(o) => Triple(s, p, o) in g
    case None => forall o :: Triple(s, p, o) !in g
  }

  /** What every lookup of the RDF library guarantees. */
  ghost predicate SoundSelector(sel: Selector)
  {
    forall g: Description, s: Term, p: Term :: SoundAnswer(sel(g, s, p), g, s, p)
  }

  // Namespaces and terms written by the resolver.
  const RDF_TYPE: string := "http://www.w3.org/1999/02/22-rdf-syntax-ns#type"
  const RDFS_LABEL: string := "http://www.w3.org/2000/01/rdf-schema#label"
  const RDFS_COMMENT: string := "http://www.w3.org/2000/01/rdf-schema#comment"
  const SCOVO_MIN: string := "http://purl.org/NET/scovo#min"
  const SCOVO_MAX: string := "http://purl.org/NET/scovo#max"
  const TIME_HAS_BEGINNING: string := "http://www.w3.org/2006/time#hasBeginning"
  const TIME_HAS_END: string := "http://www.w3.org/2006/time#hasEnd"
  const TIME_INTERVAL: string := "http://www.w3.org/2006/time#Interval"
  const INTERVALS_INTERVAL: string := "http://reference.data.gov.uk/def/intervals/Interval"

  /** Source types are copied only from this namespace. */
  const TRUSTED_DEFINITIONS: string := "http://reference.data.gov.uk/def/"

  /** The descriptive predicates copied with one value each, in the order they are looked up. */
  const ALLOW_LIST: seq<string> := [SCOVO_MIN, SCOVO_MAX, TIME_HAS_BEGINNING, TIME_HAS_END, RDFS_COMMENT]

  const GREGORIAN_INTERVAL: string := "http://reference.data.gov.uk/id/gregorian-interval/"
  const GREGORIAN_INSTANT: string := "http://reference.data.gov.uk/id/gregorian-instant/"

  /** The suffix of a midnight-aligned instant. */
  const MIDNIGHT: string := "T00:00:00"

  /** The separator of a synthesised date-range label: an en dash. */
  const SEP: string := "\U{2013}"
}
