# ref_period: resolving missing reference periods

The script `main.py` looks for time-period resources that datasets use as
reference-period dimension values but that the reference-intervals graph does
not define. It dereferences each one, builds a minimal definition and collects
those definitions in one output graph. This Dafny project models the script's
decision logic:

- **Candidate grouping** (`Discovery`). The bindings of the discovery query are
  folded into a map from resource IRI to the set of dataset graphs that use it.
  Only bindings whose object is a URI with a value count. The candidates keep
  the order in which the loop first meets them.
- **Statement projection** (`Projector`). From one subject's parsed description
  it copies three things: the `rdf:type` values under
  `http://reference.data.gov.uk/def/`, the two interval types
  (`intervals:Interval` and `time:Interval`), and one looked-up value for each
  of `scovo:min`, `scovo:max`, `time:hasBeginning`, `time:hasEnd` and
  `rdfs:comment`.
- **Label derivation** (`Labels`). The subject's own `rdfs:label` is replaced by
  a synthesised `start–end` range for gregorian intervals whose begin and end
  both end in `T00:00:00`. Then a prefix up to the first colon is removed,
  unless the label starts with a digit.
- **The resolve loop** (`Resolver`). Each candidate is fetched once. A candidate
  whose status is not 200 is skipped. For every other candidate, its projection
  and its label are added to the output graph.

The RDF library and the network become inputs:
- A parsed description is a set of `Triple`s over `Term`s. A term is an IRI, a
  blank node, or a literal carrying a language or datatype tag.
- `Graph.value(s, p)` is a `Selector` function parameter. The model does not fix
  which value it picks. `SoundSelector` states what rdflib guarantees: the
  value it returns belongs to the graph, and it returns none only when the
  graph has no value.
- Fetching and parsing together are a `Fetcher` function parameter, from an IRI
  to a `Response` (the HTTP status and the parsed description).

`PyStrings` gives the Python string semantics the label rule depends on:
- `startswith` and `endswith`;
- slices with clamped and negative bounds;
- `find` of one character;
- `isdigit`.

Some behaviours of the code are worth spelling out, and the model follows them:
- **Parse errors.** A payload that does not parse raises an exception at
  main.py:82, and nothing catches it, so the run stops. The model takes the
  parsed description as given.
- **Allow-listed predicates.** A predicate with several values still gets one:
  whichever value `Graph.value` returns.
- **Gregorian days.** A day is cut out of an endpoint by dropping
  `len(GREGORIAN_INSTANT)` characters and the nine-character midnight suffix.
  The code never checks that the endpoint really starts with the
  gregorian-instant namespace. `Labels.Day` is written the same way.
- **Type filter.** The trusted-namespace test is applied to `str(t)`. A literal
  whose text starts with the namespace is therefore copied too.
- **Rewritten labels.** A label rewritten by the colon rule or by the range rule
  becomes a plain literal, so any language or datatype tag is lost. A label
  kept unchanged keeps its term.

## Model

| member | source | states |
|---|---|---|
| `Discovery.GroupCandidates` | main.py:52-66 | a resource is a key exactly when some binding names it as a URI with a value, so non-URI and valueless bindings never make a candidate; each key maps to exactly the `dsgraph` values (absent ones included) of the bindings naming it; the key order has no repeats and holds exactly the keys |
| `PyStrings.Slice` | main.py:101-102 | a Python slice is never longer than the text and is always a contiguous piece of it, whatever the bounds |
| `PyStrings.SliceInRange` | main.py:101-102 | with bounds `0 <= i <= j <= len(s)` the slice is exactly the characters from `i` up to `j` |
| `PyStrings.SliceNegativeBound` | main.py:101-102 | a negative end bound `-m` with `0 < m <= len(s)` means the same as `len(s) - m` |
| `PyStrings.SliceClampsPastEnd` | main.py:101-102 | an end bound past the text means the end of the text |
| `PyStrings.Find` | main.py:106 | `find` returns -1 exactly when the character is absent; otherwise it returns a position holding the character with no earlier occurrence |
| `PyStrings.SliceStripsAffixes` | main.py:101-102 | slicing `[len(p):-len(q)]` out of `p + d + q` gives back exactly `d` |
| `PyStrings.SliceOverlapEmpty` | main.py:101-102 | when the prefix length and the suffix length together exceed the text, the clamped slice is empty |
| `Projector.Projection` | main.py:83-92 | every projected statement has the candidate as subject and `rdf:type` or an allow-listed predicate; both interval types are always there; a type is projected exactly when it is an interval type or a source type whose text starts with the trusted namespace; an allow-listed predicate has exactly the value the lookup returns, and none when the lookup returns none |
| `Labels.Day` | main.py:101-102 | an endpoint long enough is exactly `len(GREGORIAN_INSTANT)` leading characters, then the day, then the nine-character midnight suffix; a shorter one gives the empty day |
| `Labels.DigitLed` | main.py:105 | `label[:1].isdigit()` holds exactly when the label is not empty and its first character is a digit |
| `Labels.StoredLabel` | main.py:104-112 | a label led by a digit, or without a colon (the empty label included), is stored unchanged; otherwise the stored label is a plain literal holding exactly the text after the first colon, with nothing trimmed; in every case the stored text is a suffix of the chosen text |
| `Labels.SelectedLabel` | main.py:94-102 | when the range rule applies (gregorian interval, begin and end both present and ending at midnight) the chosen label is the range of the two endpoints, otherwise the subject's own label lookup; under the library's guarantee, no label is chosen exactly when the range rule does not apply and the source has no `rdfs:label`, a range is built from a begin and an end the source holds, and an own label is a `rdfs:label` value the source holds |
| `Labels.Label` | main.py:94-112 | under the library's guarantee, a subject gets no label exactly when the range rule does not apply and the source has no `rdfs:label`; a label it gets is a suffix of the chosen label's text |
| `Labels.RangeOverridesLabel` | main.py:96-102 | for a gregorian interval with one midnight begin and one midnight end, the chosen label is `Day(start) + SEP + Day(end)`, whatever explicit label the source has |
| `Labels.DayOfInstant` | main.py:101-102 | the day cut out of `GREGORIAN_INSTANT + day + "T00:00:00"` is `day` |
| `Labels.RangeLabelStoredUnchanged` | main.py:101-112 | a range label whose first day starts with a digit passes the colon rule unchanged, whatever the days contain |
| `Labels.GregorianYearExample` | main.py:94-112 | begin `.../gregorian-instant/2019-01-01T00:00:00` and end `.../2019-12-31T00:00:00` give the stored label `2019-01-01–2019-12-31`, replacing an explicit label |
| `Labels.OnlyValueSelected` | main.py:90 | when a subject and predicate have a single value, the lookup returns it |
| `Labels.NoValueSelected` | main.py:90 | when a subject and predicate have no value, the lookup returns none |
| `Labels.ColonPrefixExample` | main.py:104-108 | `"Q1: 2020"` is stored as the plain literal `" 2020"`, even when it carried a language tag |
| `Labels.UnchangedLabelExamples` | main.py:104-112 | `"2020-21"`, `"2020: Q1"` and `""` are stored unchanged, tag included |
| `Resolver.LabelStatement` | main.py:104-112 | a candidate gets at most one label statement, about itself; it gets none exactly when no label was chosen; when one was chosen, the statement's object is that label as the colon rule stores it |
| `Resolver.Definition` | main.py:83-112 | one candidate's definition is about the candidate only, holds both interval types, and has label `l` exactly when `l` is the candidate's stored label |
| `Resolver.Contribution` | main.py:76-112 | a candidate contributes something exactly when its status is 200, and only statements about itself |
| `Resolver.Resolve` | main.py:73-112 | the loop's result is the accumulated graph `Resolved`; a statement is in it exactly when some candidate's contribution holds it |
| `Resolver.ResolvedMembers` | main.py:73-112 | a statement is in the output graph exactly when some candidate in the sequence contributes it |
| `Resolver.ContributionShape` | main.py:76-112 | what a candidate contributes exists only if its status is 200, is about that candidate, and uses only `rdf:type`, `rdfs:label` or an allow-listed predicate |
| `Resolver.ResolvedShape` | main.py:73-112 | every output statement has as subject a candidate whose status is 200, and uses only `rdf:type`, `rdfs:label` or an allow-listed predicate |
| `Resolver.FailedFetchAddsNothing` | main.py:76-80 | a candidate whose status is not 200 has no statement in the output graph |
| `Resolver.FetchedHasMarkers` | main.py:87-88 | every candidate with status 200 has both `intervals:Interval` and `time:Interval` as types in the output graph |
| `Resolver.ResolvedTypes` | main.py:84-88 | every output type of a subject is an interval type, or a type its source asserts whose text starts with `http://reference.data.gov.uk/def/` |
| `Resolver.ResolvedValues` | main.py:89-92 | an allow-listed output statement carries exactly the value the lookup returns for that subject and predicate, and the source holds that value |
| `Resolver.ResolvedLabels` | main.py:94-112 | the output graph labels a subject with `l` exactly when it is a candidate with status 200, a label was chosen for it, and `l` is that label as the colon rule stores it |
| `Resolver.DefinitionSingleValued` | main.py:89-112 | one candidate's definition holds at most one label and at most one value per allow-listed predicate |
| `Resolver.ResolvedSingleValued` | main.py:73-112 | in the output graph each subject has at most one `rdfs:label` statement and at most one value per allow-listed predicate |
| `Accumulation.UnionMembers` | main.py:73-112 | an element is in the accumulated set exactly when some item of the sequence contributes it |
| `Accumulation.UnionGrows` | main.py:73-112 | the set accumulated over the first `i` items is contained in the set accumulated over the first `j >= i` items, since the loop only ever adds |
| `Accumulation.UnionOrderIrrelevant` | main.py:74 | the accumulated set depends only on which items there are, not on their order or repetition, so the dictionary's iteration order does not matter |
| `Resolver.YearEndToEnd` | main.py:73-112 | one candidate typed `def/intervals/Year` and labelled `"2020"` resolves to exactly four statements: its type, the two interval types and the unchanged label |
| `Resolver.Run` | main.py:59-112 | after grouping and resolving, a statement is in the result exactly when some resource named by a URI binding contributes it; every subject in the result is such a resource and had status 200 |

## Left out

- The discovery query: the request, `raise_for_status`, and the endpoint taken from the environment with its fallback (main.py:13-50). This is network I/O and configuration. The model starts from the query's bindings.
- The result counting at main.py:54-57. Line 54 reads `results` and `bindings` without defaults, so a response missing either key raises there and stops the run before the loop at line 59; that failure is not modelled, and neither is the count it prints. Reading the JSON body is outside the model as well: `GroupCandidates` takes the bindings as a sequence.
- The HTTP fetch (main.py:75). It becomes the `Fetcher` parameter. A transport error raises an exception that main.py does not catch, so it is not modelled.
- Turtle parsing (main.py:81-82) and serialisation to `missing-intervals.ttl` (main.py:114-115) belong to the RDF library. A parse error stops the run and is not modelled.
- The `cachecontrol` imports (main.py:4-6), which are never used.
- Every `print` diagnostic (main.py:21, 55-57, 61, 77-79). This includes the listing of a failed candidate's origins. The origins are modelled but not printed.
- Which value `Graph.value` returns when there are several. The model keeps it abstract as `Selector`.
- `PyStrings.IsDigit`: it accepts only ASCII `0`-`9`. Python's `isdigit` also accepts other Unicode digits, such as superscripts and non-Latin decimal digits.
- The inner loops over `g.objects(s, RDF.type)` and over the allow-list (main.py:84-92) are written as set comprehensions. They only add to a set, so their order cannot be observed.
- Literal datatypes are modelled only as tags. rdflib's value conversion and literal equality by value are not.
- The output graph is a local set value that the loop reassigns. It is not an object updated in place, because nothing else refers to it while the loop runs.
- `SEP`: main.py:101 spells the range separator as the three characters `â€“`, the UTF-8 bytes of an en dash read as Windows-1252. The model fixes it as the single en dash U+2013. No proved property depends on which text the separator is.
