/**
  Label derivation: the subject's own label, overridden by a synthesised date
  range for midnight-aligned gregorian intervals, and then stripped of a
  classification-code prefix up to the first colon.
 */
module Labels {
  import opened Rdf
  import opened PyStrings

  /** The begin and end lookups of subject `Iri(r)`. */
  function Beginning(r: string, g: Description, sel: Selector): Option<Term>
  {
    sel(g, Iri(r), Iri(TIME_HAS_BEGINNING))
  }

  function End(r: string, g: Description, sel: Selector): Option<Term>
  {
    sel(g, Iri(r), Iri(TIME_HAS_END))
  }

  /**
    The date-range override applies: the subject is a gregorian interval and
    both its begin and its end exist and end at midnight.
   */
  predicate RangeApplies(r: string, g: Description, sel: Selector)
  {
    && StartsWith(r, GREGORIAN_INTERVAL)
    && Beginning(r, g, sel).Some? && End(r, g, sel).Some?
    && EndsWith(Str(Beginning(r, g, sel).value), MIDNIGHT)
    && EndsWith(Str(End(r, g, sel).value), MIDNIGHT)
  }

  /** The day of an instant: its text without as many leading characters as the instant namespace has and without the midnight suffix. */
  function Day(instant: Term): (day: string)
    ensures var text := Str(instant);
      |GREGORIAN_INSTANT| + |MIDNIGHT| <= |text| ==>
        text == text[..|GREGORIAN_INSTANT|] + day + text[|text| - |MIDNIGHT|..]
    ensures |Str(instant)| <= |GREGORIAN_INSTANT| + |MIDNIGHT| ==> day == ""
  {
    Slice(Str(instant), |GREGORIAN_INSTANT|, -|MIDNIGHT|)
  }

  /** The synthesised `start–end` label. */
  function RangeLabel(start: Term, end: Term): Term
  {
    Lit(Day(start) + SEP + Day(end), Plain)
  }

  /**
    main.py:94-102: the label chosen before the colon rule. When the range rule
    applies it is the synthesised range, otherwise the subject's own label.
    Under the library's guarantee: there is none only when `g` has no label
    and the range rule does not apply; a range is built from a begin and an
    end value that `g` holds; an own label is a label value `g` holds.
   */
  function SelectedLabel(r: string, g: Description, sel: Selector): (l: Option<Term>)
    ensures RangeApplies(r, g, sel) ==> l == Some(RangeLabel(Beginning(r, g, sel).value, End(r, g, sel).value))
    ensures !RangeApplies(r, g, sel) ==> l == sel(g, Iri(r), Iri(RDFS_LABEL))
    ensures SoundSelector(sel) ==>
              (l.None? <==> !RangeApplies(r, g, sel) && forall o :: Triple(Iri(r), Iri(RDFS_LABEL), o) !in g)
    ensures SoundSelector(sel) && RangeApplies(r, g, sel) ==>
              && Triple(Iri(r), Iri(TIME_HAS_BEGINNING), Beginning(r, g, sel).value) in g
              && Triple(Iri(r), Iri(TIME_HAS_END), End(r, g, sel).value) in g
    ensures SoundSelector(sel) && !RangeApplies(r, g, sel) && l.Some? ==>
              Triple(Iri(r), Iri(RDFS_LABEL), l.value) in g
  {
    var s := Iri(r);
    assert SoundSelector(sel) ==> SoundAnswer(sel(g, s, Iri(RDFS_LABEL)), g, s, Iri(RDFS_LABEL));
    assert SoundSelector(sel) ==> SoundAnswer(sel(g, s, Iri(TIME_HAS_BEGINNING)), g, s, Iri(TIME_HAS_BEGINNING));
    assert SoundSelector(sel) ==> SoundAnswer(sel(g, s, Iri(TIME_HAS_END)), g, s, Iri(TIME_HAS_END));
    var own := sel(g, s, Iri(RDFS_LABEL));
    if StartsWith(r, GREGORIAN_INTERVAL) then
      var start, end := Beginning(r, g, sel), End(r, g, sel);
      if start.Some? && end.Some? && EndsWith(Str(start.value), MIDNIGHT) && EndsWith(Str(end.value), MIDNIGHT)
      then Some(RangeLabel(start.value, end.value))
      else own
    else own
  }

  /** The first character of `text` is a digit (`text[:1].isdigit()`). */
  function DigitLed(text: string): (b: bool)
    ensures b <==> |text| > 0 && IsDigit(text[0])
  {
    assert |text| > 0 ==> Slice(text, 0, 1) == [text[0]];
    IsDigits(Slice(text, 0, 1))
  }

  /**
    main.py:104-112: the label as stored. A label led by a digit, or without a
    colon (the empty label among them), is kept as it is, term and all;
    otherwise the stored label is a plain literal holding exactly the text
    after the first colon.
   */
  function StoredLabel(chosen: Term): (stored: Term)
    ensures var text := Str(chosen);
      (|text| > 0 && IsDigit(text[0])) || ':' !in text ==> stored == chosen
    ensures var text := Str(chosen);
      !(|text| > 0 && IsDigit(text[0])) && ':' in text ==>
        exists k :: 0 <= k < |text| && text[k] == ':' && (forall j :: 0 <= j < k ==> text[j] != ':') && stored == Lit(text[k + 1..], Plain)
    ensures EndsWith(Str(chosen), Str(stored))
  {
    var text := Str(chosen);
    assert EndsWith(text, text);
    if !DigitLed(text) then
      var colon := Find(text, ':');
      if colon >= 0 then
        assert text[|text| - |text[colon + 1..]|..] == text[colon + 1..];
        Lit(text[colon + 1..], Plain)
      else chosen
    else chosen
  }

  /** The label statement's object for subject `Iri(r)`, if it gets one. */
  function Label(r: string, g: Description, sel: Selector): (l: Option<Term>)
    ensures SoundSelector(sel) ==>
              (l.None? <==> !RangeApplies(r, g, sel) && forall o :: Triple(Iri(r), Iri(RDFS_LABEL), o) !in g)
    ensures l.Some? ==> SelectedLabel(r, g, sel).Some? && EndsWith(Str(SelectedLabel(r, g, sel).value), Str(l.value))
  {
    match SelectedLabel(r, g, sel)
    case None => None
    case Some(chosen) => Some(StoredLabel(chosen))
  }

  /** `o` is the one object of (s, p) in `g`. */
  ghost predicate OnlyValue(g: Description, s: Term, p: Term, o: Term)
  {
    Triple(s, p, o) in g && forall o' :: Triple(s, p, o') in g ==> o' == o
  }

  lemma OnlyValueSelected(sel: Selector, g: Description, s: Term, p: Term, o: Term)
    requires SoundSelector(sel)
    requires OnlyValue(g, s, p, o)
    ensures sel(g, s, p) == Some(o)
  {
    assert SoundAnswer(sel(g, s, p), g, s, p);
  }

  lemma NoValueSelected(sel: Selector, g: Description, s: Term, p: Term)
    requires SoundSelector(sel)
    requires forall o :: Triple(s, p, o) !in g
    ensures sel(g, s, p) == None
  {
    assert SoundAnswer(sel(g, s, p), g, s, p);
  }

  /**
    The gregorian override: for an interval with a single midnight begin and a
    single midnight end, the label is the two days joined by the separator,
    whatever explicit label the source has.
   */
  lemma RangeOverridesLabel(r: string, g: Description, sel: Selector, start: Term, end: Term)
    requires SoundSelector(sel)
    requires StartsWith(r, GREGORIAN_INTERVAL)
    requires OnlyValue(g, Iri(r), Iri(TIME_HAS_BEGINNING), start) && EndsWith(Str(start), MIDNIGHT)
    requires OnlyValue(g, Iri(r), Iri(TIME_HAS_END), end) && EndsWith(Str(end), MIDNIGHT)
    ensures SelectedLabel(r, g, sel) == Some(Lit(Day(start) + SEP + Day(end), Plain))
  {
    OnlyValueSelected(sel, g, Iri(r), Iri(TIME_HAS_BEGINNING), start);
    OnlyValueSelected(sel, g, Iri(r), Iri(TIME_HAS_END), end);
  }

  /** The day of an instant IRI of the gregorian-instant namespace. */
  lemma DayOfInstant(day: string)
    ensures Day(Iri(GREGORIAN_INSTANT + day + MIDNIGHT)) == day
  {
    SliceStripsAffixes(GREGORIAN_INSTANT, day, MIDNIGHT);
  }

  /** A date-range label whose first day starts with a digit passes the colon rule unchanged. */
  lemma RangeLabelStoredUnchanged(d1: string, d2: string)
    requires |d1| > 0 && IsDigit(d1[0])
    ensures StoredLabel(Lit(d1 + SEP + d2, Plain)) == Lit(d1 + SEP + d2, Plain)
  {
    assert (d1 + SEP + d2)[0] == d1[0];
  }

  /** The year 2019 as a gregorian interval: label `2019-01-01–2019-12-31`. */
  lemma GregorianYearExample(g: Description, sel: Selector, explicit: Term)
    requires SoundSelector(sel)
    requires g == {Triple(Iri(GREGORIAN_INTERVAL + "2019-01-01T00:00:00/P1Y"), Iri(TIME_HAS_BEGINNING),
                          Iri(GREGORIAN_INSTANT + "2019-01-01" + MIDNIGHT)),
                   Triple(Iri(GREGORIAN_INTERVAL + "2019-01-01T00:00:00/P1Y"), Iri(TIME_HAS_END),
                          Iri(GREGORIAN_INSTANT + "2019-12-31" + MIDNIGHT)),
                   Triple(Iri(GREGORIAN_INTERVAL + "2019-01-01T00:00:00/P1Y"), Iri(RDFS_LABEL), explicit)}
    ensures Label(GREGORIAN_INTERVAL + "2019-01-01T00:00:00/P1Y", g, sel) == Some(Lit("2019-01-01" + SEP + "2019-12-31", Plain))
  {
    var r := GREGORIAN_INTERVAL + "2019-01-01T00:00:00/P1Y";
    var start, end := Iri(GREGORIAN_INSTANT + "2019-01-01" + MIDNIGHT), Iri(GREGORIAN_INSTANT + "2019-12-31" + MIDNIGHT);
    assert TIME_HAS_BEGINNING[31] != TIME_HAS_END[31] && TIME_HAS_BEGINNING[21] != RDFS_LABEL[21];
    assert TIME_HAS_END[21] != RDFS_LABEL[21];
    assert StartsWith(r, GREGORIAN_INTERVAL) by { assert r[..|GREGORIAN_INTERVAL|] == GREGORIAN_INTERVAL; }
    assert EndsWith(Str(start), MIDNIGHT) by { assert Str(start)[|Str(start)| - |MIDNIGHT|..] == MIDNIGHT; }
    assert EndsWith(Str(end), MIDNIGHT) by { assert Str(end)[|Str(end)| - |MIDNIGHT|..] == MIDNIGHT; }
    RangeOverridesLabel(r, g, sel, start, end);
    DayOfInstant("2019-01-01");
    DayOfInstant("2019-12-31");
    RangeLabelStoredUnchanged("2019-01-01", "2019-12-31");
  }

  /** A classification-code prefix goes, the space after the colon stays. */
  lemma ColonPrefixExample()
    ensures StoredLabel(Lit("Q1: 2020", Plain)) == Lit(" 2020", Plain)
    ensures StoredLabel(Lit("Q1: 2020", Lang("en"))) == Lit(" 2020", Plain)
  {
    assert Find("Q1: 2020", ':') == 2;
  }

  /** Digit-led and empty labels are stored as they are. */
  lemma UnchangedLabelExamples(tag: LiteralTag)
    ensures StoredLabel(Lit("2020-21", tag)) == Lit("2020-21", tag)
    ensures StoredLabel(Lit("2020: Q1", tag)) == Lit("2020: Q1", tag)
    ensures StoredLabel(Lit("", tag)) == Lit("", tag)
  {
    assert DigitLed("2020-21") && DigitLed("2020: Q1");
    assert ':' !in "";
  }
}
