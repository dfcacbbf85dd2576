/** The booking service's search: the window of acceptable start dates
    around a requested date, and the selection its SPARQL query makes from
    the cottage catalog.  The query engine is not modelled; what is modelled
    is the conjunction of its FILTER clauses, as a predicate over cottage
    records. */
module RdfOperations {
  import opened Wrappers
  import opened CivilDate
  import opened DateText
  import opened BookingWindow

  /** `calculate_date_range`: `int(shift)`, then `strptime(start)`, then
      `start - shift` and `start + shift`, both printed as `%Y-%m-%d`. */
  function CalculateDateRange(startText: string, shiftText: string): (r: Result<(string, string)>)
    ensures r.Ok? <==>
      && ParseInt(shiftText).Ok?
      && ParseDate(startText).Ok?
      && WindowFits(ParseDate(startText).value, ParseInt(shiftText).value)
    ensures r.Err? ==>
      r.error == (if ParseInt(shiftText).Err? then NotAnInteger(shiftText)
                  else if ParseDate(startText).Err? then MalformedDate(startText)
                  else DateOverflow)
  {
    var shift :- ParseInt(shiftText);
    var w :- ShiftWindow(startText, shift);
    Ok((Format(FromOrdinal(w.earliest)), Format(FromOrdinal(w.latest))))
  }

  /** The two ends are the text of the ends of the shift window. */
  lemma DateRangeWindow(startText: string, shiftText: string)
    requires CalculateDateRange(startText, shiftText).Ok?
    ensures ShiftWindow(startText, ParseInt(shiftText).value).Ok?
    ensures var w := ShiftWindow(startText, ParseInt(shiftText).value).value;
      CalculateDateRange(startText, shiftText).value ==
        (Format(FromOrdinal(w.earliest)), Format(FromOrdinal(w.latest)))
  {
  }

  /** Both ends parse back to the dates `shift` days either side of the
      start; for a non-negative shift the earliest comes first in string
      order and the two are `2 * shift` days apart. */
  lemma DateRangeSpan(startText: string, shiftText: string)
    requires CalculateDateRange(startText, shiftText).Ok?
    ensures var r, start, shift := CalculateDateRange(startText, shiftText).value, ParseDate(startText).value, ParseInt(shiftText).value;
      && ParseDate(r.0).Ok? && Ordinal(ParseDate(r.0).value) == Ordinal(start) - shift
      && ParseDate(r.1).Ok? && Ordinal(ParseDate(r.1).value) == Ordinal(start) + shift
      && (shift >= 0 ==> LexLe(r.0, r.1))
  {
    DateRangeWindow(startText, shiftText);
    var w := ShiftWindow(startText, ParseInt(shiftText).value).value;
    var earliest, latest := FromOrdinal(w.earliest), FromOrdinal(w.latest);
    ParseFormat(earliest);
    ParseFormat(latest);
    FormatOrder(earliest, latest);
  }

  /** The two strings are the formatted results of `start - timedelta(days=shift)`
      and `start + timedelta(days=shift)`. */
  lemma DateRangeIsTimedelta(startText: string, shiftText: string)
    requires CalculateDateRange(startText, shiftText).Ok?
    ensures var start, shift := ParseDate(startText).value, ParseInt(shiftText).value;
      && AddDays(start, -shift).Ok? && AddDays(start, shift).Ok?
      && CalculateDateRange(startText, shiftText).value ==
           (Format(AddDays(start, -shift).value), Format(AddDays(start, shift).value))
  {
    var start, shift := ParseDate(startText).value, ParseInt(shiftText).value;
    WindowAroundIsTimedelta(start, shift);
  }

  /** The variables the query binds for one cottage. */
  datatype Cottage = Cottage(
    address: string,
    places: int,
    bedrooms: int,
    distanceToLake: int,
    nearestCity: string,
    imageURL: string,
    startDate: string,
    availableDays: int,
    distanceToCity: int)

  /** The search parameters substituted into the FILTER clauses. */
  datatype Criteria = Criteria(
    numPlaces: int,
    numBedrooms: int,
    maxLakeDist: int,
    city: string,
    maxCityDist: int,
    requiredDays: int)

  /** The date FILTER: `str(?startDate)` between the two ends, compared as strings. */
  predicate InDateRange(c: Cottage, range: (string, string)) {
    LexLe(range.0, c.startDate) && LexLe(c.startDate, range.1)
  }

  /** The conjunction of all seven FILTER clauses. */
  predicate Kept(c: Cottage, q: Criteria, range: (string, string)) {
    && c.places >= q.numPlaces
    && c.bedrooms >= q.numBedrooms
    && c.distanceToLake <= q.maxLakeDist
    && c.distanceToCity <= q.maxCityDist
    && c.nearestCity == q.city
    && c.availableDays >= q.requiredDays
    && InDateRange(c, range)
  }

  /** The solutions of the query over a catalog, in catalog order. */
  function SelectCottages(catalog: seq<Cottage>, q: Criteria, range: (string, string)): (r: seq<Cottage>)
    ensures forall c :: c in r <==> c in catalog && Kept(c, q, range)
    ensures forall c :: multiset(r)[c] == if Kept(c, q, range) then multiset(catalog)[c] else 0
    ensures |r| <= |catalog|
  {
    if catalog == [] then []
    else
      var rest := SelectCottages(catalog[1..], q, range);
      assert catalog == [catalog[0]] + catalog[1..];
      if Kept(catalog[0], q, range) then [catalog[0]] + rest else rest
  }

  /** `execute_sparql_query` over a catalog, for a start date and a shift
      given as text. */
  function ExecuteSparqlQuery(catalog: seq<Cottage>, q: Criteria, startText: string, shiftText: string): (r: Result<seq<Cottage>>)
    ensures r.Ok? <==> CalculateDateRange(startText, shiftText).Ok?
    ensures r.Ok? ==> forall c :: c in r.value <==>
      c in catalog && Kept(c, q, CalculateDateRange(startText, shiftText).value)
  {
    var range :- CalculateDateRange(startText, shiftText);
    Ok(SelectCottages(catalog, q, range))
  }

  /** For a cottage whose start date is written in canonical `YYYY-MM-DD`
      form, the string comparison of the date FILTER is exactly the day
      comparison with the window `start - shift .. start + shift`. */
  lemma DateFilterMeansWindow(c: Cottage, startText: string, shiftText: string, d: Date)
    requires CalculateDateRange(startText, shiftText).Ok?
    requires Valid(d) && c.startDate == Format(d)
    ensures var start, shift := ParseDate(startText).value, ParseInt(shiftText).value;
      InDateRange(c, CalculateDateRange(startText, shiftText).value) <==>
        Ordinal(start) - shift <= Ordinal(d) <= Ordinal(start) + shift
  {
    DateRangeWindow(startText, shiftText);
    var w := ShiftWindow(startText, ParseInt(shiftText).value).value;
    FormatOrder(FromOrdinal(w.earliest), d);
    FormatOrder(d, FromOrdinal(w.latest));
  }

  /** A wider shift never drops a cottage. */
  lemma ShiftMonotone(catalog: seq<Cottage>, q: Criteria, startText: string, shift1: string, shift2: string, c: Cottage)
    requires ExecuteSparqlQuery(catalog, q, startText, shift1).Ok?
    requires ExecuteSparqlQuery(catalog, q, startText, shift2).Ok?
    requires ParseInt(shift1).value <= ParseInt(shift2).value
    requires c in ExecuteSparqlQuery(catalog, q, startText, shift1).value
    ensures c in ExecuteSparqlQuery(catalog, q, startText, shift2).value
  {
    var r1, r2 := CalculateDateRange(startText, shift1).value, CalculateDateRange(startText, shift2).value;
    DateRangeWindow(startText, shift1);
    DateRangeWindow(startText, shift2);
    var w1 := ShiftWindow(startText, ParseInt(shift1).value).value;
    var w2 := ShiftWindow(startText, ParseInt(shift2).value).value;
    FormatOrder(FromOrdinal(w2.earliest), FromOrdinal(w1.earliest));
    FormatOrder(FromOrdinal(w1.latest), FromOrdinal(w2.latest));
    LexLeTransitive(r2.0, r1.0, c.startDate);
    LexLeTransitive(c.startDate, r1.1, r2.1);
  }

  /** `q2` asks for no more places, bedrooms or days than `q1` and allows
      at least its distances. */
  predicate Looser(q1: Criteria, q2: Criteria) {
    && q2.numPlaces <= q1.numPlaces
    && q2.numBedrooms <= q1.numBedrooms
    && q1.maxLakeDist <= q2.maxLakeDist
    && q1.maxCityDist <= q2.maxCityDist
    && q1.city == q2.city
    && q2.requiredDays <= q1.requiredDays
  }

  /** Raising a maximum distance never drops a cottage, and raising a
      required number of places, bedrooms or days never adds one. */
  lemma CriteriaMonotone(catalog: seq<Cottage>, q1: Criteria, q2: Criteria, range: (string, string))
    requires Looser(q1, q2)
    ensures forall c :: c in SelectCottages(catalog, q1, range) ==> c in SelectCottages(catalog, q2, range)
  {
  }

  /** With no shift the date FILTER keeps exactly the cottages whose start
      date text is the canonical text of the requested date. */
  lemma ZeroShiftExact(startText: string, shiftText: string, c: Cottage)
    requires CalculateDateRange(startText, shiftText).Ok?
    requires ParseInt(shiftText).value == 0
    ensures InDateRange(c, CalculateDateRange(startText, shiftText).value) <==>
      c.startDate == Format(ParseDate(startText).value)
  {
    var start := ParseDate(startText).value;
    var r := CalculateDateRange(startText, shiftText).value;
    DateRangeWindow(startText, shiftText);
    FromOrdinalOfOrdinal(start);
    assert r == (Format(start), Format(start));
    if InDateRange(c, r) {
      LexLeAntisymmetric(r.0, c.startDate);
    } else {
      LexLeReflexive(r.0);
    }
  }
}
