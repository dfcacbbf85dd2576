/** The booking service's result listing: for every cottage row and every
    day of the shift window that falls inside the cottage's availability
    interval, one entry with a running index, a label telling the requested
    day from a shifted one, and the booking period. */
module CottageSearch {
  import opened Wrappers
  import opened CivilDate
  import opened BookingWindow

  /** The fields the listing reads from one result row. */
  datatype Row = Row(
    startDate: string,
    endDate: string,
    imageURL: Option<string>,
    address: string,
    numberOfPlaces: string,
    numberOfBedrooms: string,
    cityName: string,
    distanceFromCity: string,
    distanceFromLake: string)

  datatype DateLabel = BookingStartDate | ShiftedBookingStartDate

  /** One entry of the listing, its first and last day held as day numbers;
      the booking number is a random UUID and is not part of the model. */
  datatype SearchEntry = SearchEntry(
    index: int,
    bookerName: string,
    image: Option<string>,
    address: string,
    numberOfPlaces: string,
    numberOfBedrooms: string,
    cityName: string,
    distanceFromCity: string,
    distanceFromLake: string,
    dateLabel: DateLabel,
    startDay: int,
    endDay: int,
    duration: int)

  /** How the listing reads a date field: as a day number, or an error.
      The service reads with `strptime(s, '%Y-%m-%d')`, that is `ParseDay`;
      every property below holds for any reader. */
  type DayReader = string -> Result<int>

  /** The day numbers of the row's `startDate` and `endDate`, read in that order. */
  function RowInterval(row: Row, readDay: DayReader): Result<(int, int)> {
    var cs :- readDay(row.startDate);
    var ce :- readDay(row.endDate);
    Ok((cs, ce))
  }

  /** The shift window around the requested start date. */
  function SearchWindow(startDate: string, maxShiftDays: int, readDay: DayReader): Result<Window> {
    var requested :- readDay(startDate);
    WindowAround(requested, maxShiftDays)
  }

  /** Read with `strptime`, the window is the one the booking service's
      query uses. */
  lemma SearchWindowIsShiftWindow(startDate: string, maxShiftDays: int)
    ensures SearchWindow(startDate, maxShiftDays, ParseDay) == ShiftWindow(startDate, maxShiftDays)
  {
  }

  /** The entry for booking the row's cottage from day `day`. */
  function Entry(row: Row, index: int, day: int, requested: int, bookerName: string, duration: int): (e: SearchEntry)
    ensures e.index == index && e.startDay == day
    ensures e.endDay == e.startDay + duration - 1
    ensures e.dateLabel == BookingStartDate <==> day == requested
    ensures e.image.Some? <==> row.imageURL.Some? && row.imageURL.value != ""
    ensures e.image.Some? ==> e.image == row.imageURL
  {
    SearchEntry(
      index, bookerName,
      if row.imageURL.Some? && row.imageURL.value != "" then row.imageURL else None,
      row.address, row.numberOfPlaces, row.numberOfBedrooms, row.cityName,
      row.distanceFromCity, row.distanceFromLake,
      if day == requested then BookingStartDate else ShiftedBookingStartDate,
      day, day + duration - 1, duration)
  }

  /** The entries for the days `days`, numbered from `first`. */
  function Entries(row: Row, days: seq<int>, first: int, requested: int, bookerName: string, duration: int): (es: seq<SearchEntry>)
    ensures |es| == |days|
  {
    seq(|days|, j requires 0 <= j < |days| => Entry(row, first + j, days[j], requested, bookerName, duration))
  }

  /** Every booking period starting on one of `days` ends on a representable day. */
  predicate EndsFit(days: seq<int>, duration: int) {
    forall j :: 0 <= j < |days| ==> 1 <= days[j] + duration - 1 <= MAX_ORDINAL
  }

  /** The start days of a run of entries. */
  function StartDays(es: seq<SearchEntry>): (days: seq<int>)
    ensures |days| == |es|
  {
    seq(|es|, j requires 0 <= j < |es| => es[j].startDay)
  }

  /** What the window contributes for a row whose dates are the days
      `cs..ce`: an `OverflowError` for a booking period ending outside the
      calendar, or for the step past a window that ends on 9999-12-31;
      otherwise one entry per overlapping day, numbered from `first`. */
  function RowListing(row: Row, w: Window, cs: int, ce: int, first: int, bookerName: string, duration: int): Result<seq<SearchEntry>> {
    var days := Overlap(w.earliest, w.latest, cs, ce);
    if !EndsFit(days, duration) || w.latest == MAX_ORDINAL then Err(DateOverflow)
    else Ok(Entries(row, days, first, w.requested, bookerName, duration))
  }

  /** What walking the window contributes for one row: nothing for an empty
      window (the row is then never read); the reader's error for a row date
      it rejects; otherwise the row's listing. */
  function RowOutcome(row: Row, w: Window, first: int, bookerName: string, duration: int, readDay: DayReader): Result<seq<SearchEntry>> {
    if w.earliest > w.latest then Ok([])
    else
      var interval :- RowInterval(row, readDay);
      RowListing(row, w, interval.0, interval.1, first, bookerName, duration)
  }

  /** The listing for `rows` over the window `w`: rows in order, each
      walking the whole window, the index running on across rows. */
  function Listing(rows: seq<Row>, w: Window, bookerName: string, duration: int, readDay: DayReader): Result<seq<SearchEntry>>
    decreases |rows|
  {
    if rows == [] then Ok([])
    else
      var prior :- Listing(rows[..|rows| - 1], w, bookerName, duration, readDay);
      var mine :- RowOutcome(rows[|rows| - 1], w, |prior| + 1, bookerName, duration, readDay);
      Ok(prior + mine)
  }

  /** The whole listing: the window is computed for every row, so with no
      rows the start date is never read. */
  function SearchSpec(rows: seq<Row>, bookerName: string, startDate: string, duration: int, maxShiftDays: int, readDay: DayReader): Result<seq<SearchEntry>> {
    if rows == [] then Ok([])
    else
      var w :- SearchWindow(startDate, maxShiftDays, readDay);
      Listing(rows, w, bookerName, duration, readDay)
  }

  // ---------------------------------------------------------------------
  // Properties of the listing

  /** The `j`-th entry of a row's listing is the entry for the `j`-th day of
      the overlap. */
  lemma ListingEntries(row: Row, w: Window, cs: int, ce: int, first: int, bookerName: string, duration: int)
    requires RowListing(row, w, cs, ce, first, bookerName, duration).Ok?
    ensures var es := RowListing(row, w, cs, ce, first, bookerName, duration).value;
      && |es| == |Overlap(w.earliest, w.latest, cs, ce)|
      && forall j :: 0 <= j < |es| ==> EntryAt(es[j], j, Max(w.earliest, cs), row, w, first, bookerName, duration)
  {
    var days := Overlap(w.earliest, w.latest, cs, ce);
    forall j | 0 <= j < |days|
      ensures 1 <= days[j] + duration - 1 <= MAX_ORDINAL
    {
    }
  }

  /** A row lists exactly the window days inside its availability interval,
      ascending one day at a time, numbered on from `first`, each period
      lasting `duration` days and ending inside the calendar. */
  lemma RowDays(row: Row, w: Window, cs: int, ce: int, first: int, bookerName: string, duration: int)
    requires RowListing(row, w, cs, ce, first, bookerName, duration).Ok?
    ensures var es := RowListing(row, w, cs, ce, first, bookerName, duration).value;
      && (forall d :: d in StartDays(es) <==> w.earliest <= d <= w.latest && cs <= d <= ce)
      && (forall j :: 0 < j < |es| ==> es[j].startDay == es[j - 1].startDay + 1)
      && (forall j :: 0 <= j < |es| ==>
            es[j].index == first + j && es[j].endDay == es[j].startDay + duration - 1 &&
            1 <= es[j].endDay <= MAX_ORDINAL)
  {
    var es := RowListing(row, w, cs, ce, first, bookerName, duration).value;
    ListingEntries(row, w, cs, ce, first, bookerName, duration);
    OverlapMembers(w.earliest, w.latest, cs, ce);
    assert StartDays(es) == Overlap(w.earliest, w.latest, cs, ce);
  }

  /** A row lists its requested day at most once, and exactly when that day
      lies both in the window and in the cottage's interval. */
  lemma RowExactOnce(row: Row, w: Window, cs: int, ce: int, first: int, bookerName: string, duration: int)
    requires RowListing(row, w, cs, ce, first, bookerName, duration).Ok?
    ensures var es := RowListing(row, w, cs, ce, first, bookerName, duration).value;
      && (forall j, k ::
            (0 <= j < |es| && 0 <= k < |es| &&
             es[j].dateLabel == BookingStartDate && es[k].dateLabel == BookingStartDate) ==> j == k)
      && (w.earliest <= w.requested <= w.latest && cs <= w.requested <= ce <==>
            exists j :: 0 <= j < |es| && es[j].dateLabel == BookingStartDate)
  {
    var es := RowListing(row, w, cs, ce, first, bookerName, duration).value;
    var low := Max(w.earliest, cs);
    ListingEntries(row, w, cs, ce, first, bookerName, duration);
    assert forall j :: 0 <= j < |es| ==> (es[j].dateLabel == BookingStartDate <==> low + j == w.requested);
    if w.earliest <= w.requested <= w.latest && cs <= w.requested <= ce {
      assert es[w.requested - low].dateLabel == BookingStartDate;
    }
  }

  /** Every row's entries are numbered on from `first`. */
  lemma RowIndices(row: Row, w: Window, first: int, bookerName: string, duration: int, readDay: DayReader)
    requires RowOutcome(row, w, first, bookerName, duration, readDay).Ok?
    ensures var es := RowOutcome(row, w, first, bookerName, duration, readDay).value;
      forall j :: 0 <= j < |es| ==> es[j].index == first + j
  {
    if w.earliest <= w.latest {
      var interval := RowInterval(row, readDay).value;
      RowDays(row, w, interval.0, interval.1, first, bookerName, duration);
    }
  }

  /** The index starts at 1 and grows by one for every entry, across all rows. */
  lemma {:induction false} ListingIndices(rows: seq<Row>, w: Window, bookerName: string, duration: int, readDay: DayReader)
    requires Listing(rows, w, bookerName, duration, readDay).Ok?
    ensures var out := Listing(rows, w, bookerName, duration, readDay).value;
      forall j :: 0 <= j < |out| ==> out[j].index == j + 1
    decreases |rows|
  {
    if rows != [] {
      var init := rows[..|rows| - 1];
      ListingIndices(init, w, bookerName, duration, readDay);
      var prior := Listing(init, w, bookerName, duration, readDay).value;
      RowIndices(rows[|rows| - 1], w, |prior| + 1, bookerName, duration, readDay);
    }
  }

  /** The number of window days inside each row's interval, summed over the rows. */
  function OverlapTotal(rows: seq<Row>, w: Window, readDay: DayReader): int
    decreases |rows|
  {
    if rows == [] then 0
    else
      var interval := RowInterval(rows[|rows| - 1], readDay);
      var mine :=
        if w.earliest > w.latest || interval.Err? then 0
        else |Overlap(w.earliest, w.latest, interval.value.0, interval.value.1)|;
      OverlapTotal(rows[..|rows| - 1], w, readDay) + mine
  }

  /** The listing holds one entry per window day inside a row's interval. */
  lemma {:induction false} ListingCount(rows: seq<Row>, w: Window, bookerName: string, duration: int, readDay: DayReader)
    requires Listing(rows, w, bookerName, duration, readDay).Ok?
    ensures |Listing(rows, w, bookerName, duration, readDay).value| == OverlapTotal(rows, w, readDay)
    decreases |rows|
  {
    if rows != [] {
      ListingCount(rows[..|rows| - 1], w, bookerName, duration, readDay);
    }
  }

  /** An empty window lists nothing, for any rows. */
  lemma {:induction false} EmptyWindowLists(rows: seq<Row>, w: Window, bookerName: string, duration: int, readDay: DayReader)
    requires w.earliest > w.latest
    ensures Listing(rows, w, bookerName, duration, readDay) == Ok([])
    decreases |rows|
  {
    if rows != [] {
      EmptyWindowLists(rows[..|rows| - 1], w, bookerName, duration, readDay);
      var none: seq<SearchEntry> := [];
      assert RowOutcome(rows[|rows| - 1], w, 1, bookerName, duration, readDay) == Ok(none);
      assert none + none == none;
    }
  }

  /** Once a prefix of the rows fails, the whole listing fails the same way. */
  lemma {:induction false} ListingErrorStays(rows: seq<Row>, k: nat, w: Window, bookerName: string, duration: int, readDay: DayReader)
    requires k <= |rows| && Listing(rows[..k], w, bookerName, duration, readDay).Err?
    ensures Listing(rows, w, bookerName, duration, readDay) == Listing(rows[..k], w, bookerName, duration, readDay)
    decreases |rows| - k
  {
    if k < |rows| {
      var next := rows[..k + 1];
      assert next[..|next| - 1] == rows[..k];
      ListingErrorStays(rows, k + 1, w, bookerName, duration, readDay);
    } else {
      assert rows[..k] == rows;
    }
  }

  /** One more row extends the listing by that row's outcome, or fails with it. */
  lemma ListingStep(rows: seq<Row>, k: nat, w: Window, bookerName: string, duration: int, readDay: DayReader, out: seq<SearchEntry>)
    requires k < |rows| && Listing(rows[..k], w, bookerName, duration, readDay) == Ok(out)
    ensures var mine := RowOutcome(rows[k], w, |out| + 1, bookerName, duration, readDay);
      Listing(rows[..k + 1], w, bookerName, duration, readDay) ==
        if mine.Ok? then Ok(out + mine.value) else Err(mine.error)
  {
    assert rows[..k + 1][..k] == rows[..k];
  }

  /** A negative shift lists nothing, for any rows. */
  lemma NegativeShiftEmpty(rows: seq<Row>, bookerName: string, startDate: string, duration: int, maxShiftDays: int, readDay: DayReader)
    requires maxShiftDays < 0 && SearchSpec(rows, bookerName, startDate, duration, maxShiftDays, readDay).Ok?
    ensures SearchSpec(rows, bookerName, startDate, duration, maxShiftDays, readDay).value == []
  {
    if rows != [] {
      var w := SearchWindow(startDate, maxShiftDays, readDay).value;
      assert w.earliest > w.latest;
      EmptyWindowLists(rows, w, bookerName, duration, readDay);
    }
  }

  // ---------------------------------------------------------------------
  // The loops of `search_cottages`

  /** `e` is the entry the walk makes for the `j`-th overlapping day, starting
      on day `lowDay + j`. */
  predicate EntryAt(e: SearchEntry, j: int, lowDay: int, row: Row, w: Window, first: int, bookerName: string, duration: int) {
    && e == Entry(row, first + j, lowDay + j, w.requested, bookerName, duration)
    && 1 <= lowDay + j + duration - 1 <= MAX_ORDINAL
  }

  /** Entries made pointwise for the overlap of a window that does not end on
      the last representable day are the row's listing. */
  lemma ListingOfEntries(row: Row, w: Window, cs: int, ce: int, first: int, bookerName: string, duration: int, es: seq<SearchEntry>)
    requires w.latest < MAX_ORDINAL
    requires |es| == |Overlap(w.earliest, w.latest, cs, ce)|
    requires forall j :: 0 <= j < |es| ==> EntryAt(es[j], j, Max(w.earliest, cs), row, w, first, bookerName, duration)
    ensures RowListing(row, w, cs, ce, first, bookerName, duration) == Ok(es)
  {
    var days := Overlap(w.earliest, w.latest, cs, ce);
    forall j | 0 <= j < |days|
      ensures 1 <= days[j] + duration - 1 <= MAX_ORDINAL
    {
      assert EntryAt(es[j], j, Max(w.earliest, cs), row, w, first, bookerName, duration);
    }
    assert es == Entries(row, days, first, w.requested, bookerName, duration);
  }

  /** A window day inside the interval whose booking period ends outside the
      calendar makes the row's listing an `OverflowError`. */
  lemma ListingOverflow(row: Row, w: Window, cs: int, ce: int, d: int, first: int, bookerName: string, duration: int)
    requires w.earliest <= d <= w.latest && cs <= d <= ce
    requires !(1 <= d + duration - 1 <= MAX_ORDINAL)
    ensures RowListing(row, w, cs, ce, first, bookerName, duration) == Err(DateOverflow)
  {
    var days := Overlap(w.earliest, w.latest, cs, ce);
    assert days[d - Max(w.earliest, cs)] == d;
  }

  /** The two date reads on a row, in the order the loop makes them. */
  method ReadRowDates(row: Row, readDay: DayReader) returns (r: Result<(int, int)>)
    ensures r == RowInterval(row, readDay)
  {
    var cs := readDay(row.startDate);
    if cs.Err? {
      return Err(cs.error);
    }
    var ce := readDay(row.endDate);
    if ce.Err? {
      return Err(ce.error);
    }
    return Ok((cs.value, ce.value));
  }

  /** The inner `while` of `search_cottages` for one row: every window day,
      the row's dates read afresh on each, an entry for each day inside
      them. */
  method WalkRow(row: Row, w: Window, first: int, bookerName: string, duration: int, readDay: DayReader)
    returns (r: Result<seq<SearchEntry>>)
    requires 1 <= w.earliest && w.latest <= MAX_ORDINAL
    ensures r == RowOutcome(row, w, first, bookerName, duration, readDay)
  {
    var entries: seq<SearchEntry> := [];
    var index := first;
    var current := w.earliest;
    ghost var cs, ce := 0, 0;
    while current <= w.latest
      invariant w.earliest <= current && index == first + |entries|
      invariant current == w.earliest ==> entries == []
      invariant current > w.earliest ==>
        && current <= w.latest + 1 && current - 1 < MAX_ORDINAL
        && RowInterval(row, readDay) == Ok((cs, ce))
        && |entries| == |Overlap(w.earliest, current - 1, cs, ce)|
      invariant forall j :: 0 <= j < |entries| ==> EntryAt(entries[j], j, Max(w.earliest, cs), row, w, first, bookerName, duration)
      decreases w.latest - current
    {
      var interval := ReadRowDates(row, readDay);
      if interval.Err? {
        return Err(interval.error);
      }
      var (csDay, ceDay) := interval.value;
      cs, ce := csDay, ceDay;
      if csDay <= current <= ceDay {
        var end := DayPlus(current, duration - 1);
        if end.Err? {
          ListingOverflow(row, w, cs, ce, current, first, bookerName, duration);
          return Err(DateOverflow);
        }
        assert current == Max(w.earliest, cs) + |entries|;
        ghost var before := entries;
        entries := entries + [Entry(row, index, current, w.requested, bookerName, duration)];
        assert forall j :: 0 <= j < |before| ==> entries[j] == before[j];
        index := index + 1;
      }
      var next := DayPlus(current, 1);
      if next.Err? {
        return Err(DateOverflow);
      }
      current := next.value;
    }
    if current > w.earliest {
      ListingOfEntries(row, w, cs, ce, first, bookerName, duration, entries);
    }
    return Ok(entries);
  }

  /** The outer `for` of `search_cottages` over the result rows, for any
      date reader: the window recomputed for every row, the index running on
      from 1. */
  method ListRows(rows: seq<Row>, bookerName: string, startDate: string, duration: int, maxShiftDays: int, readDay: DayReader)
    returns (r: Result<seq<SearchEntry>>)
    ensures r == SearchSpec(rows, bookerName, startDate, duration, maxShiftDays, readDay)
    ensures r.Ok? ==> forall j :: 0 <= j < |r.value| ==> r.value[j].index == j + 1
  {
    var out: seq<SearchEntry> := [];
    var index := 1;
    for k := 0 to |rows|
      invariant k == 0 ==> out == []
      invariant k > 0 ==>
        && SearchWindow(startDate, maxShiftDays, readDay).Ok?
        && Listing(rows[..k], SearchWindow(startDate, maxShiftDays, readDay).value, bookerName, duration, readDay) == Ok(out)
      invariant index == |out| + 1
    {
      var requested := readDay(startDate);
      if requested.Err? {
        return Err(requested.error);
      }
      var window := WindowAround(requested.value, maxShiftDays);
      if window.Err? {
        return Err(window.error);
      }
      var mine := WalkRow(rows[k], window.value, index, bookerName, duration, readDay);
      ListingStep(rows, k, window.value, bookerName, duration, readDay, out);
      if mine.Err? {
        ListingErrorStays(rows, k + 1, window.value, bookerName, duration, readDay);
        return Err(mine.error);
      }
      out := out + mine.value;
      index := index + |mine.value|;
    }
    assert rows[..|rows|] == rows;
    if rows != [] {
      ListingIndices(rows, SearchWindow(startDate, maxShiftDays, readDay).value, bookerName, duration, readDay);
    }
    return Ok(out);
  }

  /** `search_cottages`: the listing for the query's result rows, dates read
      with `strptime(s, '%Y-%m-%d')`. */
  method SearchCottages(rows: seq<Row>, bookerName: string, startDate: string, duration: int, maxShiftDays: int)
    returns (r: Result<seq<SearchEntry>>)
    ensures r == SearchSpec(rows, bookerName, startDate, duration, maxShiftDays, ParseDay)
    ensures r.Ok? ==> forall j :: 0 <= j < |r.value| ==> r.value[j].index == j + 1
  {
    r := ListRows(rows, bookerName, startDate, duration, maxShiftDays, ParseDay);
  }
}
