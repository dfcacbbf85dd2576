/** The inclusive window of candidate start days that both the booking
    service and the mediator walk: `strptime(startDate)` and
    `start - timedelta(days=shift)` .. `start + timedelta(days=shift)`,
    held as day numbers. */
module BookingWindow {
  import opened Wrappers
  import opened CivilDate
  import opened DateText

  /** The day number of the requested start date and the first and last day
      numbers of the window. */
  datatype Window = Window(requested: int, earliest: int, latest: int)

  predicate WindowFits(start: Date, shift: int)
    requires Valid(start)
  {
    1 <= Ordinal(start) - shift <= MAX_ORDINAL && 1 <= Ordinal(start) + shift <= MAX_ORDINAL
  }

  /** `strptime(s, '%Y-%m-%d')` read as a day number. */
  function ParseDay(s: string): (r: Result<int>)
    ensures r.Ok? <==> ParseDate(s).Ok?
    ensures r.Ok? ==> r.value == Ordinal(ParseDate(s).value) && 1 <= r.value <= MAX_ORDINAL
    ensures r.Err? ==> r.error == MalformedDate(s)
  {
    var d :- ParseDate(s);
    Ok(Ordinal(d))
  }

  /** `start - timedelta(days=shift)` and `start + timedelta(days=shift)` for
      the start day `requested`, in that order; an end outside the calendar
      is an `OverflowError`. */
  function WindowAround(requested: int, shift: int): (r: Result<Window>)
    ensures r.Ok? <==> 1 <= requested - shift <= MAX_ORDINAL && 1 <= requested + shift <= MAX_ORDINAL
    ensures r.Ok? ==> var w := r.value;
      && w.requested == requested && w.earliest == requested - shift && w.latest == requested + shift
    ensures r.Err? ==> r.error == DateOverflow
  {
    var earliest :- DayPlus(requested, -shift);
    var latest :- DayPlus(requested, shift);
    Ok(Window(requested, earliest, latest))
  }

  /** Parses the requested start date and computes both ends of the window;
      a malformed date is a `ValueError`, an end outside the calendar an
      `OverflowError`. */
  function ShiftWindow(startText: string, shift: int): (r: Result<Window>)
    ensures r.Ok? <==> ParseDate(startText).Ok? && WindowFits(ParseDate(startText).value, shift)
    ensures r.Ok? ==> r.value.requested == Ordinal(ParseDate(startText).value)
    ensures r.Ok? ==> var w := r.value;
      && w.earliest == w.requested - shift && w.latest == w.requested + shift
      && 1 <= w.requested <= MAX_ORDINAL
      && 1 <= w.earliest <= MAX_ORDINAL && 1 <= w.latest <= MAX_ORDINAL
    ensures r.Err? ==>
      r.error == (if ParseDate(startText).Err? then MalformedDate(startText) else DateOverflow)
  {
    var requested :- ParseDay(startText);
    WindowAround(requested, shift)
  }

  /** The window's ends are the dates `start - timedelta(days=shift)` and
      `start + timedelta(days=shift)`, and it exists exactly when both of
      those additions succeed. */
  lemma WindowAroundIsTimedelta(start: Date, shift: int)
    requires Valid(start)
    ensures WindowAround(Ordinal(start), shift).Ok? <==> AddDays(start, -shift).Ok? && AddDays(start, shift).Ok?
    ensures WindowAround(Ordinal(start), shift).Ok? ==>
      var w := WindowAround(Ordinal(start), shift).value;
      && FromOrdinal(w.earliest) == AddDays(start, -shift).value
      && FromOrdinal(w.latest) == AddDays(start, shift).value
  {
    if WindowAround(Ordinal(start), shift).Ok? {
      FromOrdinalOfOrdinal(AddDays(start, -shift).value);
      FromOrdinalOfOrdinal(AddDays(start, shift).value);
    }
  }

  function Max(a: int, b: int): int { if a < b then b else a }
  function Min(a: int, b: int): int { if a < b then a else b }

  /** The days `lo, lo + 1, ..., hi`; empty when `hi < lo`. */
  function Range(lo: int, hi: int): (r: seq<int>)
    ensures |r| == if lo <= hi then hi - lo + 1 else 0
    ensures forall j :: 0 <= j < |r| ==> r[j] == lo + j
  {
    seq(if lo <= hi then hi - lo + 1 else 0, j => lo + j)
  }

  lemma RangeMembers(lo: int, hi: int)
    ensures forall d :: d in Range(lo, hi) <==> lo <= d <= hi
  {
    forall d | lo <= d <= hi
      ensures d in Range(lo, hi)
    {
      assert Range(lo, hi)[d - lo] == d;
    }
  }

  /** The days of the window `lo..hi` that fall inside an availability
      interval `cs..ce`: an interval again. */
  function Overlap(lo: int, hi: int, cs: int, ce: int): seq<int> {
    Range(Max(lo, cs), Min(hi, ce))
  }

  /** The overlap holds exactly the days inside both intervals, in ascending
      order and without gaps. */
  lemma OverlapMembers(lo: int, hi: int, cs: int, ce: int)
    ensures forall d :: d in Overlap(lo, hi, cs, ce) <==> lo <= d <= hi && cs <= d <= ce
    ensures forall j :: 0 < j < |Overlap(lo, hi, cs, ce)| ==>
      Overlap(lo, hi, cs, ce)[j] == Overlap(lo, hi, cs, ce)[j - 1] + 1
  {
    RangeMembers(Max(lo, cs), Min(hi, ce));
  }

  /** One more day of the window either extends the overlap by that day or
      leaves it as it is. */
  lemma OverlapStep(lo: int, cur: int, cs: int, ce: int)
    requires lo <= cur
    ensures Overlap(lo, cur, cs, ce) ==
      if cs <= cur <= ce then Overlap(lo, cur - 1, cs, ce) + [cur] else Overlap(lo, cur - 1, cs, ce)
  {
  }
}
