/** The mediator's result page: one booking option for every day of the
    shift window, each carrying the cottage data extracted from the
    booking service's answer. */
module ShiftedResults {
  import opened Wrappers
  import opened CivilDate
  import opened BookingWindow

  /** One entry of the result page, its first and last day held as day
      numbers (`FromOrdinal` gives the calendar date); the booking number is
      a random UUID and is not part of the model. */
  datatype BookingOption = BookingOption(
    index: int,
    bookerName: string,
    startDay: int,
    endDay: int,
    duration: int,
    cottage: map<string, string>)

  /** The walk over `lo..hi` stays inside the calendar: every booking period
      ends on a representable day, and so does the step past the last day. */
  predicate WalkFits(lo: int, hi: int, duration: int) {
    lo > hi || (1 <= lo + duration - 1 && hi + duration - 1 <= MAX_ORDINAL && hi < MAX_ORDINAL)
  }

  /** `o` is the option for the `i`-th day of a window starting on day `earliest`. */
  predicate OptionAt(o: BookingOption, i: int, earliest: int, cottage: map<string, string>, bookerName: string, duration: int) {
    && o.index == i + 1
    && o.bookerName == bookerName
    && o.duration == duration
    && o.cottage == cottage
    && o.startDay == earliest + i
    && o.endDay == o.startDay + duration - 1
    && 1 <= o.startDay <= MAX_ORDINAL && 1 <= o.endDay <= MAX_ORDINAL
  }

  /** `generate_shifted_booking_results`: walks `start - shift .. start + shift`
      one day at a time, numbering the options from 1; a malformed start
      date or a day outside the calendar ends the walk with an error. */
  method GenerateShiftedBookingResults(cottage: map<string, string>, maxShiftDays: int, startDate: string, duration: int, bookerName: string)
    returns (r: Result<seq<BookingOption>>)
    ensures r.Ok? <==>
      ShiftWindow(startDate, maxShiftDays).Ok? &&
      WalkFits(ShiftWindow(startDate, maxShiftDays).value.earliest, ShiftWindow(startDate, maxShiftDays).value.latest, duration)
    ensures r.Err? ==>
      r.error == (if ShiftWindow(startDate, maxShiftDays).Err? then ShiftWindow(startDate, maxShiftDays).error else DateOverflow)
    ensures r.Ok? ==> |r.value| == if maxShiftDays >= 0 then 2 * maxShiftDays + 1 else 0
    ensures r.Ok? ==> forall i :: 0 <= i < |r.value| ==>
      OptionAt(r.value[i], i, ShiftWindow(startDate, maxShiftDays).value.earliest, cottage, bookerName, duration)
  {
    var w :- ShiftWindow(startDate, maxShiftDays);
    assert w.latest - w.earliest == 2 * maxShiftDays;
    r := WalkWindow(w.earliest, w.latest, cottage, duration, bookerName);
  }

  /** The loop of `generate_shifted_booking_results` over the days `lo..hi`. */
  method WalkWindow(lo: int, hi: int, cottage: map<string, string>, duration: int, bookerName: string)
    returns (r: Result<seq<BookingOption>>)
    requires 1 <= lo && hi <= MAX_ORDINAL
    ensures r.Ok? <==> WalkFits(lo, hi, duration)
    ensures r.Err? ==> r.error == DateOverflow
    ensures r.Ok? ==> |r.value| == if lo <= hi then hi - lo + 1 else 0
    ensures r.Ok? ==> forall i :: 0 <= i < |r.value| ==> OptionAt(r.value[i], i, lo, cottage, bookerName, duration)
  {
    var options: seq<BookingOption> := [];
    var current := lo;
    var index := 1;
    while current <= hi
      invariant current == lo + |options| && index == |options| + 1
      invariant options != [] ==> current <= hi + 1
      invariant forall i :: 0 <= i < |options| ==> OptionAt(options[i], i, lo, cottage, bookerName, duration)
      invariant options != [] ==>
        1 <= lo + duration - 1 && current - 1 + duration - 1 <= MAX_ORDINAL && current - 1 < MAX_ORDINAL
      decreases hi - current
    {
      var end := DayPlus(current, duration - 1);
      if end.Err? {
        assert !WalkFits(lo, hi, duration);
        return Err(DateOverflow);
      }
      var option := BookingOption(index, bookerName, current, end.value, duration, cottage);
      assert OptionAt(option, |options|, lo, cottage, bookerName, duration);
      options := options + [option];
      var next := DayPlus(current, 1);
      if next.Err? {
        assert !WalkFits(lo, hi, duration);
        return Err(DateOverflow);
      }
      current := next.value;
      index := index + 1;
    }
    assert WalkFits(lo, hi, duration);
    return Ok(options);
  }
}
