/** The proleptic Gregorian calendar of Python's `datetime`: a civil date
    (year, month, day) for the years 1..9999 and its day number ("ordinal"),
    where 0001-01-01 is day 1, as `date.toordinal()` counts it.  Adding a
    `timedelta` of whole days is arithmetic on ordinals, and leaving the
    supported range is an `OverflowError`. */
module CivilDate {
  import opened Wrappers

  datatype Date = Date(year: int, month: int, day: int)

  const MAX_YEAR := 9999
  /** The ordinal of 9999-12-31, the last day `datetime` can represent. */
  const MAX_ORDINAL := 3652059

  predicate IsLeap(y: int) {
    y % 4 == 0 && (y % 100 != 0 || y % 400 == 0)
  }

  function DaysInYear(y: int): int {
    if IsLeap(y) then 366 else 365
  }

  function DaysInMonth(y: int, m: int): int
    requires 1 <= m <= 12
  {
    if m == 2 then (if IsLeap(y) then 29 else 28)
    else if m == 4 || m == 6 || m == 9 || m == 11 then 30
    else 31
  }

  /** Days of year `y` before the first of month `m`; `m == 13` gives the
      length of the year. */
  function DaysBeforeMonth(y: int, m: int): int
    requires 1 <= m <= 13
  {
    var common :=
      if m == 1 then 0 else if m == 2 then 31 else if m == 3 then 59
      else if m == 4 then 90 else if m == 5 then 120 else if m == 6 then 151
      else if m == 7 then 181 else if m == 8 then 212 else if m == 9 then 243
      else if m == 10 then 273 else if m == 11 then 304 else if m == 12 then 334
      else 365;
    common + (if m > 2 && IsLeap(y) then 1 else 0)
  }

  /** Days before January 1st of year `y`, in the closed form `datetime` uses. */
  function DaysBeforeYear(y: int): int
    requires y >= 1
  {
    var n := y - 1;
    n * 365 + n / 4 - n / 100 + n / 400
  }

  predicate Valid(d: Date) {
    1 <= d.year <= MAX_YEAR && 1 <= d.month <= 12 && 1 <= d.day <= DaysInMonth(d.year, d.month)
  }

  /** The calendar order of dates: by year, then month, then day. */
  predicate Before(d1: Date, d2: Date) {
    d1.year < d2.year
    || (d1.year == d2.year && d1.month < d2.month)
    || (d1.year == d2.year && d1.month == d2.month && d1.day < d2.day)
  }

  lemma DivisionStep(y: int)
    requires y >= 1
    ensures y / 4 - (y - 1) / 4 == (if y % 4 == 0 then 1 else 0)
    ensures y / 100 - (y - 1) / 100 == (if y % 100 == 0 then 1 else 0)
    ensures y / 400 - (y - 1) / 400 == (if y % 400 == 0 then 1 else 0)
    ensures y % 400 == 0 ==> y % 100 == 0
    ensures y % 100 == 0 ==> y % 4 == 0
  {
  }

  /** One more year adds exactly the length of that year. */
  lemma DaysBeforeYearStep(y: int)
    requires y >= 1
    ensures DaysBeforeYear(y + 1) == DaysBeforeYear(y) + DaysInYear(y)
  {
    DivisionStep(y);
  }

  lemma {:induction false} DaysBeforeYearGrows(a: int, b: int)
    requires 1 <= a <= b
    ensures DaysBeforeYear(a) + 365 * (b - a) <= DaysBeforeYear(b)
    decreases b - a
  {
    if a < b {
      DaysBeforeYearGrows(a, b - 1);
      DaysBeforeYearStep(b - 1);
    }
  }

  lemma DaysBeforeMonthStep(y: int, m: int)
    requires 1 <= m <= 12
    ensures DaysBeforeMonth(y, m + 1) == DaysBeforeMonth(y, m) + DaysInMonth(y, m)
  {
  }

  lemma DaysBeforeMonthGrows(y: int, a: int, b: int)
    requires 1 <= a <= b <= 13
    ensures DaysBeforeMonth(y, a) + (b - a) * 28 <= DaysBeforeMonth(y, b)
  {
  }

  lemma LastOrdinal()
    ensures DaysBeforeYear(MAX_YEAR + 1) == MAX_ORDINAL
  {
  }

  /** A date's days before it inside its own year. */
  lemma DayOfYearBounds(d: Date)
    requires Valid(d)
    ensures 1 <= DaysBeforeMonth(d.year, d.month) + d.day <= DaysInYear(d.year)
  {
    DaysBeforeMonthStep(d.year, d.month);
    DaysBeforeMonthGrows(d.year, d.month + 1, 13);
  }

  /** The day number of a date, 0001-01-01 being day 1. */
  function Ordinal(d: Date): (n: int)
    requires Valid(d)
    ensures 1 <= n <= MAX_ORDINAL
  {
    DayOfYearBounds(d);
    DaysBeforeYearStep(d.year);
    DaysBeforeYearGrows(d.year + 1, MAX_YEAR + 1);
    LastOrdinal();
    DaysBeforeYear(d.year) + DaysBeforeMonth(d.year, d.month) + d.day
  }

  /** The year holding day `n`, searched upwards from year `y`. */
  function YearFrom(n: int, y: int): (r: int)
    requires y >= 1 && DaysBeforeYear(y) < n
    ensures r >= y && DaysBeforeYear(r) < n <= DaysBeforeYear(r + 1)
    decreases n - DaysBeforeYear(y)
  {
    DaysBeforeYearStep(y);
    if n <= DaysBeforeYear(y + 1) then y else YearFrom(n, y + 1)
  }

  /** The month holding day `k` of year `y`, searched upwards from month `m`. */
  function MonthFrom(y: int, k: int, m: int): (r: int)
    requires 1 <= m <= 12 && DaysBeforeMonth(y, m) < k <= DaysInYear(y)
    ensures m <= r <= 12 && DaysBeforeMonth(y, r) < k <= DaysBeforeMonth(y, r + 1)
    decreases 12 - m
  {
    if k <= DaysBeforeMonth(y, m + 1) then m else MonthFrom(y, k, m + 1)
  }

  /** The date of day number `n`: the inverse of `Ordinal`. */
  function FromOrdinal(n: int): (d: Date)
    requires 1 <= n <= MAX_ORDINAL
    ensures Valid(d) && Ordinal(d) == n
  {
    var y := YearFrom(n, 1);
    LastOrdinal();
    if y > MAX_YEAR then DaysBeforeYearGrows(MAX_YEAR + 1, y); assert false; Date(1, 1, 1)
    else
      DaysBeforeYearStep(y);
      var k := n - DaysBeforeYear(y);
      var m := MonthFrom(y, k, 1);
      DaysBeforeMonthStep(y, m);
      Date(y, m, k - DaysBeforeMonth(y, m))
  }

  /** Every day of an earlier year comes before every day of a later one. */
  lemma EarlierYear(d1: Date, d2: Date)
    requires Valid(d1) && Valid(d2) && d1.year < d2.year
    ensures Ordinal(d1) < Ordinal(d2)
  {
    DayOfYearBounds(d1);
    DayOfYearBounds(d2);
    DaysBeforeYearStep(d1.year);
    DaysBeforeYearGrows(d1.year + 1, d2.year);
  }

  /** Inside one year, every day of an earlier month comes first. */
  lemma EarlierMonth(d1: Date, d2: Date)
    requires Valid(d1) && Valid(d2) && d1.year == d2.year && d1.month < d2.month
    ensures Ordinal(d1) < Ordinal(d2)
  {
    DaysBeforeMonthStep(d1.year, d1.month);
    DaysBeforeMonthGrows(d1.year, d1.month + 1, d2.month);
  }

  /** Day numbers follow the calendar order of the dates they number. */
  lemma OrdinalOrder(d1: Date, d2: Date)
    requires Valid(d1) && Valid(d2)
    ensures Ordinal(d1) < Ordinal(d2) <==> Before(d1, d2)
  {
    if d1.year < d2.year {
      EarlierYear(d1, d2);
    } else if d2.year < d1.year {
      EarlierYear(d2, d1);
    } else if d1.month < d2.month {
      EarlierMonth(d1, d2);
    } else if d2.month < d1.month {
      EarlierMonth(d2, d1);
    }
  }

  /** Distinct valid dates have distinct day numbers. */
  lemma OrdinalInjective(d1: Date, d2: Date)
    requires Valid(d1) && Valid(d2) && Ordinal(d1) == Ordinal(d2)
    ensures d1 == d2
  {
    OrdinalOrder(d1, d2);
    OrdinalOrder(d2, d1);
  }

  lemma FromOrdinalOfOrdinal(d: Date)
    requires Valid(d)
    ensures FromOrdinal(Ordinal(d)) == d
  {
    OrdinalInjective(FromOrdinal(Ordinal(d)), d);
  }

  /** `timedelta` arithmetic on day numbers: an `OverflowError` outside
      0001-01-01..9999-12-31. */
  function DayPlus(n: int, k: int): (r: Result<int>)
    ensures r.Ok? <==> 1 <= n + k <= MAX_ORDINAL
    ensures r.Ok? ==> r.value == n + k
    ensures r.Err? ==> r.error == DateOverflow
  {
    if 1 <= n + k <= MAX_ORDINAL then Ok(n + k) else Err(DateOverflow)
  }

  /** `d + timedelta(days=n)` on calendar dates. */
  function AddDays(d: Date, n: int): (r: Result<Date>)
    requires Valid(d)
    ensures r.Ok? <==> 1 <= Ordinal(d) + n <= MAX_ORDINAL
    ensures r.Ok? ==> Valid(r.value) && Ordinal(r.value) == Ordinal(d) + n
    ensures r.Err? ==> r.error == DateOverflow
  {
    var k :- DayPlus(Ordinal(d), n);
    Ok(FromOrdinal(k))
  }

  /** Adding days then subtracting them gives the date back. */
  lemma AddDaysInverse(d: Date, n: int)
    requires Valid(d) && AddDays(d, n).Ok?
    ensures AddDays(AddDays(d, n).value, -n) == Ok(d)
  {
    var e := AddDays(d, n).value;
    var back := AddDays(e, -n);
    assert back.Ok? && Ordinal(back.value) == Ordinal(d);
    OrdinalInjective(back.value, d);
  }
}
