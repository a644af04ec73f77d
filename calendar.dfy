/**
 * Calendar dates of the proleptic Gregorian calendar and their day numbers.
 *
 * A date is identified with its ordinal: 0001-01-01 is day 1, and consecutive
 * days have consecutive numbers, so "N days before" is plain subtraction.
 * The representable range is that of a Python `date`: years 1 to 9999.
 */
module Calendar {

  const MinYear := 1
  const MaxYear := 9999

  datatype Date = Date(year: int, month: int, day: int)

  predicate IsLeap(y: int) {
    y % 4 == 0 && (y % 100 != 0 || y % 400 == 0)
  }

  function DaysInYear(y: int): int {
    if IsLeap(y) then 366 else 365
  }

  function DaysInMonth(y: int, m: int): (n: int)
    requires 1 <= m <= 12
    ensures 28 <= n <= 31
    ensures n == 29 <==> m == 2 && IsLeap(y)
  {
    if m == 2 then (if IsLeap(y) then 29 else 28)
    else if m == 4 || m == 6 || m == 9 || m == 11 then 30
    else 31
  }

  /** A date that exists in the calendar and lies in the representable range. */
  predicate IsValid(d: Date) {
    MinYear <= d.year <= MaxYear && 1 <= d.month <= 12 && 1 <= d.day <= DaysInMonth(d.year, d.month)
  }

  /** The number of days in the years 1 to y - 1. */
  function DaysBeforeYear(y: int): int
    requires y >= 1
  {
    var p := y - 1;
    365 * p + p / 4 - p / 100 + p / 400
  }

  /** The number of days in the months 1 to m - 1 of year y. */
  function DaysBeforeMonth(y: int, m: int): int
    requires 1 <= m <= 12
  {
    var leapDay := if m > 2 && IsLeap(y) then 1 else 0;
    leapDay +
      if m == 1 then 0 else if m == 2 then 31 else if m == 3 then 59
      else if m == 4 then 90 else if m == 5 then 120 else if m == 6 then 151
      else if m == 7 then 181 else if m == 8 then 212 else if m == 9 then 243
      else if m == 10 then 273 else if m == 11 then 304 else 334
  }

  /** The day number of a date: past every day of the earlier years, and within the date's own year. */
  function ToOrdinal(d: Date): (n: int)
    requires IsValid(d)
    ensures DaysBeforeYear(d.year) < n <= DaysBeforeYear(d.year) + DaysInYear(d.year)
  {
    DayOfYearBounds(d);
    DaysBeforeYear(d.year) + DaysBeforeMonth(d.year, d.month) + d.day
  }

  /** The day number of 9999-12-31, the last representable date. */
  const MaxDay := DaysBeforeYear(MaxYear + 1)

  /** A day number that denotes a representable date. */
  predicate IsDay(n: int) {
    1 <= n <= MaxDay
  }

  /** Lexicographic order of dates: by year, then month, then day. */
  predicate Before(a: Date, b: Date) {
    a.year < b.year
    || (a.year == b.year && a.month < b.month)
    || (a.year == b.year && a.month == b.month && a.day < b.day)
  }

  lemma CenturyIsLeapCandidate(y: int)
    requires y % 100 == 0
    ensures y % 4 == 0
  {
    assert y == 4 * (25 * (y / 100));
  }

  lemma FourCenturiesIsCentury(y: int)
    requires y % 400 == 0
    ensures y % 100 == 0
  {
    assert y == 100 * (4 * (y / 400));
  }

  lemma YearStep(y: int)
    requires y >= 1
    ensures DaysBeforeYear(y + 1) == DaysBeforeYear(y) + DaysInYear(y)
  {
    var p := y - 1;
    assert (p + 1) / 4 == p / 4 + (if (p + 1) % 4 == 0 then 1 else 0) by {}
    assert (p + 1) / 100 == p / 100 + (if (p + 1) % 100 == 0 then 1 else 0) by {}
    assert (p + 1) / 400 == p / 400 + (if (p + 1) % 400 == 0 then 1 else 0) by {}
    var step := 365 + ((p + 1) / 4 - p / 4) - ((p + 1) / 100 - p / 100) + ((p + 1) / 400 - p / 400);
    assert DaysBeforeYear(y + 1) == DaysBeforeYear(y) + step;
    if y % 400 == 0 {
      FourCenturiesIsCentury(y);
      CenturyIsLeapCandidate(y);
    } else if y % 100 == 0 {
      CenturyIsLeapCandidate(y);
    }
  }

  /** Whole years before a later year hold at least the earlier year's days. */
  lemma {:induction false} YearsMonotone(a: int, b: int)
    requires 1 <= a < b
    ensures DaysBeforeYear(a) + DaysInYear(a) <= DaysBeforeYear(b)
    decreases b - a
  {
    YearStep(a);
    if a + 1 < b {
      YearsMonotone(a + 1, b);
    }
  }

  lemma MonthStep(y: int, m: int)
    requires 1 <= m <= 12
    ensures m < 12 ==> DaysBeforeMonth(y, m + 1) == DaysBeforeMonth(y, m) + DaysInMonth(y, m)
    ensures m == 12 ==> DaysBeforeMonth(y, m) + DaysInMonth(y, m) == DaysInYear(y)
  {
  }

  /** Whole months before a later month hold at least the earlier month's days. */
  lemma {:induction false} MonthsMonotone(y: int, a: int, b: int)
    requires 1 <= a < b <= 12
    ensures DaysBeforeMonth(y, a) + DaysInMonth(y, a) <= DaysBeforeMonth(y, b)
    decreases b - a
  {
    MonthStep(y, a);
    if a + 1 < b {
      MonthsMonotone(y, a + 1, b);
    }
  }

  /** The position of a valid date within its year lies between 1 and the year's length. */
  lemma DayOfYearBounds(d: Date)
    requires IsValid(d)
    ensures 1 <= DaysBeforeMonth(d.year, d.month) + d.day <= DaysInYear(d.year)
  {
    if d.month < 12 {
      MonthsMonotone(d.year, d.month, 12);
    }
    MonthStep(d.year, 12);
  }

  /** Day numbers order dates as the calendar does. */
  lemma OrdinalOrder(a: Date, b: Date)
    requires IsValid(a) && IsValid(b)
    ensures Before(a, b) <==> ToOrdinal(a) < ToOrdinal(b)
    ensures a == b <==> ToOrdinal(a) == ToOrdinal(b)
  {
    DayOfYearBounds(a);
    DayOfYearBounds(b);
    if a.year < b.year {
      YearsMonotone(a.year, b.year);
    } else if b.year < a.year {
      YearsMonotone(b.year, a.year);
    } else if a.month < b.month {
      MonthsMonotone(a.year, a.month, b.month);
    } else if b.month < a.month {
      MonthsMonotone(a.year, b.month, a.month);
    }
  }

  /** Every valid date has a representable day number. */
  lemma OrdinalInRange(d: Date)
    requires IsValid(d)
    ensures IsDay(ToOrdinal(d))
  {
    DayOfYearBounds(d);
    YearsMonotone(d.year, MaxYear + 1);
  }

  /** The year that contains day n, searching upwards from year y. */
  function YearContaining(n: int, y: int): (r: int)
    requires y >= 1 && DaysBeforeYear(y) < n
    ensures r >= y && DaysBeforeYear(r) < n <= DaysBeforeYear(r) + DaysInYear(r)
    decreases n - DaysBeforeYear(y)
  {
    YearStep(y);
    if n <= DaysBeforeYear(y) + DaysInYear(y) then y else YearContaining(n, y + 1)
  }

  /** The month of year y that contains day k of that year, searching upwards from month m. */
  function MonthContaining(y: int, k: int, m: int): (r: int)
    requires 1 <= m <= 12 && DaysBeforeMonth(y, m) < k <= DaysInYear(y)
    ensures m <= r <= 12 && DaysBeforeMonth(y, r) < k <= DaysBeforeMonth(y, r) + DaysInMonth(y, r)
    decreases 12 - m
  {
    MonthStep(y, m);
    if k <= DaysBeforeMonth(y, m) + DaysInMonth(y, m) then m else MonthContaining(y, k, m + 1)
  }

  /** No year is longer than 366 days, so year (n - 1) / 366 + 1 starts no later than day n. */
  lemma YearEstimate(n: int)
    requires n >= 1
    ensures DaysBeforeYear((n - 1) / 366 + 1) < n
  {
    var p := (n - 1) / 366;
    assert p / 4 - p / 100 + p / 400 <= p;
  }

  /** The date whose day number is n. */
  function FromOrdinal(n: int): (d: Date)
    requires IsDay(n)
    ensures IsValid(d) && ToOrdinal(d) == n
  {
    YearEstimate(n);
    var y := YearContaining(n, (n - 1) / 366 + 1);
    assert y <= MaxYear by {
      if y > MaxYear {
        YearsMonotone(MaxYear + 1, y);
      }
    }
    var m := MonthContaining(y, n - DaysBeforeYear(y), 1);
    Date(y, m, n - DaysBeforeYear(y) - DaysBeforeMonth(y, m))
  }

  /** Reading a date's day number back gives the date. */
  lemma FromToOrdinal(d: Date)
    requires IsValid(d)
    ensures IsDay(ToOrdinal(d)) && FromOrdinal(ToOrdinal(d)) == d
  {
    OrdinalInRange(d);
    OrdinalOrder(d, FromOrdinal(ToOrdinal(d)));
  }
}
