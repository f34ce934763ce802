/**
 * The proleptic Gregorian calendar as Python's `calendar` and `datetime`
 * modules use it: leap years, month lengths, which (day, month, year) triples
 * `datetime` accepts, day numbers (`date.toordinal()`) and the order of dates
 * and moments.
 */
module Calendar {
  import opened Arith


  /** A calendar date as `datetime` holds it; only some triples are real dates. */
  datatype Date = Date(year: int, month: int, day: int)

  /** A point in time: a date and the microseconds elapsed since its midnight. */
  datatype Moment = Moment(date: Date, micros: int)

  /** `datetime.MINYEAR` and `datetime.MAXYEAR`. */
  const MinYear: int := 1
  const MaxYear: int := 9999
  const MicrosPerDay: int := 86_400_000_000

  /** `calendar.isleap(year)` */
  predicate IsLeapYear(year: int) {
    year % 4 == 0 && (year % 100 != 0 || year % 400 == 0)
  }

  /** `calendar.mdays`: the length of each month in a common year (index 0 unused). */
  const MonthDays: seq<int> := [0, 31, 28, 31, 30, 31, 30, 31, 31, 30, 31, 30, 31]

  /** `calendar.monthrange(year, month)[1]`: the number of days in the month. */
  function DaysInMonth(year: int, month: int): (r: int)
    requires 1 <= month <= 12
    ensures 28 <= r <= 31
  {
    MonthDays[month] + (if month == 2 && IsLeapYear(year) then 1 else 0)
  }

  /**
   * `DateValidator.is_valid_date(day, month, year)`: the month is 1..12, the
   * day lies within the month, and `datetime(year, month, day)` accepts the
   * year (1..9999).
   */
  predicate IsValidDate(day: int, month: int, year: int) {
    && 1 <= month <= 12
    && 1 <= day <= DaysInMonth(year, month)
    && MinYear <= year <= MaxYear
  }

  predicate IsReal(d: Date) {
    IsValidDate(d.day, d.month, d.year)
  }

  /** A moment as `datetime.now()` can produce it. */
  predicate IsRealMoment(t: Moment) {
    IsReal(t.date) && 0 <= t.micros < MicrosPerDay
  }

  /**
   * The maximum day of each month as the table of section 5.7 of RFC 3339
   * gives it, with the leap-year rule of its Appendix C.
   */
  function RfcMaxDay(year: int, month: int): int
    requires 1 <= month <= 12
  {
    if month == 2 then (if year % 4 == 0 && (year % 100 != 0 || year % 400 == 0) then 29 else 28)
    else if month in {4, 6, 9, 11} then 30
    else 31
  }

  /** The calendar check agrees with RFC 3339's day-of-month table. */
  lemma DaysInMonthIsRfcTable(year: int, month: int)
    requires 1 <= month <= 12
    ensures DaysInMonth(year, month) == RfcMaxDay(year, month)
  {
  }

  /** February 29 is a real date exactly in Gregorian leap years. */
  lemma Feb29IffLeap(year: int)
    requires MinYear <= year <= MaxYear
    ensures IsValidDate(29, 2, year) <==> (year % 4 == 0 && (year % 100 != 0 || year % 400 == 0))
  {
  }

  /** `datetime`'s day count before the first of January of a year. */
  function DaysBeforeYear(year: int): int {
    var y := year - 1;
    y * 365 + y / 4 - y / 100 + y / 400
  }

  /** `datetime`'s `_DAYS_BEFORE_MONTH` table for a common year. */
  const DaysBeforeMonthTable: seq<int> := [0, 0, 31, 59, 90, 120, 151, 181, 212, 243, 273, 304, 334, 365]

  /** Days in the year before the first of a month (month 13 stands for the next year). */
  function DaysBeforeMonth(year: int, month: int): int
    requires 1 <= month <= 13
  {
    DaysBeforeMonthTable[month] + (if month > 2 && IsLeapYear(year) then 1 else 0)
  }

  function DaysInYear(year: int): int {
    if IsLeapYear(year) then 366 else 365
  }

  /** `date.toordinal()`: 0001-01-01 is day 1. */
  function Ordinal(d: Date): int
    requires 1 <= d.month <= 12
  {
    DaysBeforeYear(d.year) + DaysBeforeMonth(d.year, d.month) + d.day
  }

  /** Python's comparison of dates: by year, then month, then day. */
  predicate DateLess(a: Date, b: Date) {
    a.year < b.year || (a.year == b.year && (a.month < b.month || (a.month == b.month && a.day < b.day)))
  }

  /** Python's comparison of datetimes: by date, then time of day. */
  predicate MomentLess(a: Moment, b: Moment) {
    DateLess(a.date, b.date) || (a.date == b.date && a.micros < b.micros)
  }

  /** The datetime that `strptime` and `datetime(y, m, d)` produce: the date at midnight. */
  function Midnight(d: Date): Moment {
    Moment(d, 0)
  }

  lemma MonthStep(year: int, month: int)
    requires 1 <= month <= 12
    ensures DaysBeforeMonth(year, month + 1) == DaysBeforeMonth(year, month) + DaysInMonth(year, month)
  {
  }

  lemma YearStep(year: int)
    ensures DaysBeforeYear(year + 1) == DaysBeforeYear(year) + DaysInYear(year)
  {
    QuotientStep(year, 4);
    QuotientStep(year, 100);
    QuotientStep(year, 400);
  }

  /** Moving from `x - 1` to `x`, the quotient by `k` grows exactly when `k` divides `x`. */
  lemma QuotientStep(x: int, k: nat)
    requires k > 0
    ensures x / k == (x - 1) / k + (if x % k == 0 then 1 else 0)
  {
    var q, r := (x - 1) / k, (x - 1) % k;
    assert x == q * k + r + 1;
    if r + 1 == k {
      assert (q + 1) * k == q * k + k;
      DivisionUnique(x, k, q + 1);
    } else {
      DivisionUnique(x, k, q);
    }
  }

  lemma {:induction false} YearsAfter(a: int, b: int)
    requires a < b
    ensures DaysBeforeYear(a) + DaysInYear(a) <= DaysBeforeYear(b)
    decreases b - a
  {
    YearStep(a);
    if a + 1 < b {
      YearsAfter(a + 1, b);
    }
  }

  lemma {:induction false} MonthsAfter(year: int, m1: int, m2: int)
    requires 1 <= m1 < m2 <= 13
    ensures DaysBeforeMonth(year, m1) + DaysInMonth(year, m1) <= DaysBeforeMonth(year, m2)
    decreases m2 - m1
  {
    MonthStep(year, m1);
    if m1 + 1 < m2 {
      MonthsAfter(year, m1 + 1, m2);
    }
  }

  /** A day of a real date lies within its year's day count. */
  lemma DayWithinYear(d: Date)
    requires IsReal(d)
    ensures DaysBeforeMonth(d.year, d.month) + d.day <= DaysInYear(d.year)
  {
    if d.month < 12 {
      MonthsAfter(d.year, d.month, 13);
    }
  }

  /**
   * The day number orders real dates exactly as Python compares them, so for
   * midnight datetimes `(b - a).days > 0` holds exactly when `a < b`.
   */
  lemma OrdinalOrder(a: Date, b: Date)
    requires IsReal(a) && IsReal(b)
    ensures DateLess(a, b) <==> Ordinal(a) < Ordinal(b)
    ensures a == b <==> Ordinal(a) == Ordinal(b)
  {
    if DateLess(a, b) {
      OrdinalStrict(a, b);
    } else if DateLess(b, a) {
      OrdinalStrict(b, a);
    }
  }

  lemma OrdinalStrict(a: Date, b: Date)
    requires IsReal(a) && IsReal(b) && DateLess(a, b)
    ensures Ordinal(a) < Ordinal(b)
  {
    if a.year < b.year {
      DayWithinYear(a);
      YearsAfter(a.year, b.year);
    } else if a.month < b.month {
      MonthsAfter(a.year, a.month, b.month);
    }
  }
}
