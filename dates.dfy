/**
 * Calendar arithmetic of the proleptic Gregorian calendar, the one Python's
 * `date` and `datetime` use. A day is its ordinal (day 1 is 1 January of
 * year 1, as `date.toordinal()`), an instant is a count of seconds whose
 * day is the instant divided by 86400. The day/month/year view is a total
 * bijection on valid civil dates.
 */
module Dates {

  /** A calendar day as a proleptic Gregorian ordinal. */
  type Day = int

  /** A naive local instant in seconds; its day is `DayOf`. */
  type Instant = int

  const SecondsPerDay: int := 86400

  function DayOf(t: Instant): Day {
    t / SecondsPerDay
  }

  function SecondOfDay(t: Instant): (s: int)
    ensures 0 <= s < SecondsPerDay
    ensures t == DayOf(t) * SecondsPerDay + s
  {
    t % SecondsPerDay
  }

  /** The instant at `second` seconds past midnight of day `d`. */
  function At(d: Day, second: int): (t: Instant)
    requires 0 <= second < SecondsPerDay
    ensures DayOf(t) == d && SecondOfDay(t) == second
  {
    d * SecondsPerDay + second
  }

  /** Monday is 0 and Sunday is 6, as `date.weekday()`; day 1 was a Monday. */
  function Weekday(d: Day): (w: int)
    ensures 0 <= w < 7
  {
    (d + 6) % 7
  }

  datatype Civil = Civil(year: int, month: int, day: int)

  predicate IsLeap(y: int) {
    y % 4 == 0 && (y % 100 != 0 || y % 400 == 0)
  }

  function DaysInYear(y: int): int {
    if IsLeap(y) then 366 else 365
  }

  function DaysInMonth(y: int, m: int): (n: int)
    requires 1 <= m <= 12
    ensures 28 <= n <= 31
  {
    if m == 2 then (if IsLeap(y) then 29 else 28)
    else if m == 4 || m == 6 || m == 9 || m == 11 then 30
    else 31
  }

  /** Days of year `y` that precede the first of month `m`. */
  function DaysBeforeMonth(y: int, m: int): int
    requires 1 <= m <= 12
  {
    var leap := if m > 2 && IsLeap(y) then 1 else 0;
    if m == 1 then 0
    else if m == 2 then 31
    else if m == 3 then 59 + leap
    else if m == 4 then 90 + leap
    else if m == 5 then 120 + leap
    else if m == 6 then 151 + leap
    else if m == 7 then 181 + leap
    else if m == 8 then 212 + leap
    else if m == 9 then 243 + leap
    else if m == 10 then 273 + leap
    else if m == 11 then 304 + leap
    else 334 + leap
  }

  /** Days that precede 1 January of year `y` (years before 1 count down). */
  function DaysBeforeYear(y: int): int {
    var p := y - 1;
    365 * p + p / 4 - p / 100 + p / 400
  }

  predicate Valid(c: Civil) {
    1 <= c.month <= 12 && 1 <= c.day <= DaysInMonth(c.year, c.month)
  }

  function ToOrdinal(c: Civil): Day
    requires Valid(c)
  {
    DaysBeforeYear(c.year) + DaysBeforeMonth(c.year, c.month) + c.day
  }

  lemma MonthStep(y: int, m: int)
    requires 1 <= m < 12
    ensures DaysBeforeMonth(y, m + 1) == DaysBeforeMonth(y, m) + DaysInMonth(y, m)
  {
  }

  lemma YearEnd(y: int)
    ensures DaysBeforeMonth(y, 12) + DaysInMonth(y, 12) == DaysInYear(y)
  {
  }

  lemma Step4(p: int)
    ensures (p + 1) / 4 == p / 4 + (if (p + 1) % 4 == 0 then 1 else 0)
  {
  }

  lemma Step100(p: int)
    ensures (p + 1) / 100 == p / 100 + (if (p + 1) % 100 == 0 then 1 else 0)
  {
  }

  lemma Step400(p: int)
    ensures (p + 1) / 400 == p / 400 + (if (p + 1) % 400 == 0 then 1 else 0)
  {
  }

  lemma Divides100(y: int)
    requires y % 100 == 0
    ensures y % 4 == 0
  {
    var k := y / 100;
    assert y == 4 * (25 * k);
  }

  lemma Divides400(y: int)
    requires y % 400 == 0
    ensures y % 100 == 0
  {
    var k := y / 400;
    assert y == 100 * (4 * k);
  }

  lemma YearStep(y: int)
    ensures DaysBeforeYear(y + 1) == DaysBeforeYear(y) + DaysInYear(y)
  {
    var p := y - 1;
    Step4(p);
    Step100(p);
    Step400(p);
    var a := if y % 4 == 0 then 1 else 0;
    var b := if y % 100 == 0 then 1 else 0;
    var c := if y % 400 == 0 then 1 else 0;
    assert DaysBeforeYear(y + 1) == DaysBeforeYear(y) + 365 + a - b + c;
    if y % 400 == 0 {
      Divides400(y);
      Divides100(y);
    } else if y % 100 == 0 {
      Divides100(y);
    }
  }

  /** Every day before a later year's first day lies before that year. */
  lemma {:induction false} YearsAscend(a: int, b: int)
    requires a < b
    ensures DaysBeforeYear(a + 1) <= DaysBeforeYear(b)
    decreases b - a
  {
    if a + 1 < b {
      YearsAscend(a + 1, b);
      YearStep(a + 1);
    }
  }

  /** A valid civil date lies strictly inside its own year and month. */
  lemma OrdinalInYear(c: Civil)
    requires Valid(c)
    ensures DaysBeforeYear(c.year) < ToOrdinal(c) <= DaysBeforeYear(c.year + 1)
    ensures DaysBeforeMonth(c.year, c.month) < ToOrdinal(c) - DaysBeforeYear(c.year)
               <= DaysBeforeMonth(c.year, c.month) + DaysInMonth(c.year, c.month)
  {
    YearStep(c.year);
    YearEnd(c.year);
  }

  /**
   * The date of the `r`-th day of year `y`, searching the months down from
   * `m`: the first month whose start precedes that day.
   */
  function InYear(y: int, r: int, m: int): Civil
    requires 1 <= m <= 12
    decreases m
  {
    if m == 1 || DaysBeforeMonth(y, m) < r then Civil(y, m, r - DaysBeforeMonth(y, m))
    else InYear(y, r, m - 1)
  }

  /** The date of ordinal `n`, searching the years up from `y`. */
  function CivilUp(n: Day, y: int): Civil
    requires DaysBeforeYear(y) < n
    decreases n - DaysBeforeYear(y)
  {
    YearStep(y);
    if n <= DaysBeforeYear(y + 1) then InYear(y, n - DaysBeforeYear(y), 12) else CivilUp(n, y + 1)
  }

  /** The date of ordinal `n`, searching the years down from `y`. */
  function CivilDown(n: Day, y: int): Civil
    requires n <= DaysBeforeYear(y + 1)
    decreases DaysBeforeYear(y + 1) - n
  {
    YearStep(y);
    if DaysBeforeYear(y) < n then InYear(y, n - DaysBeforeYear(y), 12) else CivilDown(n, y - 1)
  }

  /** The civil date of ordinal `n`, as `date.fromordinal`; the inverse of `ToOrdinal`. */
  function FromOrdinal(n: Day): Civil {
    if 0 < n then CivilUp(n, 1) else CivilDown(n, 0)
  }

  /** The month search lands on a valid date of year `y` that is its `r`-th day. */
  lemma {:induction false} InYearFound(y: int, r: int, m: int)
    requires 1 <= m <= 12 && 1 <= r <= DaysBeforeMonth(y, m) + DaysInMonth(y, m)
    ensures var c := InYear(y, r, m);
      c.year == y && Valid(c) && DaysBeforeMonth(y, c.month) + c.day == r
    decreases m
  {
    if !(m == 1 || DaysBeforeMonth(y, m) < r) {
      MonthStep(y, m - 1);
      InYearFound(y, r, m - 1);
    }
  }

  /** Every day of year `y`, 1 to the year's length, is found by the month search. */
  lemma YearDayFound(y: int, r: int)
    requires 1 <= r <= DaysInYear(y)
    ensures var c := InYear(y, r, 12);
      c.year == y && Valid(c) && DaysBeforeMonth(y, c.month) + c.day == r
  {
    YearEnd(y);
    InYearFound(y, r, 12);
  }

  lemma {:induction false} CivilUpFound(n: Day, y: int)
    requires DaysBeforeYear(y) < n
    ensures Valid(CivilUp(n, y)) && ToOrdinal(CivilUp(n, y)) == n
    decreases n - DaysBeforeYear(y)
  {
    YearStep(y);
    if n <= DaysBeforeYear(y + 1) {
      YearDayFound(y, n - DaysBeforeYear(y));
    } else {
      CivilUpFound(n, y + 1);
    }
  }

  lemma {:induction false} CivilDownFound(n: Day, y: int)
    requires n <= DaysBeforeYear(y + 1)
    ensures Valid(CivilDown(n, y)) && ToOrdinal(CivilDown(n, y)) == n
    decreases DaysBeforeYear(y + 1) - n
  {
    YearStep(y);
    if DaysBeforeYear(y) < n {
      YearDayFound(y, n - DaysBeforeYear(y));
    } else {
      CivilDownFound(n, y - 1);
    }
  }

  /** Every ordinal names a valid date whose ordinal it is. */
  lemma FromOrdinalInverse(n: Day)
    ensures Valid(FromOrdinal(n)) && ToOrdinal(FromOrdinal(n)) == n
  {
    if 0 < n {
      CivilUpFound(n, 1);
    } else {
      CivilDownFound(n, 0);
    }
  }

  /** Two civil dates with the same ordinal are the same date. */
  lemma ToOrdinalInjective(a: Civil, b: Civil)
    requires Valid(a) && Valid(b) && ToOrdinal(a) == ToOrdinal(b)
    ensures a == b
  {
    YearStep(a.year);
    YearStep(b.year);
    OrdinalInYear(a);
    OrdinalInYear(b);
    if a.year < b.year {
      YearsAscend(a.year, b.year);
    } else if b.year < a.year {
      YearsAscend(b.year, a.year);
    }
    assert a.year == b.year;
    if a.month < b.month {
      MonthsAscend(a.year, a.month, b.month);
    } else if b.month < a.month {
      MonthsAscend(a.year, b.month, a.month);
    }
  }

  lemma {:induction false} MonthsAscend(y: int, a: int, b: int)
    requires 1 <= a < b <= 12
    ensures DaysBeforeMonth(y, a) + DaysInMonth(y, a) <= DaysBeforeMonth(y, b)
    decreases b - a
  {
    MonthStep(y, a);
    if a + 1 < b {
      MonthsAscend(y, a + 1, b);
    }
  }

  /** Round trip: the civil view of a date's ordinal is that date. */
  lemma FromToOrdinal(c: Civil)
    requires Valid(c)
    ensures FromOrdinal(ToOrdinal(c)) == c
  {
    FromOrdinalInverse(ToOrdinal(c));
    ToOrdinalInjective(FromOrdinal(ToOrdinal(c)), c);
  }

  /** Later in (year, month, day) order means a larger ordinal. */
  lemma OrdinalAscends(a: Civil, b: Civil)
    requires Valid(a) && Valid(b)
    requires a.year < b.year
          || (a.year == b.year && a.month < b.month)
          || (a.year == b.year && a.month == b.month && a.day < b.day)
    ensures ToOrdinal(a) < ToOrdinal(b)
  {
    OrdinalInYear(a);
    OrdinalInYear(b);
    if a.year < b.year {
      YearsAscend(a.year, b.year);
    } else if a.month < b.month {
      MonthsAscend(a.year, a.month, b.month);
    }
  }

  function Min(a: int, b: int): int {
    if a <= b then a else b
  }

  /**
   * The date `k` calendar months after `c` (before it when `k` is negative),
   * the day clamped to the length of the target month, as
   * `relativedelta(months=k)` does.
   */
  function ShiftMonths(c: Civil, k: int): (r: Civil)
    requires Valid(c)
    ensures Valid(r)
    ensures r.year * 12 + r.month == c.year * 12 + c.month + k
    ensures r.day <= c.day && (r.day == c.day || r.day == DaysInMonth(r.year, r.month))
  {
    var t := c.year * 12 + (c.month - 1) + k;
    var y := t / 12;
    var m := t % 12 + 1;
    Civil(y, m, Min(c.day, DaysInMonth(y, m)))
  }

  /** The instant `k` months from `t`, with its time of day kept. */
  function ShiftInstant(t: Instant, k: int): (r: Instant)
    ensures SecondOfDay(r) == SecondOfDay(t)
  {
    FromOrdinalInverse(DayOf(t));
    At(ToOrdinal(ShiftMonths(FromOrdinal(DayOf(t)), k)), SecondOfDay(t))
  }

  /** Shifting forward by a positive number of months lands on a later day. */
  lemma ShiftForwardIsLater(t: Instant, k: int)
    requires k > 0
    ensures DayOf(t) < DayOf(ShiftInstant(t, k))
  {
    var c := FromOrdinal(DayOf(t));
    FromOrdinalInverse(DayOf(t));
    OrdinalAscends(c, ShiftMonths(c, k));
  }

  /** Shifting back by a positive number of months lands on an earlier day. */
  lemma ShiftBackIsEarlier(t: Instant, k: int)
    requires k > 0
    ensures DayOf(ShiftInstant(t, -k)) < DayOf(t)
  {
    var c := FromOrdinal(DayOf(t));
    FromOrdinalInverse(DayOf(t));
    OrdinalAscends(ShiftMonths(c, -k), c);
  }

  /** The year-free `DD.MM` key of a day. */
  datatype DayMonth = DayMonth(day: int, month: int)

  function DayMonthOf(d: Day): DayMonth {
    var c := FromOrdinal(d);
    DayMonth(c.day, c.month)
  }
}
