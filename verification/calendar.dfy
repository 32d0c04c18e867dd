/** The part of .NET `DateTime` the services rely on: ordering (`<`),
    `AddMonths`, `.Date`, `DayOfWeek` and the first day of a month. A value
    is a proleptic Gregorian date with a time of day in whole seconds;
    which clock produced it (UTC or local) is up to the caller. */
module Calendar {

  /** Calendar fields of a moment; `DateTime` below keeps only the ones that
      name a real date. */
  datatype Stamp = Stamp(year: int, month: int, day: int, second: int)

  predicate IsLeapYear(y: int)
  {
    y % 4 == 0 && (y % 100 != 0 || y % 400 == 0)
  }

  function DaysInMonth(y: int, m: int): (n: int)
    ensures 28 <= n <= 31
  {
    if m == 2 then (if IsLeapYear(y) then 29 else 28)
    else if m == 4 || m == 6 || m == 9 || m == 11 then 30
    else 31
  }

  /** A representable date: year 1 or later, a real month and day, and a
      time of day within the day. */
  predicate Valid(d: Stamp)
  {
    1 <= d.year && 1 <= d.month <= 12 && 1 <= d.day <= DaysInMonth(d.year, d.month)
    && 0 <= d.second < 86400
  }

  type DateTime = d: Stamp | Valid(d) witness Stamp(1, 1, 1, 0)

  /** `a < b` on `DateTime`: chronological order. */
  predicate Before(a: DateTime, b: DateTime)
  {
    a.year < b.year
    || (a.year == b.year && a.month < b.month)
    || (a.year == b.year && a.month == b.month && a.day < b.day)
    || (a.year == b.year && a.month == b.month && a.day == b.day && a.second < b.second)
  }

  function Min(a: int, b: int): int
  {
    if a <= b then a else b
  }

  /** `DateTime.AddMonths(n)`: the same day `n` months later, clamped to the
      last day of the target month, with the time of day kept. */
  function AddMonths(d: DateTime, n: nat): (r: DateTime)
    ensures r.second == d.second
    ensures r.day == Min(d.day, DaysInMonth(r.year, r.month))
    ensures r.year * 12 + (r.month - 1) == d.year * 12 + (d.month - 1) + n
  {
    var total := d.year * 12 + (d.month - 1) + n;
    var y := total / 12;
    var m := total % 12 + 1;
    Stamp(y, m, Min(d.day, DaysInMonth(y, m)), d.second)
  }

  /** One month on is always strictly later, whatever the day clamping does. */
  lemma OneMonthLater(d: DateTime)
    ensures Before(d, AddMonths(d, 1))
  {
    var r := AddMonths(d, 1);
    if d.month == 12 {
      assert r.year == d.year + 1;
    } else {
      assert r.year == d.year && r.month == d.month + 1;
    }
  }

  /** Days in the months of year `y` that come before month `m`. */
  function DaysBeforeMonth(y: int, m: int): (n: int)
    requires 1 <= m <= 12
    ensures 0 <= n <= 335
  {
    var common := [0, 31, 59, 90, 120, 151, 181, 212, 243, 273, 304, 334][m - 1];
    if m > 2 && IsLeapYear(y) then common + 1 else common
  }

  function DaysInYear(y: int): (n: int)
    ensures n == 365 || n == 366
  {
    if IsLeapYear(y) then 366 else 365
  }

  /** Day number of January 1st of year `y`: the days of the years before
      it, counting the Gregorian leap days. */
  function YearStart(y: int): (n: int)
    requires 1 <= y
    ensures n >= 0
  {
    var x := y - 1;
    assert x / 4 >= x / 100 by {
      assert x / 100 * 25 <= x / 4;
    }
    x * 365 + x / 4 - x / 100 + x / 400
  }

  /** `d.Date` as a day number: days since 0001-01-01, which is day 0 and
      the earliest a date can be. `DayNumberOrdersDates` below shows that
      the number follows the calendar order of dates. */
  function DayNumber(d: DateTime): (n: int)
    ensures n >= 0
    ensures d.year == 1 && d.month == 1 && d.day == 1 ==> n == 0
  {
    YearStart(d.year) + DaysBeforeMonth(d.year, d.month) + d.day - 1
  }

  /** `a.Date < b.Date`. */
  predicate DateBefore(a: DateTime, b: DateTime)
  {
    a.year < b.year
    || (a.year == b.year && a.month < b.month)
    || (a.year == b.year && a.month == b.month && a.day < b.day)
  }

  /** `a.Date == b.Date`. */
  predicate SameDate(a: DateTime, b: DateTime)
  {
    a.year == b.year && a.month == b.month && a.day == b.day
  }

  /** How `x / 4`, `x / 100` and `x / 400` step as `x` grows by one. */
  lemma DivSteps(x: int)
    ensures (x + 1) / 4 == x / 4 + (if (x + 1) % 4 == 0 then 1 else 0)
    ensures (x + 1) / 100 == x / 100 + (if (x + 1) % 100 == 0 then 1 else 0)
    ensures (x + 1) / 400 == x / 400 + (if (x + 1) % 400 == 0 then 1 else 0)
  {
  }

  /** Every 400th year is a 100th year, and every 100th year a 4th. */
  lemma DivisorsNest(y: int)
    ensures y % 400 == 0 ==> y % 100 == 0
    ensures y % 100 == 0 ==> y % 4 == 0
  {
    if y % 400 == 0 {
      var k := y / 400;
      assert y == 100 * (4 * k);
      MultipleMod(4 * k);
    }
    if y % 100 == 0 {
      var k := y / 100;
      assert y == 4 * (25 * k);
      MultipleMod(25 * k);
    }
  }

  lemma MultipleMod(j: int)
    ensures (100 * j) % 100 == 0
    ensures (4 * j) % 4 == 0
  {
  }

  /** A year is as long as the gap to the next year's start. */
  lemma YearStep(y: int)
    requires 1 <= y
    ensures YearStart(y + 1) == YearStart(y) + DaysInYear(y)
  {
    var x := y - 1;
    DivSteps(x);
    DivisorsNest(y);
    var four := if y % 4 == 0 then 1 else 0;
    var hundred := if y % 100 == 0 then 1 else 0;
    var fourHundred := if y % 400 == 0 then 1 else 0;
    assert YearStart(y + 1) == YearStart(y) + 365 + four - hundred + fourHundred;
    assert DaysInYear(y) == 365 + four - hundred + fourHundred;
  }

  /** Every day of year `a` comes before the start of a later year `b`. */
  lemma {:induction false} YearsAscend(a: int, b: int)
    requires 1 <= a < b
    ensures YearStart(a) + DaysInYear(a) <= YearStart(b)
    decreases b - a
  {
    if b == a + 1 {
      YearStep(a);
    } else {
      YearsAscend(a, b - 1);
      YearStep(b - 1);
    }
  }

  /** A month is as long as the gap to the next month's start. */
  lemma MonthStep(y: int, m: int)
    requires 1 <= m < 12
    ensures DaysBeforeMonth(y, m + 1) == DaysBeforeMonth(y, m) + DaysInMonth(y, m)
  {
  }

  /** Every day of month `a` comes before the start of a later month `b`
      of the same year. */
  lemma {:induction false} MonthsAscend(y: int, a: int, b: int)
    requires 1 <= a < b <= 12
    ensures DaysBeforeMonth(y, a) + DaysInMonth(y, a) <= DaysBeforeMonth(y, b)
    decreases b - a
  {
    if b == a + 1 {
      MonthStep(y, a);
    } else {
      MonthsAscend(y, a, b - 1);
      MonthStep(y, b - 1);
    }
  }

  /** The months of a year fit in the year. */
  lemma MonthsFitYear(y: int, m: int)
    requires 1 <= m <= 12
    ensures DaysBeforeMonth(y, m) + DaysInMonth(y, m) <= DaysInYear(y)
  {
    if m < 12 {
      MonthsAscend(y, m, 12);
    }
  }

  /** An earlier date has a smaller day number. */
  lemma EarlierDateSmallerNumber(a: DateTime, b: DateTime)
    requires DateBefore(a, b)
    ensures DayNumber(a) < DayNumber(b)
  {
    if a.year < b.year {
      MonthsFitYear(a.year, a.month);
      YearsAscend(a.year, b.year);
    } else if a.month < b.month {
      MonthsAscend(a.year, a.month, b.month);
    }
  }

  /** The day number orders dates as the calendar does: earlier dates get
      smaller numbers, the same date the same number, and a later moment
      never a smaller one. This is what lets the dashboard compare
      `PaidAt.Date` with window starts given as day numbers. */
  lemma DayNumberOrdersDates(a: DateTime, b: DateTime)
    ensures DateBefore(a, b) <==> DayNumber(a) < DayNumber(b)
    ensures SameDate(a, b) <==> DayNumber(a) == DayNumber(b)
    ensures Before(a, b) ==> DayNumber(a) <= DayNumber(b)
  {
    if DateBefore(a, b) {
      EarlierDateSmallerNumber(a, b);
    } else if DateBefore(b, a) {
      EarlierDateSmallerNumber(b, a);
    }
  }

  /** `DayOfWeek` of a day number, 0 = Sunday … 6 = Saturday; day 0
      (0001-01-01) was a Monday, so the day `w` days back is a Sunday. */
  function DayOfWeek(dayNumber: int): (w: int)
    ensures 0 <= w < 7
    ensures (dayNumber - w + 1) % 7 == 0
  {
    (dayNumber + 1) % 7
  }

  /** `today.AddDays(-(int)today.DayOfWeek)`: the week window opens on the
      Sunday on or before `today`. */
  function StartOfWeek(today: int): (r: int)
    ensures DayOfWeek(r) == 0
    ensures today - 6 <= r <= today
  {
    var w := (today + 1) % 7;
    var q := (today + 1) / 7;
    assert today + 1 == 7 * q + w;
    assert today - DayOfWeek(today) + 1 == 7 * q;
    today - DayOfWeek(today)
  }

  /** `new DateTime(d.Year, d.Month, 1)` as a day number: the month
      window opens on the first of the month of `d`, at most 30 days before
      it. */
  function StartOfMonth(d: DateTime): (r: int)
    ensures r == DayNumber(d) - (d.day - 1)
    ensures DayNumber(d) - 30 <= r <= DayNumber(d)
  {
    DayNumber(Stamp(d.year, d.month, 1, 0))
  }
}
