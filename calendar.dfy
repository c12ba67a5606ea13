/**
 * Proleptic Gregorian calendar arithmetic, the part of the date library the
 * reminder views rely on: month lengths, day numbers counted from
 * 1970-01-01 (the JavaScript epoch), the date a day number falls on, the
 * weekday (0 = Sunday), the first and last day of a month and every day of
 * an interval. Years use astronomical numbering (year 0 is 1 BC), as
 * JavaScript's `Date` does.
 */
module Calendar {

  datatype Date = Date(year: int, month: int, day: int)

  predicate IsLeapYear(y: int) {
    y % 4 == 0 && (y % 100 != 0 || y % 400 == 0)
  }

  function DaysInYear(y: int): int {
    if IsLeapYear(y) then 366 else 365
  }

  function DaysInMonth(y: int, m: int): (n: int)
    requires 1 <= m <= 12
    ensures 28 <= n <= 31
    ensures n == 29 <==> (m == 2 && IsLeapYear(y))
  {
    if m == 2 then (if IsLeapYear(y) then 29 else 28)
    else if m == 4 || m == 6 || m == 9 || m == 11 then 30
    else 31
  }

  predicate ValidDate(d: Date) {
    1 <= d.month <= 12 && 1 <= d.day <= DaysInMonth(d.year, d.month)
  }

  // ------------------------------------------------------------ day numbers

  /** Leap years in 1..a, extended to all integers so that differences stay right. */
  function LeapYearsThrough(a: int): int {
    a / 4 - a / 100 + a / 400
  }

  /** Days from 0000-01-01 to the first day of year `y`. */
  function DaysBeforeYear(y: int): int {
    365 * y + LeapYearsThrough(y - 1) + 1
  }

  /** Consecutive years start `DaysInYear` days apart. */
  lemma YearLength(y: int)
    ensures DaysBeforeYear(y + 1) == DaysBeforeYear(y) + DaysInYear(y)
  {
    var a := y - 1;
    QuarterStep(a);
    CenturyStep(a);
    EraStep(a);
    CycleFacts(y);
  }

  /** `a / 4` grows by one exactly when `a + 1` is a multiple of 4. */
  lemma QuarterStep(a: int)
    ensures (a + 1) / 4 == a / 4 + (if (a + 1) % 4 == 0 then 1 else 0)
  {
    assert a == 4 * (a / 4) + a % 4;
  }

  /** `a / 100` grows by one exactly when `a + 1` is a multiple of 100. */
  lemma CenturyStep(a: int)
    ensures (a + 1) / 100 == a / 100 + (if (a + 1) % 100 == 0 then 1 else 0)
  {
    assert a == 100 * (a / 100) + a % 100;
  }

  /** `a / 400` grows by one exactly when `a + 1` is a multiple of 400. */
  lemma EraStep(a: int)
    ensures (a + 1) / 400 == a / 400 + (if (a + 1) % 400 == 0 then 1 else 0)
  {
    assert a == 400 * (a / 400) + a % 400;
  }

  /** Multiples of 400 are multiples of 100, and those are multiples of 4. */
  lemma CycleFacts(y: int)
    ensures y % 400 == 0 ==> y % 100 == 0
    ensures y % 100 == 0 ==> y % 4 == 0
  {
    if y % 400 == 0 {
      var t := 4 * (y / 400);
      assert y == 400 * (y / 400) && y == 100 * t;
      assert y == 100 * (y / 100) + y % 100 && 0 <= y % 100 < 100;
      assert 100 * (t - y / 100) == y % 100;
    }
    if y % 100 == 0 {
      var t := 25 * (y / 100);
      assert y == 100 * (y / 100) && y == 4 * t;
      assert y == 4 * (y / 4) + y % 4 && 0 <= y % 4 < 4;
      assert 4 * (t - y / 4) == y % 4;
    }
  }

  /** Every 400 years hold exactly 146097 days. */
  lemma EraStart(q: int)
    ensures DaysBeforeYear(400 * q) == 146097 * q
  {
    var a := 400 * q - 1;
    assert a / 4 == 100 * q - 1;
    assert a / 100 == 4 * q - 1;
    assert a / 400 == q - 1;
  }

  /** Later years start later: year starts are strictly increasing. */
  lemma {:induction false} YearsOrdered(y1: int, y2: int)
    requires y1 < y2
    ensures DaysBeforeYear(y1 + 1) <= DaysBeforeYear(y2)
    decreases y2 - y1
  {
    if y1 + 1 < y2 {
      YearsOrdered(y1, y2 - 1);
      YearLength(y2 - 1);
    }
  }

  /** Days in the months of year `y` before month `m`; month 13 closes the year. */
  function DaysBeforeMonth(y: int, m: int): int
    requires 1 <= m <= 13
  {
    [0, 31, 59, 90, 120, 151, 181, 212, 243, 273, 304, 334, 365][m - 1]
      + (if m > 2 && IsLeapYear(y) then 1 else 0)
  }

  /** Consecutive months start `DaysInMonth` days apart, and twelve months make the year. */
  lemma MonthLength(y: int, m: int)
    requires 1 <= m <= 12
    ensures DaysBeforeMonth(y, m + 1) == DaysBeforeMonth(y, m) + DaysInMonth(y, m)
    ensures DaysBeforeMonth(y, 13) == DaysInYear(y)
  {
  }

  lemma {:induction false} MonthsOrdered(y: int, m1: int, m2: int)
    requires 1 <= m1 < m2 <= 13
    ensures DaysBeforeMonth(y, m1) + DaysInMonth(y, m1) <= DaysBeforeMonth(y, m2)
    decreases m2 - m1
  {
    MonthLength(y, m1);
    if m1 + 1 < m2 {
      MonthsOrdered(y, m1 + 1, m2);
    }
  }

  /** Day number of 1970-01-01 counted from 0000-01-01. */
  const UnixEpochDays: int := 719528

  /** Days since 1970-01-01 (negative before it). */
  function DayNumber(d: Date): int
    requires 1 <= d.month <= 12
  {
    DaysBeforeYear(d.year) + DaysBeforeMonth(d.year, d.month) + d.day - 1 - UnixEpochDays
  }

  /** The year whose days contain day `n` (counted from 0000-01-01), searched upward from `y`. */
  function YearContaining(n: int, y: int): (r: int)
    requires DaysBeforeYear(y) <= n
    ensures DaysBeforeYear(r) <= n < DaysBeforeYear(r + 1)
    decreases n - DaysBeforeYear(y)
  {
    YearLength(y);
    if n < DaysBeforeYear(y + 1) then y else YearContaining(n, y + 1)
  }

  /** The month of year `y` holding day-of-year `doy` (0-based), searched upward from `m`. */
  function MonthContaining(y: int, doy: int, m: int): (r: int)
    requires 1 <= m <= 12
    requires DaysBeforeMonth(y, m) <= doy < DaysInYear(y)
    ensures m <= r <= 12
    ensures DaysBeforeMonth(y, r) <= doy < DaysBeforeMonth(y, r) + DaysInMonth(y, r)
    decreases 12 - m
  {
    MonthLength(y, m);
    if doy < DaysBeforeMonth(y, m) + DaysInMonth(y, m) then m
    else MonthContaining(y, doy, m + 1)
  }

  /** The date that lies `z` days after 1970-01-01. */
  function FromDayNumber(z: int): (d: Date)
    ensures ValidDate(d) && DayNumber(d) == z
  {
    var n := z + UnixEpochDays;
    var q := n / 146097;
    EraStart(q);
    var y := YearContaining(n, 400 * q);
    var doy := n - DaysBeforeYear(y);
    YearLength(y);
    var m := MonthContaining(y, doy, 1);
    Date(y, m, doy - DaysBeforeMonth(y, m) + 1)
  }

  /** A valid date's day lies within its year, counted from 0000-01-01. */
  lemma DayWithinYear(d: Date)
    requires ValidDate(d)
    ensures DaysBeforeYear(d.year) <= DayNumber(d) + UnixEpochDays < DaysBeforeYear(d.year + 1)
  {
    MonthLength(d.year, d.month);
    MonthsOrdered(d.year, d.month, 13);
    YearLength(d.year);
  }

  /** Distinct valid dates have distinct day numbers. */
  lemma DayNumberInjective(a: Date, b: Date)
    requires ValidDate(a) && ValidDate(b) && DayNumber(a) == DayNumber(b)
    ensures a == b
  {
    DayWithinYear(a);
    DayWithinYear(b);
    if a.year < b.year {
      YearsOrdered(a.year, b.year);
    } else if b.year < a.year {
      YearsOrdered(b.year, a.year);
    }
    assert a.year == b.year;
    if a.month < b.month {
      MonthsOrdered(a.year, a.month, b.month);
    } else if b.month < a.month {
      MonthsOrdered(a.year, b.month, a.month);
    }
  }

  /** Day numbers and dates are inverse: a valid date comes back from its day number. */
  lemma DayNumberRoundTrip(d: Date)
    requires ValidDate(d)
    ensures FromDayNumber(DayNumber(d)) == d
  {
    DayNumberInjective(FromDayNumber(DayNumber(d)), d);
  }

  // ------------------------------------------------------------ weekdays

  /** `getDay()`: 0 = Sunday .. 6 = Saturday; 1970-01-01 was a Thursday. */
  function DayOfWeek(d: Date): (w: int)
    requires 1 <= d.month <= 12
    ensures 0 <= w <= 6
  {
    (DayNumber(d) + 4) % 7
  }

  /** The day after a date falls on the next weekday. */
  lemma NextDayNextWeekday(d: Date)
    requires ValidDate(d)
    ensures DayOfWeek(FromDayNumber(DayNumber(d) + 1)) == (DayOfWeek(d) + 1) % 7
  {
    var z := DayNumber(d);
    var e := FromDayNumber(z + 1);
    assert DayNumber(e) == z + 1;
    WeekdayStep(z + 4);
  }

  lemma WeekdayStep(x: int)
    ensures (x + 1) % 7 == (x % 7 + 1) % 7
  {
  }

  // ------------------------------------------------------------ months and intervals

  /** `startOfMonth`. */
  function StartOfMonth(y: int, m: int): (d: Date)
    requires 1 <= m <= 12
    ensures ValidDate(d) && d.day == 1
  {
    Date(y, m, 1)
  }

  /** `endOfMonth`, as a calendar day: the month's last day. */
  function EndOfMonth(y: int, m: int): (d: Date)
    requires 1 <= m <= 12
    ensures ValidDate(d) && d.year == y && d.month == m && d.day == DaysInMonth(y, m)
    ensures forall e: Date :: ValidDate(e) && e.year == y && e.month == m ==> e.day <= d.day
  {
    Date(y, m, DaysInMonth(y, m))
  }

  /** The day after the end of a month is the first of the next month. */
  lemma EndOfMonthThenNextMonth(y: int, m: int)
    requires 1 <= m <= 12
    ensures DayNumber(EndOfMonth(y, m)) + 1
      == if m == 12 then DayNumber(StartOfMonth(y + 1, 1)) else DayNumber(StartOfMonth(y, m + 1))
  {
    MonthLength(y, m);
    YearLength(y);
  }

  /** `eachDayOfInterval({start, end})`: every day from `start` to `end` inclusive, ascending. */
  function EachDayOfInterval(start: Date, end: Date): (days: seq<Date>)
    requires ValidDate(start) && ValidDate(end) && DayNumber(start) <= DayNumber(end)
    ensures |days| == DayNumber(end) - DayNumber(start) + 1
    ensures forall i :: 0 <= i < |days| ==> ValidDate(days[i]) && DayNumber(days[i]) == DayNumber(start) + i
  {
    DaysFrom(DayNumber(start), DayNumber(end) - DayNumber(start) + 1)
  }

  /** The `n` consecutive dates from day number `first` on. */
  function DaysFrom(first: int, n: nat): (days: seq<Date>)
    ensures |days| == n
    ensures forall i :: 0 <= i < n ==> days[i] == DayAfter(first, i)
  {
    seq(n, i => DayAfter(first, i))
  }

  /** The date `i` days after day number `first`. */
  function DayAfter(first: int, i: int): (d: Date)
    ensures ValidDate(d) && DayNumber(d) == first + i
  {
    FromDayNumber(first + i)
  }

  /** The last day of a month lies `DaysInMonth - 1` days after its first. */
  lemma MonthSpan(y: int, m: int)
    requires 1 <= m <= 12
    ensures DayNumber(EndOfMonth(y, m)) == DayNumber(StartOfMonth(y, m)) + DaysInMonth(y, m) - 1
  {
  }

  /**
   * The days of a month, as the calendar lists them: day 1 up to the month's
   * last day, with no gap, 28 to 31 of them.
   */
  lemma MonthDays(y: int, m: int)
    requires 1 <= m <= 12
    ensures DayNumber(StartOfMonth(y, m)) <= DayNumber(EndOfMonth(y, m))
    ensures var days := EachDayOfInterval(StartOfMonth(y, m), EndOfMonth(y, m));
      && 28 <= |days| <= 31 && |days| == DaysInMonth(y, m)
      && (forall i :: 0 <= i < |days| ==> days[i] == Date(y, m, i + 1))
  {
    MonthSpan(y, m);
    var days := EachDayOfInterval(StartOfMonth(y, m), EndOfMonth(y, m));
    forall i | 0 <= i < |days|
      ensures days[i] == Date(y, m, i + 1)
    {
      DayNumberInjective(days[i], Date(y, m, i + 1));
    }
  }

  /** A valid date lies between the first and the last day of a month exactly when it belongs to that month. */
  lemma WithinMonthBounds(y: int, m: int, d: Date)
    requires 1 <= m <= 12 && ValidDate(d)
    ensures DayNumber(StartOfMonth(y, m)) <= DayNumber(d) <= DayNumber(EndOfMonth(y, m))
        <==> (d.year == y && d.month == m)
  {
    var start, end := StartOfMonth(y, m), EndOfMonth(y, m);
    if DayNumber(start) <= DayNumber(d) <= DayNumber(end) {
      var e := Date(y, m, DayNumber(d) - DayNumber(start) + 1);
      assert DayNumber(e) == DayNumber(d);
      DayNumberInjective(e, d);
    }
  }

  /** A valid date belongs to its month's interval, at position day - 1. */
  lemma InMonthDays(y: int, m: int, d: Date)
    requires 1 <= m <= 12 && ValidDate(d) && d.year == y && d.month == m
    ensures var days := EachDayOfInterval(StartOfMonth(y, m), EndOfMonth(y, m));
      d.day - 1 < |days| && days[d.day - 1] == d
  {
    MonthDays(y, m);
  }

  /** Calendar order of two dates, by day number (`isBefore` on start-of-day values). */
  predicate IsBefore(a: Date, b: Date)
    requires 1 <= a.month <= 12 && 1 <= b.month <= 12
  {
    DayNumber(a) < DayNumber(b)
  }
}
