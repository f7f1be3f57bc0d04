/**
  Calendar arithmetic on whole days in the proleptic Gregorian calendar.

  A date is modelled as a civil (year, month, day) triple, without a time of
  day; most of the app's comparisons go through the start of the day, but the
  credit-card ordering compares raw instants, a difference the model does not
  keep. `DayNumber` turns a date into
  an ordinal so that day differences are plain subtraction. Adding months or
  years keeps the day of the month and clamps it to the length of the target
  month (January 31 plus one month is the last day of February), which is
  the behaviour of Foundation's Gregorian calendar.
*/
module CalendarMath {

  datatype Date = Date(year: int, month: int, day: int)

  predicate IsLeapYear(y: int) {
    y % 4 == 0 && (y % 100 != 0 || y % 400 == 0)
  }

  function DaysInMonth(y: int, m: int): (n: int)
    requires 1 <= m <= 12
    ensures 28 <= n <= 31
    ensures m == 2 ==> (n == 29 <==> IsLeapYear(y))
  {
    if m == 2 then (if IsLeapYear(y) then 29 else 28)
    else if m == 4 || m == 6 || m == 9 || m == 11 then 30
    else 31
  }

  predicate Valid(d: Date) {
    1 <= d.month <= 12 && 1 <= d.day <= DaysInMonth(d.year, d.month)
  }

  /** A real calendar day. */
  type Day = d: Date | Valid(d) witness Date(1970, 1, 1)

  function YearLength(y: int): int {
    if IsLeapYear(y) then 366 else 365
  }

  /** Days in the months of year `y` that precede month `m`. */
  function DaysBeforeMonth(y: int, m: int): int
    requires 1 <= m <= 12
  {
    var leap := if IsLeapYear(y) then 1 else 0;
    match m
    case 1 => 0
    case 2 => 31
    case 3 => 59 + leap
    case 4 => 90 + leap
    case 5 => 120 + leap
    case 6 => 151 + leap
    case 7 => 181 + leap
    case 8 => 212 + leap
    case 9 => 243 + leap
    case 10 => 273 + leap
    case 11 => 304 + leap
    case _ => 334 + leap
  }

  /** Days from 0001-01-01 up to (not including) January 1 of year `y`. */
  function DaysBeforeYear(y: int): int {
    var k := y - 1;
    365 * k + k / 4 - k / 100 + k / 400
  }

  /** Ordinal of a day: 0001-01-01 is day 1, and consecutive days differ by one. */
  function DayNumber(d: Day): int {
    DaysBeforeYear(d.year) + DaysBeforeMonth(d.year, d.month) + d.day
  }

  /** The number of days from `a` to `b`: positive when `b` lies in the future of `a`. */
  function DaysBetween(a: Day, b: Day): int {
    DayNumber(b) - DayNumber(a)
  }

  lemma YearStep(y: int)
    ensures DaysBeforeYear(y + 1) == DaysBeforeYear(y) + YearLength(y)
  {
    var k := y - 1;
    assert y / 4 - k / 4 == (if y % 4 == 0 then 1 else 0);
    assert y / 100 - k / 100 == (if y % 100 == 0 then 1 else 0);
    assert y / 400 - k / 400 == (if y % 400 == 0 then 1 else 0);
    if y % 100 == 0 {
      assert y == 100 * (y / 100);
      assert y % 4 == 0;
    }
    if y % 400 == 0 {
      assert y == 400 * (y / 400);
      assert y % 100 == 0;
    }
  }

  lemma MonthStep(y: int, m: int)
    requires 1 <= m < 12
    ensures DaysBeforeMonth(y, m + 1) == DaysBeforeMonth(y, m) + DaysInMonth(y, m)
  {
  }

  function NextDay(d: Day): Day {
    if d.day < DaysInMonth(d.year, d.month) then Date(d.year, d.month, d.day + 1)
    else if d.month < 12 then Date(d.year, d.month + 1, 1)
    else Date(d.year + 1, 1, 1)
  }

  function PrevDay(d: Day): Day {
    if d.day > 1 then Date(d.year, d.month, d.day - 1)
    else if d.month > 1 then Date(d.year, d.month - 1, DaysInMonth(d.year, d.month - 1))
    else Date(d.year - 1, 12, 31)
  }

  lemma NextDayNumber(d: Day)
    ensures DayNumber(NextDay(d)) == DayNumber(d) + 1
  {
    if d.day == DaysInMonth(d.year, d.month) {
      if d.month < 12 {
        MonthStep(d.year, d.month);
      } else {
        YearStep(d.year);
      }
    }
  }

  lemma PrevDayNumber(d: Day)
    ensures DayNumber(PrevDay(d)) == DayNumber(d) - 1
  {
    if d.day == 1 {
      if d.month > 1 {
        MonthStep(d.year, d.month - 1);
      } else {
        YearStep(d.year - 1);
      }
    }
  }

  /** Calendar's `date(byAdding: .day, value: n, to: d)`, one day at a time. */
  function AddDays(d: Day, n: int): (r: Day)
    ensures DayNumber(r) == DayNumber(d) + n
    decreases if n < 0 then -n else n
  {
    if n == 0 then d
    else if n > 0 then
      NextDayNumber(d);
      AddDays(NextDay(d), n - 1)
    else
      PrevDayNumber(d);
      AddDays(PrevDay(d), n + 1)
  }

  /** Months elapsed since January of year 0. */
  function MonthIndex(d: Date): int {
    d.year * 12 + d.month - 1
  }

  /** The last valid day of month number `k` (counted as in `MonthIndex`) that is not after day `day`. */
  function ClampedDay(k: int, day: int): (r: Day)
    requires 1 <= day
    ensures MonthIndex(r) == k
    ensures r.day <= day
    ensures r.day == day || r.day == DaysInMonth(r.year, r.month)
  {
    var y := k / 12;
    var m := k % 12 + 1;
    Date(y, m, if day <= DaysInMonth(y, m) then day else DaysInMonth(y, m))
  }

  /** Calendar's `date(byAdding: .month, value: n, to: d)`: same day of the month, clamped. */
  function AddMonths(d: Day, n: int): (r: Day)
    ensures MonthIndex(r) == MonthIndex(d) + n
    ensures r.day <= d.day
    ensures d.day <= DaysInMonth(r.year, r.month) ==> r.day == d.day
    ensures d.day > DaysInMonth(r.year, r.month) ==> r.day == DaysInMonth(r.year, r.month)
  {
    ClampedDay(MonthIndex(d) + n, d.day)
  }

  /** Calendar's `date(byAdding: .year, value: n, to: d)`: February 29 becomes February 28 in a common year. */
  function AddYears(d: Day, n: int): (r: Day)
    ensures r.year == d.year + n && r.month == d.month
    ensures r.day <= d.day
    ensures d.day <= DaysInMonth(r.year, r.month) ==> r.day == d.day
    ensures d.day > DaysInMonth(r.year, r.month) ==> r.day == DaysInMonth(r.year, r.month)
  {
    ClampedDay(MonthIndex(d) + 12 * n, d.day)
  }

  /** Day number of the first day of month number `k`. */
  function MonthStart(k: int): int {
    DaysBeforeYear(k / 12) + DaysBeforeMonth(k / 12, k % 12 + 1) + 1
  }

  lemma DayNumberFromMonthStart(d: Day)
    ensures DayNumber(d) == MonthStart(MonthIndex(d)) + d.day - 1
  {
    var k := MonthIndex(d);
    assert k / 12 == d.year && k % 12 + 1 == d.month;
  }

  lemma MonthStartStep(k: int)
    ensures MonthStart(k + 1) == MonthStart(k) + DaysInMonth(k / 12, k % 12 + 1)
  {
    var y := k / 12;
    if k % 12 < 11 {
      assert (k + 1) / 12 == y && (k + 1) % 12 == k % 12 + 1;
      MonthStep(y, k % 12 + 1);
    } else {
      assert (k + 1) / 12 == y + 1 && (k + 1) % 12 == 0;
      YearStep(y);
    }
  }

  /** Month starts never decrease as the month number grows. */
  lemma {:induction false} MonthStartMonotone(i: int, j: int)
    requires i <= j
    ensures MonthStart(i) <= MonthStart(j)
    decreases j - i
  {
    if i < j {
      MonthStartStep(j - 1);
      MonthStartMonotone(i, j - 1);
    }
  }

  /** The last day of a month lies before the start of the next month. */
  lemma MonthEndBeforeNextStart(a: Day)
    ensures DayNumber(a) < MonthStart(MonthIndex(a) + 1)
  {
    var i := MonthIndex(a);
    DayNumberFromMonthStart(a);
    MonthStartStep(i);
    assert i / 12 == a.year && i % 12 + 1 == a.month;
  }

  /** A day in a later month has a larger day number. */
  lemma LaterMonthIsLater(a: Day, b: Day)
    requires MonthIndex(a) < MonthIndex(b)
    ensures DayNumber(a) < DayNumber(b)
  {
    MonthEndBeforeNextStart(a);
    MonthStartMonotone(MonthIndex(a) + 1, MonthIndex(b));
    DayNumberFromMonthStart(b);
  }

  /** Different days have different day numbers, so comparing day numbers is comparing days. */
  lemma DayNumberInjective(a: Day, b: Day)
    requires DayNumber(a) == DayNumber(b)
    ensures a == b
  {
    if MonthIndex(a) < MonthIndex(b) {
      LaterMonthIsLater(a, b);
    } else if MonthIndex(b) < MonthIndex(a) {
      LaterMonthIsLater(b, a);
    } else {
      var k := MonthIndex(a);
      assert k / 12 == a.year && k % 12 + 1 == a.month;
      assert k / 12 == b.year && k % 12 + 1 == b.month;
    }
  }

  /** Adding a positive number of months moves strictly forward in time. */
  lemma AddMonthsAdvances(d: Day, n: int)
    requires n >= 1
    ensures DayNumber(AddMonths(d, n)) > DayNumber(d)
  {
    LaterMonthIsLater(d, AddMonths(d, n));
  }

  /** Adding a positive number of years moves strictly forward in time. */
  lemma AddYearsAdvances(d: Day, n: int)
    requires n >= 1
    ensures DayNumber(AddYears(d, n)) > DayNumber(d)
  {
    LaterMonthIsLater(d, AddYears(d, n));
  }

  /** The end-of-month rule pinned on concrete dates. */
  lemma EndOfMonthClamping()
    ensures AddMonths(Date(2024, 1, 31), 1) == Date(2024, 2, 29)
    ensures AddMonths(Date(2023, 1, 31), 1) == Date(2023, 2, 28)
    ensures AddYears(Date(2024, 2, 29), 1) == Date(2025, 2, 28)
    ensures AddDays(Date(2024, 12, 31), 1) == Date(2025, 1, 1)
  {
    NextDayNumber(Date(2024, 12, 31));
  }
}
