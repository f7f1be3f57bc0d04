/**
  The two `Date` extensions: the "days until" caption shown for upcoming
  bills, and the rule that marks the third payday of a calendar month as an
  extra payday. Today's date is a parameter.
*/
module DateExtensions {
  import opened Wrappers
  import opened CalendarMath
  import opened Text
  import Seqs

  // ---------------------------------------------------------------------------
  // daysUntil

  /** `" Days"`, the suffix of the caption for dates two or more days away. */
  const DaysSuffix: string := " Days"

  /** `daysUntil` on day `today`: "Overdue", "Today", "Tomorrow" or "<n> Days". */
  function DaysUntil(target: Day, today: Day): (r: string)
    ensures r == "Overdue" <==> DaysBetween(today, target) < 0
    ensures r == "Today" <==> DaysBetween(today, target) == 0
    ensures r == "Tomorrow" <==> DaysBetween(today, target) == 1
    ensures DaysBetween(today, target) >= 2 ==>
              |r| > |DaysSuffix| && r[|r| - |DaysSuffix|..] == DaysSuffix
              && Digits(r[..|r| - |DaysSuffix|]) && ParseDecimal(r[..|r| - |DaysSuffix|]) == DaysBetween(today, target)
              && r[0] != '0'
  {
    var days := DaysBetween(today, target);
    if days < 0 then "Overdue"
    else if days == 0 then "Today"
    else if days == 1 then "Tomorrow"
    else
      var digits := DecimalString(days);
      var r := digits + DaysSuffix;
      DecimalRoundTrip(days);
      assert r[..|r| - |DaysSuffix|] == digits;
      assert r[|r| - |DaysSuffix|..] == DaysSuffix;
      assert r[0] != 'O' && r[0] != 'T' by { assert r[0] == digits[0]; }
      r
  }

  /** The caption is the same on every day that lies the same distance before the target. */
  lemma DaysUntilOnlyDependsOnDistance(target1: Day, today1: Day, target2: Day, today2: Day)
    requires DaysBetween(today1, target1) == DaysBetween(today2, target2)
    ensures DaysUntil(target1, today1) == DaysUntil(target2, today2)
  {
  }

  /** Concrete captions across a month boundary. */
  lemma DaysUntilExamples()
    ensures DaysUntil(Date(2024, 3, 1), Date(2024, 2, 29)) == "Tomorrow"
    ensures DaysUntil(Date(2024, 3, 2), Date(2024, 2, 20)) == "11 Days"
    ensures DaysUntil(Date(2024, 2, 19), Date(2024, 2, 20)) == "Overdue"
  {
    assert DaysBetween(Date(2024, 2, 20), Date(2024, 3, 2)) == 11;
    assert DecimalString(11) == "11";
  }

  // ---------------------------------------------------------------------------
  // isExtraPayDay

  predicate InMonth(d: Day, year: int, month: int) {
    d.year == year && d.month == month
  }

  /** How many entries of `s` fall in the given month of the given year. */
  function CountInMonth(s: seq<Day>, year: int, month: int): nat {
    if |s| == 0 then 0
    else CountInMonth(s[..|s| - 1], year, month) + (if InMonth(s[|s| - 1], year, month) then 1 else 0)
  }

  /** `isExtraPayDay(in:)`: the first occurrence of `d` is the third payday of its month in the list. */
  predicate IsExtraPayDay(d: Day, paydays: seq<Day>)
    ensures IsExtraPayDay(d, paydays) ==> d in paydays
  {
    match Seqs.FirstIndex(paydays, d)
    case None => false
    case Some(i) => CountInMonth(paydays[..i + 1], d.year, d.month) == 3
  }

  /** An extra payday's month holds at least three paydays of the list. */
  lemma ExtraPayDayMonthHasThree(d: Day, paydays: seq<Day>)
    requires IsExtraPayDay(d, paydays)
    ensures CountInMonth(paydays, d.year, d.month) >= 3
  {
    CountInMonthMonotone(paydays, Seqs.FirstIndex(paydays, d).value + 1, |paydays|, d.year, d.month);
    assert paydays[..|paydays|] == paydays;
  }

  lemma {:induction false} CountInMonthBound(s: seq<Day>, year: int, month: int)
    ensures CountInMonth(s, year, month) <= |s|
  {
    if |s| > 0 {
      CountInMonthBound(s[..|s| - 1], year, month);
    }
  }

  /** Counting over a longer prefix never counts fewer; it counts one more for each match added. */
  lemma {:induction false} CountInMonthPrefix(s: seq<Day>, i: nat, j: nat, year: int, month: int)
    requires i < j <= |s|
    requires InMonth(s[j - 1], year, month)
    ensures CountInMonth(s[..j], year, month) >= CountInMonth(s[..i], year, month) + 1
    decreases j - i
  {
    assert s[..j][..j - 1] == s[..j - 1];
    if i < j - 1 {
      CountInMonthMonotone(s, i, j - 1, year, month);
    }
  }

  lemma {:induction false} CountInMonthMonotone(s: seq<Day>, i: nat, j: nat, year: int, month: int)
    requires i <= j <= |s|
    ensures CountInMonth(s[..i], year, month) <= CountInMonth(s[..j], year, month)
    decreases j - i
  {
    if i < j {
      assert s[..j][..j - 1] == s[..j - 1];
      CountInMonthMonotone(s, i, j - 1, year, month);
    }
  }

  lemma CountInMonthStep(s: seq<Day>, k: nat, year: int, month: int)
    requires k < |s|
    ensures CountInMonth(s[..k + 1], year, month)
            == CountInMonth(s[..k], year, month) + (if InMonth(s[k], year, month) then 1 else 0)
  {
    assert s[..k + 1][..k] == s[..k];
  }

  /** A day that is not a payday is never an extra payday. */
  lemma NotListedIsNotExtra(d: Day, paydays: seq<Day>)
    requires d !in paydays
    ensures !IsExtraPayDay(d, paydays)
  {
  }

  /** The first payday in the list is never an extra payday. */
  lemma FirstPaydayIsNotExtra(paydays: seq<Day>)
    requires |paydays| > 0
    ensures !IsExtraPayDay(paydays[0], paydays)
  {
    CountInMonthBound(paydays[..1], paydays[0].year, paydays[0].month);
  }

  /** Two different days of the same month are never both extra paydays, whatever the list. */
  lemma AtMostOneExtraPerMonth(a: Day, b: Day, paydays: seq<Day>)
    requires a != b && a.year == b.year && a.month == b.month
    ensures !(IsExtraPayDay(a, paydays) && IsExtraPayDay(b, paydays))
  {
    if IsExtraPayDay(a, paydays) && IsExtraPayDay(b, paydays) {
      var ia, ib := Seqs.FirstIndex(paydays, a).value, Seqs.FirstIndex(paydays, b).value;
      if ia < ib {
        CountInMonthPrefix(paydays, ia + 1, ib + 1, a.year, a.month);
      } else {
        CountInMonthPrefix(paydays, ib + 1, ia + 1, a.year, a.month);
      }
    }
  }

  /** A listed day is extra exactly when two paydays of its month precede its first occurrence. */
  lemma ExtraIffTwoEarlier(d: Day, paydays: seq<Day>)
    requires d in paydays
    ensures var i := Seqs.FirstIndex(paydays, d).value;
            IsExtraPayDay(d, paydays) <==> CountInMonth(paydays[..i], d.year, d.month) == 2
  {
    CountInMonthStep(paydays, Seqs.FirstIndex(paydays, d).value, d.year, d.month);
  }

  /** The first and second paydays of a month in the list are never extra. */
  lemma FirstTwoOfMonthAreNotExtra(d: Day, paydays: seq<Day>)
    requires d in paydays
    requires CountInMonth(paydays[..Seqs.FirstIndex(paydays, d).value], d.year, d.month) < 2
    ensures !IsExtraPayDay(d, paydays)
  {
    ExtraIffTwoEarlier(d, paydays);
  }

  /** Strictly ascending days, as the payday schedule lists them. */
  predicate Ascending(s: seq<Day>) {
    forall i, j :: 0 <= i < j < |s| ==> DayNumber(s[i]) < DayNumber(s[j])
  }

  /** An earlier day in the same month has a smaller day of the month. */
  lemma EarlierInSameMonth(a: Day, b: Day)
    requires MonthIndex(a) == MonthIndex(b) && DayNumber(a) < DayNumber(b)
    ensures a.day < b.day
  {
    DayNumberFromMonthStart(a);
    DayNumberFromMonthStart(b);
  }

  /**
    In an ascending list ending in `s[|s| - 1]`, no month from that day's on
    holds more entries than the day of the month the list ends on.
  */
  lemma {:induction false} AscendingCountBound(s: seq<Day>, year: int, month: int)
    requires |s| > 0 && Ascending(s)
    requires 1 <= month <= 12
    requires MonthIndex(s[|s| - 1]) <= year * 12 + month - 1
    ensures CountInMonth(s, year, month) <= if InMonth(s[|s| - 1], year, month) then s[|s| - 1].day else 0
  {
    var last := s[|s| - 1];
    var init := s[..|s| - 1];
    if |init| > 0 {
      var prev := init[|init| - 1];
      assert DayNumber(prev) < DayNumber(last);
      if MonthIndex(last) < MonthIndex(prev) {
        LaterMonthIsLater(last, prev);
      }
      assert Ascending(init);
      AscendingCountBound(init, year, month);
      if InMonth(prev, year, month) && InMonth(last, year, month) {
        EarlierInSameMonth(prev, last);
      }
    }
  }

  /** With an ascending schedule, an extra payday is never the 1st or 2nd of its month. */
  lemma ExtraPayDayIsLate(d: Day, paydays: seq<Day>)
    requires Ascending(paydays)
    requires IsExtraPayDay(d, paydays)
    ensures d.day >= 3
  {
    var i := Seqs.FirstIndex(paydays, d).value;
    var prefix := paydays[..i + 1];
    assert prefix[|prefix| - 1] == d;
    AscendingCountBound(prefix, d.year, d.month);
  }

  /** Biweekly Fridays in early 2024. */
  const Biweekly: seq<Day> := [Date(2024, 2, 16), Date(2024, 3, 1), Date(2024, 3, 15), Date(2024, 3, 29), Date(2024, 4, 12)]

  /** March 2024 has three of those paydays, and its last one is extra... */
  lemma ThirdPaydayIsExtra()
    ensures IsExtraPayDay(Date(2024, 3, 29), Biweekly)
  {
    assert Seqs.FirstIndex(Biweekly, Date(2024, 3, 29)) == Some(3);
    assert CountInMonth(Biweekly[..0], 2024, 3) == 0;
    CountInMonthStep(Biweekly, 0, 2024, 3);
    CountInMonthStep(Biweekly, 1, 2024, 3);
    CountInMonthStep(Biweekly, 2, 2024, 3);
    CountInMonthStep(Biweekly, 3, 2024, 3);
  }

  /** ...while the second one is not. */
  lemma SecondPaydayIsNotExtra()
    ensures !IsExtraPayDay(Date(2024, 3, 15), Biweekly)
  {
    assert Seqs.FirstIndex(Biweekly, Date(2024, 3, 15)) == Some(2);
    assert CountInMonth(Biweekly[..0], 2024, 3) == 0;
    CountInMonthStep(Biweekly, 0, 2024, 3);
    CountInMonthStep(Biweekly, 1, 2024, 3);
    CountInMonthStep(Biweekly, 2, 2024, 3);
  }
}
