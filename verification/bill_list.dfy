/**
  Aggregates over a list of bills (`Bills`, an array of `Bill`) and the
  `due(_:)` bucketing of non-credit-card bills by how many days away their
  due day is.
*/
module BillList {
  import opened Wrappers
  import opened CalendarMath
  import Bills
  import Seqs

  type Bill = Bills.Bill

  // ---------------------------------------------------------------------------
  // Partition by category and sums

  predicate NotCreditCard(b: Bill) {
    !Bills.IsCreditCard(b)
  }

  /** `creditCards`: the credit-card bills, in list order. */
  function CreditCards(s: seq<Bill>): (r: seq<Bill>)
    ensures forall i :: 0 <= i < |r| ==> Bills.IsCreditCard(r[i])
    ensures forall b :: b in r <==> b in s && Bills.IsCreditCard(b)
  {
    Seqs.Keep(s, Bills.IsCreditCard)
  }

  /** `withoutCreditCards`: every other bill, in list order. */
  function WithoutCreditCards(s: seq<Bill>): (r: seq<Bill>)
    ensures forall i :: 0 <= i < |r| ==> !Bills.IsCreditCard(r[i])
    ensures forall b :: b in r <==> b in s && !Bills.IsCreditCard(b)
  {
    Seqs.Keep(s, NotCreditCard)
  }

  /** Every bill is either a credit card or not, exactly once. */
  lemma CategorySplit(s: seq<Bill>)
    ensures multiset(CreditCards(s)) + multiset(WithoutCreditCards(s)) == multiset(s)
  {
    Seqs.KeepSplit(s, Bills.IsCreditCard, NotCreditCard);
  }

  predicate HasAmount(b: Bill) {
    b.amount.Some?
  }

  /** A bill's card balance if it is a credit card, 0 otherwise. */
  function CardBalance(b: Bill): real {
    if Bills.IsCreditCard(b) then Bills.BalanceOrZero(b) else 0.0
  }

  /** A bill's credit limit if it is a credit card, 0 otherwise. */
  function CardLimit(b: Bill): real {
    if Bills.IsCreditCard(b) then Bills.LimitOrZero(b) else 0.0
  }

  /**
    `totalAmount`: the sum of all amounts, a missing amount counting as 0, so
    it is the sum over the bills that have one.
  */
  function TotalAmount(s: seq<Bill>): (r: real)
    ensures r == Seqs.Sum(Seqs.Keep(s, HasAmount), Bills.AmountOrZero)
    ensures (forall i :: 0 <= i < |s| ==> Bills.AmountOrZero(s[i]) >= 0.0) ==> r >= 0.0
  {
    Seqs.SumKeep(s, Bills.AmountOrZero, HasAmount, Bills.AmountOrZero);
    assert (forall i :: 0 <= i < |s| ==> Bills.AmountOrZero(s[i]) >= 0.0) ==> Seqs.Sum(s, Bills.AmountOrZero) >= 0.0 by {
      if forall i :: 0 <= i < |s| ==> Bills.AmountOrZero(s[i]) >= 0.0 {
        Seqs.SumNonNegative(s, Bills.AmountOrZero);
      }
    }
    Seqs.Sum(s, Bills.AmountOrZero)
  }

  /**
    `totalBalance`: the sum of the card balances of the credit-card bills; a
    balance stored on a bill of another category does not count.
  */
  function TotalBalance(s: seq<Bill>): (r: real)
    ensures r == Seqs.Sum(s, CardBalance)
  {
    Seqs.SumKeep(s, Bills.BalanceOrZero, Bills.IsCreditCard, CardBalance);
    Seqs.Sum(CreditCards(s), Bills.BalanceOrZero)
  }

  /** `totalCreditLimit`: the sum of the credit limits of the credit-card bills. */
  function TotalCreditLimit(s: seq<Bill>): (r: real)
    ensures r == Seqs.Sum(s, CardLimit)
  {
    Seqs.SumKeep(s, Bills.LimitOrZero, Bills.IsCreditCard, CardLimit);
    Seqs.Sum(CreditCards(s), Bills.LimitOrZero)
  }

  /** The total of all bills is the credit-card total plus the total of the rest. */
  lemma TotalAmountSplits(s: seq<Bill>)
    ensures TotalAmount(s) == TotalAmount(CreditCards(s)) + TotalAmount(WithoutCreditCards(s))
  {
    Seqs.SumSplit(s, Bills.AmountOrZero, Bills.IsCreditCard, NotCreditCard);
  }

  /** Appending bills adds their totals. */
  lemma TotalsAppend(a: seq<Bill>, b: seq<Bill>)
    ensures TotalAmount(a + b) == TotalAmount(a) + TotalAmount(b)
    ensures TotalBalance(a + b) == TotalBalance(a) + TotalBalance(b)
    ensures TotalCreditLimit(a + b) == TotalCreditLimit(a) + TotalCreditLimit(b)
  {
    Seqs.SumAppend(a, b, Bills.AmountOrZero);
    Seqs.KeepAppend(a, b, Bills.IsCreditCard);
    Seqs.SumAppend(CreditCards(a), CreditCards(b), Bills.BalanceOrZero);
    Seqs.SumAppend(CreditCards(a), CreditCards(b), Bills.LimitOrZero);
  }

  /**
    Overall utilization of all cards; a store without credit limit reads 0
    instead of dividing by zero.
  */
  function CreditCardUtilization(s: seq<Bill>): (r: real)
    ensures TotalCreditLimit(s) == 0.0 ==> r == 0.0
    ensures TotalCreditLimit(s) != 0.0 ==> r * TotalCreditLimit(s) == TotalBalance(s)
  {
    if TotalCreditLimit(s) == 0.0 then 0.0 else TotalBalance(s) / TotalCreditLimit(s)
  }

  /**
    The store-wide payment that would bring all cards to 10% utilization;
    absent when they are already at or below it.
  */
  function RecommendedPayment(s: seq<Bill>): (r: Option<real>)
    ensures r.None? <==> TotalBalance(s) <= 0.1 * TotalCreditLimit(s)
    ensures r.Some? ==> r.value > 0.0 && TotalBalance(s) - r.value == 0.1 * TotalCreditLimit(s)
  {
    var value := TotalBalance(s) - TotalCreditLimit(s) * 0.1;
    if value > 0.0 then Some(value) else None
  }

  // ---------------------------------------------------------------------------
  // Due buckets

  datatype Timeframe = OverdueBills | Today | Tomorrow | ThisWeek | ThisMonth | Later

  /**
    Whether a bill belongs in a timeframe on day `today`; `nextMonth` is the
    first day of the month after today's. Bills without a due date are in no
    timeframe.
  */
  predicate InTimeframe(b: Bill, tf: Timeframe, today: Day, nextMonth: Day)
    ensures InTimeframe(b, tf, today, nextMonth) ==> b.dueDate.Some?
    ensures tf == Today ==> (InTimeframe(b, tf, today, nextMonth) <==> b.dueDate == Some(today))
    ensures tf == Tomorrow ==> (InTimeframe(b, tf, today, nextMonth) <==> b.dueDate == Some(NextDay(today)))
    ensures tf == OverdueBills ==>
              (InTimeframe(b, tf, today, nextMonth) <==> b.dueDate.Some? && DayNumber(b.dueDate.value) < DayNumber(today))
  {
    match b.dueDate
    case None => false
    case Some(due) =>
      var diff := DaysBetween(today, due);
      NextDayNumber(today);
      assert diff == 0 ==> due == today by {
        if diff == 0 { DayNumberInjective(due, today); }
      }
      assert diff == 1 ==> due == NextDay(today) by {
        if diff == 1 { DayNumberInjective(due, NextDay(today)); }
      }
      match tf
      case OverdueBills => diff < 0
      case Today => diff == 0
      case Tomorrow => diff == 1
      case ThisWeek => 2 <= diff <= 7
      case ThisMonth => diff >= 8 && DayNumber(due) < DayNumber(nextMonth)
      case Later => DayNumber(due) >= DayNumber(nextMonth)
  }

  /**
    `Bill.byDate` is a strict weak order, as `sorted(by:)` demands; in
    particular it is irreflexive and transitive, as the insertion sort needs.
  */
  lemma ByDateSortable()
    ensures forall a, b, c :: Bills.StrictWeakOrderOn(Bills.ByDate, a, b, c)
    ensures Seqs.Irreflexive(Bills.ByDate) && Seqs.Transitive(Bills.ByDate)
  {
    forall a, b, c
      ensures Bills.StrictWeakOrderOn(Bills.ByDate, a, b, c)
    {
      Bills.ByDateStrictOrder(a, b, c);
    }
  }

  /** A bill `due(tf)` lists: not a credit card, and in the timeframe. */
  predicate Listed(b: Bill, tf: Timeframe, today: Day, nextMonth: Day) {
    !Bills.IsCreditCard(b) && InTimeframe(b, tf, today, nextMonth)
  }

  /**
    `Bills.due(_:)`: exactly the non-credit-card bills of the timeframe, each
    as often as it occurs, sorted by due day ascending and amount descending.
  */
  function Due(s: seq<Bill>, tf: Timeframe, today: Day, nextMonth: Day): (r: seq<Bill>)
    ensures forall b :: multiset(r)[b] == if Listed(b, tf, today, nextMonth) then multiset(s)[b] else 0
    ensures forall b :: b in r <==> b in s && Listed(b, tf, today, nextMonth)
    ensures Seqs.SortedBy(r, Bills.ByDate)
  {
    var inFrame := (b: Bill) => InTimeframe(b, tf, today, nextMonth);
    var selected := Seqs.Keep(WithoutCreditCards(s), inFrame);
    ByDateSortable();
    var r := Seqs.InsertionSort(selected, Bills.ByDate);
    assert forall b :: multiset(r)[b] == if Listed(b, tf, today, nextMonth) then multiset(s)[b] else 0 by {
      forall b
        ensures multiset(r)[b] == if Listed(b, tf, today, nextMonth) then multiset(s)[b] else 0
      {
        Seqs.KeepCount(WithoutCreditCards(s), inFrame, b);
        Seqs.KeepCount(s, NotCreditCard, b);
      }
    }
    r
  }

  /** Sorted by `byDate` means due days never decrease along the result. */
  lemma DueDaysAscend(s: seq<Bill>, tf: Timeframe, today: Day, nextMonth: Day)
    ensures var r := Due(s, tf, today, nextMonth);
            forall i, j :: 0 <= i < j < |r| ==>
              r[i].dueDate.Some? && r[j].dueDate.Some? &&
              DayNumber(r[i].dueDate.value) <= DayNumber(r[j].dueDate.value)
  {
    var r := Due(s, tf, today, nextMonth);
    forall k | 0 <= k < |r|
      ensures r[k].dueDate.Some?
    {
      assert r[k] in r;
    }
    DatedAscend(r);
  }

  /** In dated bills sorted by `byDate`, due days never decrease. */
  lemma DatedAscend(r: seq<Bill>)
    requires forall k :: 0 <= k < |r| ==> r[k].dueDate.Some?
    requires Seqs.SortedBy(r, Bills.ByDate)
    ensures forall i, j :: 0 <= i < j < |r| ==> DayNumber(r[i].dueDate.value) <= DayNumber(r[j].dueDate.value)
  {
    forall i, j | 0 <= i < j < |r|
      ensures DayNumber(r[i].dueDate.value) <= DayNumber(r[j].dueDate.value)
    {
      assert !Bills.ByDate(r[j], r[i]);
    }
  }

  /** Overdue, today, tomorrow and this week never share a bill; this month and later neither. */
  lemma NearBucketsDisjoint(b: Bill, tf1: Timeframe, tf2: Timeframe, today: Day, nextMonth: Day)
    requires tf1 != tf2
    requires (tf1 in [OverdueBills, Today, Tomorrow, ThisWeek] && tf2 in [OverdueBills, Today, Tomorrow, ThisWeek])
             || {tf1, tf2} == {ThisMonth, Later}
    ensures !(InTimeframe(b, tf1, today, nextMonth) && InTimeframe(b, tf2, today, nextMonth))
  {
  }

  /** Every dated bill is in one of the first five timeframes or in `Later`. */
  lemma BucketsCover(b: Bill, today: Day, nextMonth: Day)
    requires b.dueDate.Some?
    ensures exists tf :: InTimeframe(b, tf, today, nextMonth)
  {
    var diff := DaysBetween(today, b.dueDate.value);
    if diff < 0 { assert InTimeframe(b, OverdueBills, today, nextMonth); }
    else if diff == 0 { assert InTimeframe(b, Today, today, nextMonth); }
    else if diff == 1 { assert InTimeframe(b, Tomorrow, today, nextMonth); }
    else if diff <= 7 { assert InTimeframe(b, ThisWeek, today, nextMonth); }
    else if DayNumber(b.dueDate.value) < DayNumber(nextMonth) { assert InTimeframe(b, ThisMonth, today, nextMonth); }
    else { assert InTimeframe(b, Later, today, nextMonth); }
  }

  /** Near the end of a month, a bill due early next month is listed both this week and later. */
  lemma ThisWeekAndLaterOverlap()
    ensures var b := Bills.Bill(None, None, Some(Date(2024, 2, 2)), None, Some(Bills.Rent), None, None, None, None);
            InTimeframe(b, ThisWeek, Date(2024, 1, 28), Date(2024, 2, 1))
            && InTimeframe(b, Later, Date(2024, 1, 28), Date(2024, 2, 1))
  {
  }
}
