/**
  A recurring bill and its status state machine (`Bill`, `Status`,
  `CreditCardDetails` and the sorting comparators of the app's bill store).

  `CheckStatus` re-derives a bill's status from its due date, payment date,
  category and the current day, auto-paying non-credit-card bills once their
  due day arrives and rolling a paid bill forward by exactly one recurrence
  step once its period has elapsed. Bills are immutable values here: an
  evaluation returns the updated bill, whose `status` field holds the result.
*/
module Bills {
  import opened Wrappers
  import opened CalendarMath
  import opened Text

  datatype BillCategory =
    | Utilities | CreditCard | Rent | Insurance | Subscription | Groceries
    | Transportation | Phone | Internet | Entertainment | Other

  datatype RecurrenceUnit = DayUnit | WeekUnit | MonthUnit | YearUnit

  datatype CreditCardDetails = CreditCardDetails(creditLimit: real, cardBalance: real)

  datatype Status = Paid | Overdue | Upcoming(date: Day)

  /** Every stored field is optional, as in the persisted model. */
  datatype Bill = Bill(
    name: Option<string>,
    amount: Option<real>,
    dueDate: Option<Day>,
    datePaid: Option<Day>,
    category: Option<BillCategory>,
    recurrenceInterval: Option<int>,
    recurrenceUnit: Option<RecurrenceUnit>,
    creditCardDetails: Option<CreditCardDetails>,
    status: Option<Status>)

  // ---------------------------------------------------------------------------
  // Credit-card metrics

  /** `utilization`: the balance as a fraction of the limit; a real number only for a non-zero limit. */
  function Utilization(c: CreditCardDetails): (u: real)
    requires c.creditLimit != 0.0
    ensures u * c.creditLimit == c.cardBalance
  {
    c.cardBalance / c.creditLimit
  }

  /**
    `utilization > t` as the floating-point comparison evaluates it. A zero
    limit (the editor's default) makes the quotient +infinity for a positive
    balance, which is above every threshold, and NaN or -infinity otherwise,
    which is above none.
  */
  predicate UtilizationAbove(c: CreditCardDetails, t: real)
    ensures c.creditLimit > 0.0 ==> (UtilizationAbove(c, t) <==> c.cardBalance > t * c.creditLimit)
    ensures c.creditLimit < 0.0 ==> (UtilizationAbove(c, t) <==> c.cardBalance < t * c.creditLimit)
    ensures c.creditLimit == 0.0 ==> (UtilizationAbove(c, t) <==> c.cardBalance > 0.0)
  {
    if c.creditLimit == 0.0 then c.cardBalance > 0.0
    else
      var u := Utilization(c);
      assert c.creditLimit > 0.0 ==> (u > t <==> u * c.creditLimit > t * c.creditLimit);
      assert c.creditLimit < 0.0 ==> (u > t <==> u * c.creditLimit < t * c.creditLimit);
      u > t
  }

  /** `overExcellentThreshold`: utilization above 10%. A card with a positive limit and nothing owed is never flagged. */
  predicate OverExcellentThreshold(c: CreditCardDetails)
    ensures c.creditLimit >= 0.0 && c.cardBalance <= 0.0 ==> !OverExcellentThreshold(c)
  {
    UtilizationAbove(c, 0.1)
  }

  /** `overUtilized`: utilization above 30%, which always lies above the excellent threshold too. */
  predicate OverUtilized(c: CreditCardDetails)
    ensures OverUtilized(c) ==> OverExcellentThreshold(c)
  {
    UtilizationAbove(c, 0.3)
  }

  /** Paying `balance - limit * t` leaves utilization exactly `t`. */
  lemma PayDownTo(c: CreditCardDetails, t: real)
    requires c.creditLimit != 0.0
    ensures Utilization(c.(cardBalance := c.cardBalance - (c.cardBalance - c.creditLimit * t))) == t
  {
    assert c.cardBalance - (c.cardBalance - c.creditLimit * t) == c.creditLimit * t;
  }

  /**
    `recommendedPayment`: the payment that brings utilization back down to
    the tier it exceeds. Paying it leaves exactly 30% utilization on an
    over-utilized card and exactly 10% on a card above the excellent
    threshold; nothing is recommended at or below 10%. A zero limit puts any
    positive balance over both thresholds, so the whole balance is
    recommended. (The value before rounding to cents.)
  */
  function RecommendedPayment(c: CreditCardDetails): (r: real)
    ensures c.creditLimit != 0.0 && OverUtilized(c) ==> Utilization(c.(cardBalance := c.cardBalance - r)) == 0.3
    ensures c.creditLimit != 0.0 && !OverUtilized(c) && OverExcellentThreshold(c) ==>
              Utilization(c.(cardBalance := c.cardBalance - r)) == 0.1
    ensures !OverExcellentThreshold(c) ==> r == 0.0
    ensures c.creditLimit == 0.0 ==> r == (if c.cardBalance > 0.0 then c.cardBalance else 0.0)
    ensures c.creditLimit >= 0.0 ==> r >= 0.0
  {
    if OverUtilized(c) then
      var r := c.cardBalance - c.creditLimit * 0.3;
      if c.creditLimit != 0.0 then PayDownTo(c, 0.3); r else r
    else if OverExcellentThreshold(c) then
      var r := c.cardBalance - c.creditLimit * 0.1;
      if c.creditLimit != 0.0 then PayDownTo(c, 0.1); r else r
    else 0.0
  }

  /** The three tiers, and the fact that the 30% tier lies inside the 10% tier. */
  lemma RecommendedPaymentTiers(c: CreditCardDetails)
    requires c.creditLimit != 0.0
    ensures OverUtilized(c) ==> OverExcellentThreshold(c)
    ensures Utilization(c) <= 0.1 ==> RecommendedPayment(c) == 0.0
    ensures 0.1 < Utilization(c) <= 0.3 ==> RecommendedPayment(c) == c.cardBalance - 0.1 * c.creditLimit
    ensures Utilization(c) > 0.3 ==> RecommendedPayment(c) == c.cardBalance - 0.3 * c.creditLimit
  {
  }

  /** A card with a 1000 limit and a 400 balance should pay 100. */
  lemma RecommendedPaymentExample()
    ensures RecommendedPayment(CreditCardDetails(1000.0, 400.0)) == 100.0
  {
  }

  // ---------------------------------------------------------------------------
  // Status

  /** `Status.==`: upcoming statuses are equal when their dates fall on the same day. */
  predicate StatusEquals(a: Status, b: Status) {
    match (a, b)
    case (Paid, Paid) => true
    case (Overdue, Overdue) => true
    case (Upcoming(d1), Upcoming(d2)) => DayNumber(d1) == DayNumber(d2)
    case _ => false
  }

  /** On whole days the custom equality is exactly structural equality. */
  lemma StatusEqualsIsEquality(a: Status, b: Status)
    ensures StatusEquals(a, b) <==> a == b
  {
    if a.Upcoming? && b.Upcoming? && DayNumber(a.date) == DayNumber(b.date) {
      DayNumberInjective(a.date, b.date);
    }
  }

  // ---------------------------------------------------------------------------
  // Recurrence

  /** One recurrence step: `n` days, `7n` days, `n` months or `n` years. */
  function Advance(d: Day, n: int, unit: RecurrenceUnit): (r: Day)
    ensures unit == DayUnit ==> DayNumber(r) == DayNumber(d) + n
    ensures unit == WeekUnit ==> DayNumber(r) == DayNumber(d) + 7 * n
    ensures unit == MonthUnit ==> MonthIndex(r) == MonthIndex(d) + n
    ensures unit == YearUnit ==> r.year == d.year + n && r.month == d.month
    ensures unit == MonthUnit || unit == YearUnit ==>
              && (d.day <= DaysInMonth(r.year, r.month) ==> r.day == d.day)
              && (d.day > DaysInMonth(r.year, r.month) ==> r.day == DaysInMonth(r.year, r.month))
    ensures n >= 1 ==> DayNumber(r) > DayNumber(d)
  {
    match unit
    case DayUnit => AddDays(d, n)
    case WeekUnit => AddDays(d, 7 * n)
    case MonthUnit =>
      if n >= 1 then AddMonthsAdvances(d, n); AddMonths(d, n)
      else AddMonths(d, n)
    case YearUnit =>
      if n >= 1 then AddYearsAdvances(d, n); AddYears(d, n)
      else AddYears(d, n)
  }

  // ---------------------------------------------------------------------------
  // The status state machine

  predicate IsCreditCard(b: Bill) {
    b.category == Some(CreditCard)
  }

  /** A bill whose stored status agrees with its dates on day `today`. */
  predicate StatusConsistent(b: Bill, today: Day) {
    match b.status
    case None => false
    case Some(Upcoming(d)) =>
      b.dueDate == Some(d) && b.datePaid.None? && DayNumber(d) >= DayNumber(today)
    case Some(Paid) =>
      b.datePaid.Some? && b.dueDate.Some? && DayNumber(today) <= DayNumber(b.dueDate.value)
    case Some(Overdue) =>
      b.dueDate.None? || DayNumber(b.dueDate.value) < DayNumber(today)
  }

  /** The same bill with only its dates and status replaced. */
  predicate SameExceptDatesAndStatus(a: Bill, b: Bill) {
    a.(dueDate := b.dueDate, datePaid := b.datePaid, status := b.status) == b
  }

  /**
    `Bill.checkStatus` evaluated on day `today`.

    The result's status always agrees with its dates; only the due date, the
    payment date and the status can change; a credit-card bill never gets a
    payment date from the evaluation; and the due date moves by at most one
    recurrence step, only once the paid period has elapsed.
  */
  function CheckStatus(b: Bill, today: Day): (r: Bill)
    ensures StatusConsistent(r, today)
    ensures SameExceptDatesAndStatus(b, r)
    ensures b.dueDate.None? ==> r == b.(status := Some(Overdue))
    ensures IsCreditCard(b) ==> r.datePaid == b.datePaid || r.datePaid.None?
    ensures r.datePaid.Some? && r.datePaid != b.datePaid ==>
              !IsCreditCard(b) && r.datePaid == b.dueDate
              && DayNumber(b.dueDate.value) <= DayNumber(today)
    ensures r.dueDate != b.dueDate ==>
              && b.dueDate.Some? && b.recurrenceInterval.Some? && b.recurrenceUnit.Some?
              && DayNumber(today) > DayNumber(b.dueDate.value)
              && r.dueDate == Some(Advance(b.dueDate.value, b.recurrenceInterval.value, b.recurrenceUnit.value))
              && r.datePaid.None?
  {
    match b.dueDate
    case None => b.(status := Some(Overdue))
    case Some(due) =>
      var b1 := if !IsCreditCard(b) && DayNumber(due) <= DayNumber(today) then b.(datePaid := Some(due)) else b;
      if b1.datePaid.Some? then
        if DayNumber(today) > DayNumber(due) then
          if b1.recurrenceUnit.None? || b1.recurrenceInterval.None? then
            b1.(status := Some(Overdue))
          else
            var next := Advance(due, b1.recurrenceInterval.value, b1.recurrenceUnit.value);
            b1.(dueDate := Some(next), datePaid := None,
                status := Some(if DayNumber(next) >= DayNumber(today) then Upcoming(next) else Overdue))
        else
          b1.(status := Some(Paid))
      else
        b1.(status := Some(if DayNumber(due) >= DayNumber(today) then Upcoming(due) else Overdue))
  }

  /** The bill counts as paid after the auto-pay rule has been applied. */
  predicate PaidAfterAutoPay(b: Bill, today: Day)
    requires b.dueDate.Some?
  {
    b.datePaid.Some? || (!IsCreditCard(b) && DayNumber(b.dueDate.value) <= DayNumber(today))
  }

  /** A paid bill whose period has elapsed moves forward one step and starts unpaid. */
  lemma CheckStatusRollsOver(b: Bill, today: Day)
    requires b.dueDate.Some? && PaidAfterAutoPay(b, today)
    requires DayNumber(today) > DayNumber(b.dueDate.value)
    requires b.recurrenceInterval.Some? && b.recurrenceUnit.Some?
    ensures var r := CheckStatus(b, today);
            var next := Advance(b.dueDate.value, b.recurrenceInterval.value, b.recurrenceUnit.value);
            && r.dueDate == Some(next)
            && r.datePaid.None?
            && (r.status == Some(Upcoming(next)) <==> DayNumber(next) >= DayNumber(today))
            && (r.status == Some(Overdue) <==> DayNumber(next) < DayNumber(today))
  {
  }

  /** Without a recurrence rule an elapsed paid bill cannot roll over and is overdue. */
  lemma CheckStatusMissingRecurrence(b: Bill, today: Day)
    requires b.dueDate.Some? && PaidAfterAutoPay(b, today)
    requires DayNumber(today) > DayNumber(b.dueDate.value)
    requires b.recurrenceInterval.None? || b.recurrenceUnit.None?
    ensures CheckStatus(b, today).status == Some(Overdue)
    ensures CheckStatus(b, today).dueDate == b.dueDate
  {
  }

  /** A payment that still covers the current period keeps the bill paid. */
  lemma CheckStatusStillPaid(b: Bill, today: Day)
    requires b.dueDate.Some? && PaidAfterAutoPay(b, today)
    requires DayNumber(today) <= DayNumber(b.dueDate.value)
    ensures var r := CheckStatus(b, today);
            && r.status == Some(Paid)
            && r.dueDate == b.dueDate
            && r.datePaid.Some?
  {
  }

  /** An unpaid bill is upcoming on or before its due day and overdue after it. */
  lemma CheckStatusUnpaid(b: Bill, today: Day)
    requires b.dueDate.Some? && !PaidAfterAutoPay(b, today)
    ensures var r := CheckStatus(b, today);
            && r.dueDate == b.dueDate && r.datePaid.None?
            && (r.status == Some(Upcoming(b.dueDate.value)) <==> DayNumber(b.dueDate.value) >= DayNumber(today))
            && (r.status == Some(Overdue) <==> DayNumber(b.dueDate.value) < DayNumber(today))
  {
  }

  /** With a positive interval the rolled due date is strictly later: one step, never a standstill. */
  lemma RolloverMovesForward(b: Bill, today: Day)
    requires b.dueDate.Some? && b.recurrenceInterval.Some? && b.recurrenceInterval.value >= 1
    ensures var r := CheckStatus(b, today);
            r.dueDate != b.dueDate ==> DayNumber(r.dueDate.value) > DayNumber(b.dueDate.value)
  {
  }

  /**
    Evaluating twice on the same day changes nothing more, except in two
    cases: a non-credit-card bill rolled onto today itself (the second call
    auto-pays it), and a non-credit-card bill still overdue after its single
    step (the second call steps again).
  */
  lemma CheckStatusStable(b: Bill, today: Day)
    ensures var r := CheckStatus(b, today);
            (IsCreditCard(b) || r.status == Some(Paid)
             || (r.status.value.Upcoming? && r.status.value.date != today)
             || r.dueDate.None? || r.recurrenceInterval.None? || r.recurrenceUnit.None?)
            ==> CheckStatus(r, today) == r
  {
    var r := CheckStatus(b, today);
    if r.status.value.Upcoming? && r.status.value.date != today {
      if DayNumber(r.status.value.date) == DayNumber(today) {
        DayNumberInjective(r.status.value.date, today);
      }
    }
  }

  /** A monthly utility bill rolled onto today reads "upcoming" once and "paid" on the next evaluation. */
  lemma RolledOntoTodayIsNotStable()
    ensures var b := Bill(None, Some(100.0), Some(Date(2024, 1, 10)), None, Some(Utilities),
                          Some(1), Some(MonthUnit), None, None);
            var today := Date(2024, 2, 10);
            var r := CheckStatus(b, today);
            && r.status == Some(Upcoming(today))
            && CheckStatus(r, today).status == Some(Paid)
  {
    var b := Bill(None, Some(100.0), Some(Date(2024, 1, 10)), None, Some(Utilities),
                  Some(1), Some(MonthUnit), None, None);
    var today := Date(2024, 2, 10);
    assert AddMonths(Date(2024, 1, 10), 1) == today;
    assert Advance(Date(2024, 1, 10), 1, MonthUnit) == today;
    assert DayNumber(Date(2024, 1, 10)) < DayNumber(today) by {
      AddMonthsAdvances(Date(2024, 1, 10), 1);
    }
    var r := b.(dueDate := Some(today), datePaid := None, status := Some(Upcoming(today)));
    assert CheckStatus(b, today) == r;
    assert CheckStatus(r, today) == r.(datePaid := Some(today), status := Some(Paid));
  }

  // ---------------------------------------------------------------------------
  // Payment

  /**
    `Bill.makePayment(of:)` on day `today`: the card balance drops by exactly
    `amount` (it may go negative), the bill is marked paid today, and the
    status machine runs again, so a payment made after the due day rolls the
    bill into its next period.
  */
  function MakePayment(b: Bill, amount: real, today: Day): (r: Bill)
    ensures r == b.(creditCardDetails := r.creditCardDetails, dueDate := r.dueDate, datePaid := r.datePaid, status := r.status)
    ensures StatusConsistent(r, today)
    ensures b.creditCardDetails.None? ==> r.creditCardDetails.None?
    ensures b.creditCardDetails.Some? ==>
              && r.creditCardDetails.Some?
              && r.creditCardDetails.value.cardBalance == b.creditCardDetails.value.cardBalance - amount
              && r.creditCardDetails.value.creditLimit == b.creditCardDetails.value.creditLimit
    ensures b.dueDate.None? ==> r.status == Some(Overdue)
    ensures b.dueDate.Some? && DayNumber(today) <= DayNumber(b.dueDate.value) ==>
              r.status == Some(Paid) && r.datePaid == Some(today) && r.dueDate == b.dueDate
    ensures b.dueDate.Some? && DayNumber(today) > DayNumber(b.dueDate.value) ==>
              if b.recurrenceInterval.Some? && b.recurrenceUnit.Some? then
                r.datePaid.None?
                && r.dueDate == Some(Advance(b.dueDate.value, b.recurrenceInterval.value, b.recurrenceUnit.value))
              else
                r.status == Some(Overdue) && r.dueDate == b.dueDate
  {
    var details := match b.creditCardDetails
      case Some(c) => Some(c.(cardBalance := c.cardBalance - amount))
      case None => None;
    var paid := b.(creditCardDetails := details, datePaid := Some(today), status := Some(Paid));
    if b.dueDate.Some? && DayNumber(today) == DayNumber(b.dueDate.value) then
      DayNumberInjective(today, b.dueDate.value);
      CheckStatus(paid, today)
    else
      CheckStatus(paid, today)
  }

  /** A payment made on or before the due day settles the bill: evaluating the status again that day changes nothing. */
  lemma OnTimePaymentIsSettled(b: Bill, amount: real, today: Day)
    requires b.dueDate.Some? && DayNumber(today) <= DayNumber(b.dueDate.value)
    ensures var r := MakePayment(b, amount, today);
            CheckStatus(r, today) == r && r.status == Some(Paid)
  {
  }

  /** Two payments on the same day take as much off the card as one payment of their sum. */
  lemma PaymentsAccumulate(b: Bill, x: real, y: real, today: Day)
    ensures MakePayment(MakePayment(b, x, today), y, today).creditCardDetails
            == MakePayment(b, x + y, today).creditCardDetails
  {
  }

  /** Paying the recommended amount puts the card exactly on the threshold it was over. */
  lemma PayingRecommendedReachesThreshold(b: Bill, today: Day)
    requires b.creditCardDetails.Some? && b.creditCardDetails.value.creditLimit != 0.0
    ensures var c := b.creditCardDetails.value;
            var after := MakePayment(b, RecommendedPayment(c), today).creditCardDetails.value;
            && (OverUtilized(c) ==> Utilization(after) == 0.3)
            && (!OverUtilized(c) && OverExcellentThreshold(c) ==> Utilization(after) == 0.1)
            && (!OverExcellentThreshold(c) ==> after == c)
  {
  }

  // ---------------------------------------------------------------------------
  // Sorting comparators

  /** Start-of-day dates with a missing date read as the distant past. */
  predicate PastFirstLess(a: Option<Day>, b: Option<Day>) {
    match (a, b)
    case (None, Some(_)) => true
    case (Some(x), Some(y)) => DayNumber(x) < DayNumber(y)
    case _ => false
  }

  /** Dates with a missing date read as the distant future. */
  predicate FutureLastLess(a: Option<Day>, b: Option<Day>) {
    match (a, b)
    case (Some(_), None) => true
    case (Some(x), Some(y)) => DayNumber(x) < DayNumber(y)
    case _ => false
  }

  function AmountOrZero(b: Bill): real {
    b.amount.GetOr(0.0)
  }

  function NameOrEmpty(b: Bill): string {
    b.name.GetOr("")
  }

  function BalanceOrZero(b: Bill): real {
    match b.creditCardDetails
    case Some(c) => c.cardBalance
    case None => 0.0
  }

  function LimitOrZero(b: Bill): real {
    match b.creditCardDetails
    case Some(c) => c.creditLimit
    case None => 0.0
  }

  /** `Bill.byDate`: due day ascending, then amount descending. */
  predicate ByDate(lhs: Bill, rhs: Bill)
    ensures PastFirstLess(lhs.dueDate, rhs.dueDate) ==> ByDate(lhs, rhs)
    ensures ByDate(lhs, rhs) ==> !PastFirstLess(rhs.dueDate, lhs.dueDate)
    ensures lhs.dueDate == rhs.dueDate ==> (ByDate(lhs, rhs) <==> AmountOrZero(lhs) > AmountOrZero(rhs))
  {
    if lhs.dueDate == rhs.dueDate then AmountOrZero(lhs) > AmountOrZero(rhs)
    else PastFirstLess(lhs.dueDate, rhs.dueDate)
  }

  /** `Bill.byBalance`: card balance ascending, then amount descending. */
  predicate ByBalance(lhs: Bill, rhs: Bill)
    ensures BalanceOrZero(lhs) < BalanceOrZero(rhs) ==> ByBalance(lhs, rhs)
    ensures ByBalance(lhs, rhs) ==> BalanceOrZero(lhs) <= BalanceOrZero(rhs)
    ensures BalanceOrZero(lhs) == BalanceOrZero(rhs) ==> (ByBalance(lhs, rhs) <==> AmountOrZero(lhs) > AmountOrZero(rhs))
  {
    if BalanceOrZero(lhs) == BalanceOrZero(rhs) then AmountOrZero(lhs) > AmountOrZero(rhs)
    else BalanceOrZero(lhs) < BalanceOrZero(rhs)
  }

  /** `Bill.byLimit`: credit limit ascending, then amount descending. */
  predicate ByLimit(lhs: Bill, rhs: Bill)
    ensures LimitOrZero(lhs) < LimitOrZero(rhs) ==> ByLimit(lhs, rhs)
    ensures ByLimit(lhs, rhs) ==> LimitOrZero(lhs) <= LimitOrZero(rhs)
    ensures LimitOrZero(lhs) == LimitOrZero(rhs) ==> (ByLimit(lhs, rhs) <==> AmountOrZero(lhs) > AmountOrZero(rhs))
  {
    if LimitOrZero(lhs) == LimitOrZero(rhs) then AmountOrZero(lhs) > AmountOrZero(rhs)
    else LimitOrZero(lhs) < LimitOrZero(rhs)
  }

  /**
    `Bill.byName` as written: the tie test compares the optional names, the
    ordering compares them with a missing name read as "". A nameless bill
    and a bill named "" are therefore neither equal nor ordered.
  */
  predicate ByName(lhs: Bill, rhs: Bill)
    ensures lhs.name.Some? && rhs.name.Some? && StringLess(lhs.name.value, rhs.name.value) ==> ByName(lhs, rhs)
    ensures ByName(lhs, rhs) && lhs.name != rhs.name ==> !StringLess(NameOrEmpty(rhs), NameOrEmpty(lhs))
    ensures lhs.name.None? && rhs.name == Some("") ==> !ByName(lhs, rhs)
  {
    StringLessIrreflexive(NameOrEmpty(lhs));
    StringLessAsymmetric(NameOrEmpty(lhs), NameOrEmpty(rhs));
    if lhs.name == rhs.name then AmountOrZero(lhs) > AmountOrZero(rhs)
    else StringLess(NameOrEmpty(lhs), NameOrEmpty(rhs))
  }

  /** `Bill.byName` with a missing name read as "" in the tie test too. */
  predicate ByNameOrEmpty(lhs: Bill, rhs: Bill) {
    if NameOrEmpty(lhs) == NameOrEmpty(rhs) then AmountOrZero(lhs) > AmountOrZero(rhs)
    else StringLess(NameOrEmpty(lhs), NameOrEmpty(rhs))
  }

  /** Utilization may only be read from cards whose limit is not zero. */
  predicate UsableLimit(b: Bill) {
    b.creditCardDetails.Some? ==> b.creditCardDetails.value.creditLimit != 0.0
  }

  function UtilizationOrZero(b: Bill): real
    requires UsableLimit(b)
  {
    match b.creditCardDetails
    case Some(c) => Utilization(c)
    case None => 0.0
  }

  predicate IsPaid(b: Bill) {
    b.status == Some(Paid)
  }

  /** `Bill.byStatusDateUtilization`, the credit-card ordering. */
  predicate ByStatusDateUtilization(lhs: Bill, rhs: Bill)
    requires UsableLimit(lhs) && UsableLimit(rhs)
    ensures !IsPaid(lhs) && IsPaid(rhs) ==> ByStatusDateUtilization(lhs, rhs)
    ensures ByStatusDateUtilization(lhs, rhs) ==> !IsPaid(lhs) || IsPaid(rhs)
  {
    if IsPaid(lhs) != IsPaid(rhs) then !IsPaid(lhs)
    else if IsPaid(lhs) then
      if UtilizationOrZero(lhs) != UtilizationOrZero(rhs) then UtilizationOrZero(lhs) > UtilizationOrZero(rhs)
      else if lhs.dueDate != rhs.dueDate then FutureLastLess(lhs.dueDate, rhs.dueDate)
      else StringLess(NameOrEmpty(lhs), NameOrEmpty(rhs))
    else
      if lhs.dueDate != rhs.dueDate then FutureLastLess(lhs.dueDate, rhs.dueDate)
      else if UtilizationOrZero(lhs) != UtilizationOrZero(rhs) then UtilizationOrZero(lhs) < UtilizationOrZero(rhs)
      else StringLess(NameOrEmpty(lhs), NameOrEmpty(rhs))
  }

  /**
    What the credit-card ordering promises: unpaid before paid; paid cards by
    utilization descending then date ascending; unpaid cards by date
    ascending then utilization ascending; name last.
  */
  lemma ByStatusDateUtilizationKeys(a: Bill, b: Bill)
    requires UsableLimit(a) && UsableLimit(b)
    ensures !IsPaid(a) && IsPaid(b) ==> ByStatusDateUtilization(a, b) && !ByStatusDateUtilization(b, a)
    ensures IsPaid(a) && IsPaid(b) && UtilizationOrZero(a) > UtilizationOrZero(b) ==> ByStatusDateUtilization(a, b)
    ensures (IsPaid(a) && IsPaid(b) && UtilizationOrZero(a) == UtilizationOrZero(b) &&
             FutureLastLess(a.dueDate, b.dueDate)) ==> ByStatusDateUtilization(a, b)
    ensures !IsPaid(a) && !IsPaid(b) && FutureLastLess(a.dueDate, b.dueDate) ==> ByStatusDateUtilization(a, b)
    ensures (!IsPaid(a) && !IsPaid(b) && a.dueDate == b.dueDate &&
             UtilizationOrZero(a) < UtilizationOrZero(b)) ==> ByStatusDateUtilization(a, b)
    ensures IsPaid(a) == IsPaid(b) && a.dueDate == b.dueDate && UtilizationOrZero(a) == UtilizationOrZero(b) ==>
            (ByStatusDateUtilization(a, b) <==> StringLess(NameOrEmpty(a), NameOrEmpty(b)))
  {
  }

  lemma FutureLastLessTransitive(a: Option<Day>, b: Option<Day>, c: Option<Day>)
    requires FutureLastLess(a, b) && FutureLastLess(b, c)
    ensures FutureLastLess(a, c)
  {
  }

  /** Distinct optional dates are ordered one way or the other. */
  lemma FutureLastLessTotal(a: Option<Day>, b: Option<Day>)
    requires a != b
    ensures FutureLastLess(a, b) || FutureLastLess(b, a)
  {
    if a.Some? && b.Some? && DayNumber(a.value) == DayNumber(b.value) {
      DayNumberInjective(a.value, b.value);
    }
  }

  /** Two cards are unordered by the credit-card ordering exactly when all four of its keys agree. */
  lemma ByStatusDateUtilizationTies(a: Bill, b: Bill)
    requires UsableLimit(a) && UsableLimit(b)
    ensures !ByStatusDateUtilization(a, b) && !ByStatusDateUtilization(b, a) <==>
              && IsPaid(a) == IsPaid(b) && a.dueDate == b.dueDate
              && UtilizationOrZero(a) == UtilizationOrZero(b) && NameOrEmpty(a) == NameOrEmpty(b)
  {
    StringLessIrreflexive(NameOrEmpty(a));
    if a.dueDate != b.dueDate {
      FutureLastLessTotal(a.dueDate, b.dueDate);
    }
    if NameOrEmpty(a) != NameOrEmpty(b) {
      StringLessTotal(NameOrEmpty(a), NameOrEmpty(b));
    }
  }

  /**
    The credit-card ordering is a strict weak order on cards with a usable
    limit: irreflexive, transitive, and "neither before the other" is
    transitive too, as `sorted(by:)` demands.
  */
  lemma ByStatusDateUtilizationStrictOrder(a: Bill, b: Bill, c: Bill)
    requires UsableLimit(a) && UsableLimit(b) && UsableLimit(c)
    ensures !ByStatusDateUtilization(a, a)
    ensures ByStatusDateUtilization(a, b) && ByStatusDateUtilization(b, c) ==> ByStatusDateUtilization(a, c)
    ensures !ByStatusDateUtilization(a, b) && !ByStatusDateUtilization(b, a)
            && !ByStatusDateUtilization(b, c) && !ByStatusDateUtilization(c, b)
            ==> !ByStatusDateUtilization(a, c) && !ByStatusDateUtilization(c, a)
  {
    ByStatusDateUtilizationTies(a, b);
    ByStatusDateUtilizationTies(b, c);
    ByStatusDateUtilizationTies(a, c);
    StringLessIrreflexive(NameOrEmpty(a));
    if ByStatusDateUtilization(a, b) && ByStatusDateUtilization(b, c) {
      if StringLess(NameOrEmpty(a), NameOrEmpty(b)) && StringLess(NameOrEmpty(b), NameOrEmpty(c)) {
        StringLessTransitive(NameOrEmpty(a), NameOrEmpty(b), NameOrEmpty(c));
      }
      if FutureLastLess(a.dueDate, b.dueDate) && FutureLastLess(b.dueDate, c.dueDate) {
        FutureLastLessTransitive(a.dueDate, b.dueDate, c.dueDate);
      }
      if a.dueDate == c.dueDate && a.dueDate != b.dueDate {
        FutureLastLessTotal(a.dueDate, b.dueDate);
      }
    }
  }

  /** `byDate` is a strict weak order: bills are unordered exactly when they share due date and amount. */
  lemma ByDateStrictOrder(a: Bill, b: Bill, c: Bill)
    ensures StrictWeakOrderOn(ByDate, a, b, c)
  {
    SameDueDay(a, b);
    SameDueDay(b, c);
    SameDueDay(a, c);
  }

  /** Due dates on the same day are the same due date. */
  lemma SameDueDay(a: Bill, b: Bill)
    ensures a.dueDate.Some? && b.dueDate.Some? && DayNumber(a.dueDate.value) == DayNumber(b.dueDate.value) ==>
              a.dueDate == b.dueDate
  {
    if a.dueDate.Some? && b.dueDate.Some? && DayNumber(a.dueDate.value) == DayNumber(b.dueDate.value) {
      DayNumberInjective(a.dueDate.value, b.dueDate.value);
    }
  }

  /**
    A comparator is a strict weak order when it is irreflexive and
    transitive and "neither before the other" is transitive too; that is what
    Swift's `sorted(by:)` demands of its argument.
  */
  ghost predicate StrictWeakOrderOn(less: (Bill, Bill) -> bool, a: Bill, b: Bill, c: Bill) {
    && !less(a, a)
    && (less(a, b) && less(b, c) ==> less(a, c))
    && (!less(a, b) && !less(b, a) && !less(b, c) && !less(c, b) ==> !less(a, c) && !less(c, a))
  }

  /**
    Two bills named "" and a nameless bill between them break `byName`: the
    nameless bill is unordered against both, yet the two named bills are
    ordered by amount.
  */
  lemma ByNameIsNotStrictWeakOrder()
    ensures var x := Bill(Some(""), Some(3.0), None, None, None, None, None, None, None);
            var y := Bill(None, Some(5.0), None, None, None, None, None, None, None);
            var z := Bill(Some(""), Some(1.0), None, None, None, None, None, None, None);
            !StrictWeakOrderOn(ByName, x, y, z)
  {
    var x := Bill(Some(""), Some(3.0), None, None, None, None, None, None, None);
    var y := Bill(None, Some(5.0), None, None, None, None, None, None, None);
    var z := Bill(Some(""), Some(1.0), None, None, None, None, None, None, None);
    assert !StringLess("", "");
    assert !ByName(x, y) && !ByName(y, x) && !ByName(y, z) && !ByName(z, y);
    assert ByName(x, z);
  }

  /** Reading a missing name as "" throughout makes the name ordering a strict weak order. */
  lemma ByNameOrEmptyIsStrictWeakOrder(a: Bill, b: Bill, c: Bill)
    ensures StrictWeakOrderOn(ByNameOrEmpty, a, b, c)
  {
    var na, nb, nc := NameOrEmpty(a), NameOrEmpty(b), NameOrEmpty(c);
    StringLessIrreflexive(na);
    if na != nb { StringLessTotal(na, nb); }
    if nb != nc { StringLessTotal(nb, nc); }
    if na != nc { StringLessTotal(na, nc); }
    if StringLess(na, nb) && StringLess(nb, nc) { StringLessTransitive(na, nb, nc); }
    if StringLess(nc, nb) && StringLess(nb, na) { StringLessTransitive(nc, nb, na); }
    if StringLess(na, nb) && StringLess(nb, na) { StringLessTransitive(na, nb, na); }
    if StringLess(nb, nc) && StringLess(nc, nb) { StringLessTransitive(nb, nc, nb); }
  }

  /** Balance and limit orderings are strict orders with an amount tie-break. */
  lemma ByBalanceAndLimitStrictOrder(a: Bill, b: Bill, c: Bill)
    ensures StrictWeakOrderOn(ByBalance, a, b, c)
    ensures StrictWeakOrderOn(ByLimit, a, b, c)
  {
  }
}
