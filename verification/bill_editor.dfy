/**
  The bill editor form: keyboard focus moving through the visible text
  fields, the recurrence stepper, and the bill the form saves. The credit
  limit and card balance fields exist only while the category is credit card.
*/
module BillEditor {
  import opened Wrappers
  import opened CalendarMath
  import opened Bills
  import Seqs

  /** The focusable text fields. */
  datatype Field = NameField | AmountField | CreditLimitField | CardBalanceField

  /** The visible fields in keyboard order: name and amount, then the card fields for a credit card. */
  function Fields(category: BillCategory): (fs: seq<Field>)
    ensures |fs| >= 2 && fs[0] == NameField && fs[1] == AmountField
    ensures CreditLimitField in fs <==> category == CreditCard
    ensures CardBalanceField in fs <==> category == CreditCard
    ensures forall i, j :: 0 <= i < j < |fs| ==> fs[i] != fs[j]
  {
    var fields := [NameField, AmountField];
    if category == CreditCard then fields + [CreditLimitField, CardBalanceField] else fields
  }

  /**
    `moveFocus(direction:)`: with no focus, or a focus on a field that is
    not shown, focus the first field; otherwise move `direction` places
    through the shown fields, staying put when that would leave the list.
  */
  function MoveFocus(focus: Option<Field>, direction: int, category: BillCategory): (r: Option<Field>)
    ensures r.Some? && r.value in Fields(category)
    ensures (focus.None? || focus.value !in Fields(category)) ==> r == Some(NameField)
    ensures focus.Some? && focus.value in Fields(category) ==>
              var fs := Fields(category);
              var i := Seqs.FirstIndex(fs, focus.value).value;
              (0 <= i + direction < |fs| ==> r == Some(fs[i + direction]))
              && (!(0 <= i + direction < |fs|) ==> r == focus)
  {
    var fields := Fields(category);
    match focus
    case None => Some(fields[0])
    case Some(current) =>
      match Seqs.FirstIndex(fields, current)
      case None => Some(fields[0])
      case Some(currentIndex) =>
        var newIndex := currentIndex + direction;
        if newIndex >= 0 && newIndex < |fields| then Some(fields[newIndex]) else focus
  }

  /** "Next" then "Previous" returns to the field you started on, unless "Next" had nowhere to go. */
  lemma NextThenPrevious(f: Field, category: BillCategory)
    requires f in Fields(category)
    requires Seqs.FirstIndex(Fields(category), f).value + 1 < |Fields(category)|
    ensures MoveFocus(MoveFocus(Some(f), 1, category), -1, category) == Some(f)
  {
    var fs := Fields(category);
    var i := Seqs.FirstIndex(fs, f).value;
    assert fs[i] == f;
    MoveFromPosition(i, 1, category);
    MoveFromPosition(i + 1, -1, category);
  }

  /** From the field at position `i`, a move lands `direction` places further on, or stays put. */
  lemma MoveFromPosition(i: nat, direction: int, category: BillCategory)
    requires i < |Fields(category)|
    ensures var fs := Fields(category);
            MoveFocus(Some(fs[i]), direction, category) ==
              if 0 <= i + direction < |fs| then Some(fs[i + direction]) else Some(fs[i])
  {
    Seqs.FirstIndexDistinct(Fields(category), i);
  }

  /** Without the credit card fields, "Next" from the amount stays on the amount; with them it reaches the limit. */
  lemma AmountIsLastUnlessCreditCard(category: BillCategory)
    ensures category != CreditCard ==> MoveFocus(Some(AmountField), 1, category) == Some(AmountField)
    ensures category == CreditCard ==> MoveFocus(Some(AmountField), 1, category) == Some(CreditLimitField)
  {
    Seqs.FirstIndexDistinct(Fields(category), 1);
  }

  /** A focus left on a card field after switching away from credit card jumps back to the name. */
  lemma HiddenFocusResets(f: Field, direction: int, category: BillCategory)
    requires f == CreditLimitField || f == CardBalanceField
    requires category != CreditCard
    ensures MoveFocus(Some(f), direction, category) == Some(NameField)
  {
  }

  // ---------------------------------------------------------------------------
  // Recurrence stepper

  /** The stepper's range, `1...12`. */
  const MinInterval := 1
  const MaxInterval := 12

  predicate IntervalInRange(n: int) {
    MinInterval <= n <= MaxInterval
  }

  /** One press of the stepper: `+` and `-` move by one and do nothing at the ends of the range. */
  function Step(n: int, up: bool): (r: int)
    requires IntervalInRange(n)
    ensures IntervalInRange(r)
    ensures up && n < MaxInterval ==> r == n + 1
    ensures !up && n > MinInterval ==> r == n - 1
    ensures (up && n == MaxInterval) || (!up && n == MinInterval) ==> r == n
  {
    if up then (if n < MaxInterval then n + 1 else n)
    else (if n > MinInterval then n - 1 else n)
  }

  /** The interval after a series of presses, starting from the form's initial 1. */
  function Press(presses: seq<bool>): (r: int)
    ensures IntervalInRange(r)
  {
    if |presses| == 0 then MinInterval
    else Step(Press(presses[..|presses| - 1]), presses[|presses| - 1])
  }

  /** `-` undoes `+` anywhere below the top of the range, and `+` undoes `-` anywhere above the bottom. */
  lemma StepUndo(n: int)
    requires IntervalInRange(n)
    ensures n < MaxInterval ==> Step(Step(n, true), false) == n
    ensures n > MinInterval ==> Step(Step(n, false), true) == n
  {
  }

  /** Pressing `+` n times from the initial 1 counts up to n + 1 and then stays at the top of the range. */
  lemma {:induction false} PressUpSaturates(n: nat)
    ensures Press(seq(n, _ => true)) == if n + 1 < MaxInterval then n + 1 else MaxInterval
  {
    if n > 0 {
      PressUpSaturates(n - 1);
      assert seq(n, _ => true)[..n - 1] == seq(n - 1, _ => true);
    }
  }

  /** Every interval in the range is reachable: `n - 1` presses of `+` give `n`. */
  lemma PressReachesEveryValue(n: int)
    requires IntervalInRange(n)
    ensures Press(seq(n - 1, _ => true)) == n
  {
    PressUpSaturates(n - 1);
  }

  // ---------------------------------------------------------------------------
  // saveBill

  /** The form's current contents. */
  datatype Form = Form(
    name: string,
    amount: real,
    dueDate: Day,
    category: BillCategory,
    recurrenceInterval: int,
    recurrenceUnit: RecurrenceUnit,
    creditLimit: real,
    cardBalance: real)

  /**
    `saveBill()`: a new bill holding the form's values; card details are
    attached exactly for a credit card. A new bill has no payment date and
    no status until its status is first computed.
  */
  function SaveBill(f: Form): (b: Bill)
    ensures b.name == Some(f.name) && b.amount == Some(f.amount) && b.dueDate == Some(f.dueDate)
    ensures b.category == Some(f.category)
    ensures b.recurrenceInterval == Some(f.recurrenceInterval) && b.recurrenceUnit == Some(f.recurrenceUnit)
    ensures b.datePaid.None? && b.status.None?
    ensures b.creditCardDetails.Some? <==> IsCreditCard(b)
    ensures IsCreditCard(b) ==> b.creditCardDetails.value == CreditCardDetails(f.creditLimit, f.cardBalance)
  {
    var details := if f.category == CreditCard then Some(CreditCardDetails(f.creditLimit, f.cardBalance)) else None;
    Bill(Some(f.name), Some(f.amount), Some(f.dueDate), None, Some(f.category),
         Some(f.recurrenceInterval), Some(f.recurrenceUnit), details, None)
  }

  /** The card totals only see a saved bill's limit and balance when it is a credit card. */
  lemma SavedCardFigures(f: Form)
    ensures BalanceOrZero(SaveBill(f)) == (if f.category == CreditCard then f.cardBalance else 0.0)
    ensures LimitOrZero(SaveBill(f)) == (if f.category == CreditCard then f.creditLimit else 0.0)
  {
  }

  /**
    A card saved with the limit field left at its default of 0 and a
    positive balance counts as over-utilized, and the whole balance is
    recommended.
  */
  lemma DefaultLimitCard(f: Form)
    requires f.category == CreditCard && f.creditLimit == 0.0 && f.cardBalance > 0.0
    ensures var c := SaveBill(f).creditCardDetails.value;
            OverUtilized(c) && RecommendedPayment(c) == f.cardBalance
  {
  }

  /** What is typed into the hidden card fields of a non-card bill is discarded. */
  lemma HiddenCardFieldsIgnored(f: Form, limit: real, balance: real)
    requires f.category != CreditCard
    ensures SaveBill(f.(creditLimit := limit, cardBalance := balance)) == SaveBill(f)
  {
  }
}
