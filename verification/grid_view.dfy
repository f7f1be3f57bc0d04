/**
  The goal detail grid: the three priority levels a goal's weight can be
  set to, and the edits the grid's alerts make to a goal. An amount typed
  into an alert arrives as an optional number (empty input is `None`).
*/
module GridView {
  import opened Wrappers
  import opened Goals

  /** `Priority`, a `Double`-backed enumeration. */
  datatype Priority = High | Medium | Low

  /** The raw value each case is declared with. */
  function RawValue(p: Priority): real {
    match p
    case High => 2.0
    case Medium => 1.0
    case Low => 0.5
  }

  /** `init?(rawValue:)`: the case declared with exactly this raw value, if any. */
  function FromRawValue(x: real): (r: Option<Priority>)
    ensures r.Some? ==> RawValue(r.value) == x
    ensures r.None? ==> forall p: Priority :: RawValue(p) != x
  {
    if x == 2.0 then Some(High)
    else if x == 1.0 then Some(Medium)
    else if x == 0.5 then Some(Low)
    else None
  }

  /** `value`, the weight a priority stands for: 2 for high, 1 for medium, 0.5 for low. */
  function Value(p: Priority): (v: real)
    ensures v > 0.0
    ensures p == High ==> v == 2.0
    ensures p == Medium ==> v == 1.0
    ensures p == Low ==> v == 0.5
  {
    match p
    case High => 2.0
    case Medium => 1.0
    case Low => 0.5
  }

  /** Each priority's weight is its raw value, and reading a raw value back gives the priority. */
  lemma ValueIsRawValue(p: Priority)
    ensures Value(p) == RawValue(p)
    ensures FromRawValue(RawValue(p)) == Some(p)
  {
  }

  /** Higher priorities weigh more, so they draw a larger part of each paycheck. */
  lemma ValuesOrdered()
    ensures Value(Low) < Value(Medium) < Value(High)
  {
  }

  /** `name` as written: the low priority is captioned "Loa". */
  function NameAsWritten(p: Priority): (s: string)
    ensures p != Low ==> s == Name(p)
    ensures p == Low <==> s == "Loa"
  {
    match p
    case High => "High"
    case Medium => "Medium"
    case Low => "Loa"
  }

  /** The caption as written does not spell the level it stands for. */
  lemma LowCaptionMisspelled()
    ensures NameAsWritten(Low) != "Low"
  {
    assert NameAsWritten(Low)[2] == 'a';
  }

  /** `name` as evidently intended: each level captioned with its own word. */
  function Name(p: Priority): (s: string)
    ensures p == High <==> s == "High"
    ensures p == Medium <==> s == "Medium"
    ensures p == Low <==> s == "Low"
  {
    match p
    case High => "High"
    case Medium => "Medium"
    case Low => "Low"
  }

  /** Choosing a priority in the sheet sets the goal's weight to that priority's value and changes nothing else. */
  function ChoosePriority(g: Goal, p: Priority): (r: Goal)
    ensures r.Weight() == Value(p)
    ensures r == g.(priorityWeight := r.priorityWeight)
  {
    g.SetWeight(Value(p))
  }

  /** "Add Amount": adds the typed amount to the savings; empty input adds nothing. */
  function AddAmount(g: Goal, entered: Option<real>): (r: Goal)
    ensures r == g.(amountSaved := r.amountSaved)
    ensures entered.None? ==> r == g
    ensures entered.Some? ==> r.amountSaved - g.amountSaved == entered.value
  {
    g.(amountSaved := g.amountSaved + entered.GetOr(0.0))
  }

  /** "Save Total": replaces the savings with the typed amount; empty input resets them to 0. */
  function SaveTotal(g: Goal, entered: Option<real>): (r: Goal)
    ensures r == g.(amountSaved := r.amountSaved)
    ensures entered.Some? ==> r.amountSaved == entered.value
    ensures entered.None? ==> r.amountSaved == 0.0
  {
    g.(amountSaved := entered.GetOr(0.0))
  }

  /** "Save" in the target alert: replaces the target with the typed amount, or 0 for empty input. */
  function SaveTarget(g: Goal, entered: Option<real>): (r: Goal)
    ensures r == g.(targetAmount := r.targetAmount)
    ensures entered.Some? ==> r.targetAmount == entered.value
    ensures entered.None? ==> r.targetAmount == 0.0
  {
    g.(targetAmount := entered.GetOr(0.0))
  }

  /** The grid's own `remainingAmount`: the target minus the savings, or 0 when that is negative. */
  function GridRemaining(g: Goal): (r: real)
    ensures r == g.Remaining()
  {
    if g.targetAmount - g.amountSaved > 0.0 then g.targetAmount - g.amountSaved else 0.0
  }

  /** The amount alert's field as the grid first shows it: pre-filled with the goal's savings. */
  function InitialField(g: Goal): Option<real> {
    Some(g.amountSaved)
  }

  /**
    The field keeps its value after an action, so a second unedited "Add
    Amount" adds the original savings again: 100 becomes 200, then 300.
  */
  lemma UneditedAddsRepeatFirstValue(g: Goal)
    ensures AddAmount(AddAmount(g, InitialField(g)), InitialField(g)).amountSaved == 3.0 * g.amountSaved
  {
  }

  /** "Add Amount" pressed on the pre-filled field, without editing it, doubles the savings. */
  lemma AddUneditedDoubles(g: Goal)
    ensures AddAmount(g, InitialField(g)).amountSaved == 2.0 * g.amountSaved
  {
  }

  /** "Save Total" pressed on the pre-filled field, without editing it, leaves the goal as it was. */
  lemma SaveUneditedKeeps(g: Goal)
    ensures SaveTotal(g, InitialField(g)) == g
  {
  }

  /** Adding an amount is saving the old total plus that amount. */
  lemma AddIsSaveOfSum(g: Goal, x: real)
    ensures AddAmount(g, Some(x)) == SaveTotal(g, Some(g.amountSaved + x))
  {
  }

  /** Saving a total forgets what was saved before: saving twice is saving the second amount. */
  lemma SaveTotalOverwrites(g: Goal, x: Option<real>, y: Option<real>)
    ensures SaveTotal(SaveTotal(g, x), y) == SaveTotal(g, y)
  {
  }

  /** Adding in two steps is adding the sum. */
  lemma AddAmountsAccumulate(g: Goal, x: real, y: real)
    ensures AddAmount(AddAmount(g, Some(x)), Some(y)) == AddAmount(g, Some(x + y))
  {
  }
}
