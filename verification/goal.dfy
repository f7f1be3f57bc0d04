/**
  A savings goal: a target amount to reach by a deadline, how much has been
  saved so far, an optional per-paycheck amount fixed when the goal is
  created, a priority weight and a list of product links.

  The app keeps the same type in two copies, one in the app target and one
  in the shared framework; their logic is identical and is modelled once.
  Object identity is modelled by the `id` field.
*/
module Goals {
  import opened Wrappers
  import opened CalendarMath

  /** A parsed link; parsing itself is outside the model and reaches it as a function parameter. */
  datatype Url = Url(absoluteString: string)

  datatype Goal = Goal(
    id: nat,
    name: Option<string>,
    targetAmount: real,
    deadline: Day,
    amountPerPaycheck: Option<real>,
    imageFileName: Option<string>,
    urls: Option<seq<Url>>,
    priorityWeight: Option<real>,
    amountSaved: real)
  {
    /** `weight`: the stored priority weight, 1.0 for goals saved before the weight existed. */
    function Weight(): (w: real)
      ensures priorityWeight.Some? ==> w == priorityWeight.value
      ensures priorityWeight.None? ==> w == 1.0
    {
      priorityWeight.GetOr(1.0)
    }

    /** The `weight` setter. */
    function SetWeight(w: real): (g: Goal)
      ensures g.priorityWeight == Some(w)
      ensures g == this.(priorityWeight := g.priorityWeight)
    {
      this.(priorityWeight := Some(w))
    }

    /** `remainingAmount`: what is still missing to the target, never negative. */
    function Remaining(): (r: real)
      ensures r >= 0.0
      ensures amountSaved <= targetAmount ==> r == targetAmount - amountSaved
      ensures amountSaved >= targetAmount ==> r == 0.0
    {
      if targetAmount - amountSaved > 0.0 then targetAmount - amountSaved else 0.0
    }

    /** `getExpectedAmount(for:)`: what should have been saved after `paydays` paychecks. */
    function ExpectedAmount(paydays: int): (r: real)
      ensures paydays == 0 ==> r == 0.0
      ensures paydays == 1 ==> r == amountPerPaycheck.GetOr(0.0)
      ensures amountPerPaycheck.None? ==> r == 0.0
      ensures amountPerPaycheck.Some? && paydays > 0 && amountPerPaycheck.value >= 0.0 ==> r >= 0.0
    {
      if paydays == 0 then 0.0 else amountPerPaycheck.GetOr(0.0) * paydays as real
    }

    /** `progress()`: the saved fraction of the target, 0 for a non-positive target; not capped at 1. */
    function Progress(): (p: real)
      ensures targetAmount <= 0.0 ==> p == 0.0
      ensures targetAmount > 0.0 ==> p * targetAmount == amountSaved
      ensures targetAmount > 0.0 && amountSaved >= targetAmount ==> p >= 1.0
    {
      if targetAmount > 0.0 then amountSaved / targetAmount else 0.0
    }

    /** `addURL(_:)`: appends the parsed link, starting the list if there is none; ignores text that does not parse. */
    function AddUrl(text: string, parse: string -> Option<Url>): (g: Goal)
      ensures parse(text).None? ==> g == this
      ensures parse(text).Some? ==> g == this.(urls := g.urls)
      ensures parse(text).Some? ==> g.urls.Some? && g.urls.value == urls.GetOr([]) + [parse(text).value]
    {
      match parse(text)
      case None => this
      case Some(url) =>
        match urls
        case Some(list) => this.(urls := Some(list + [url]))
        case None => this.(urls := Some([url]))
    }
  }

  /**
    `init(_:targetAmount:deadline:weight:imageURL:paydaysUntil:)`. The image
    arrives as the file name the initializer keeps; the division by the
    number of paydays is undefined for 0, so that is excluded.
  */
  function NewGoal(id: nat, name: Option<string>, targetAmount: real, deadline: Day, weight: real,
                   imageFileName: Option<string>, paydaysUntil: int): (g: Goal)
    requires paydaysUntil != 0
    ensures g.id == id && g.name == name && g.targetAmount == targetAmount && g.deadline == deadline
    ensures g.imageFileName == imageFileName && g.urls.None?
    ensures g.Weight() == weight && g.amountSaved == 0.0
    ensures g.amountPerPaycheck.Some? && g.amountPerPaycheck.value * paydaysUntil as real == targetAmount
  {
    Goal(id, name, targetAmount, deadline, Some(targetAmount / paydaysUntil as real), imageFileName, None, Some(weight), 0.0)
  }

  /** Reading the weight back after setting it gives the value set, and nothing else changes. */
  lemma WeightRoundTrip(g: Goal, w: real)
    ensures g.SetWeight(w).Weight() == w
    ensures g.SetWeight(w).(priorityWeight := g.priorityWeight) == g
  {
  }

  /** A freshly created goal is on schedule: after the planned number of paydays the expected amount is the target. */
  lemma NewGoalOnSchedule(id: nat, name: Option<string>, targetAmount: real, deadline: Day, weight: real,
                          imageFileName: Option<string>, paydaysUntil: int)
    requires paydaysUntil != 0
    ensures NewGoal(id, name, targetAmount, deadline, weight, imageFileName, paydaysUntil).ExpectedAmount(paydaysUntil) == targetAmount
  {
  }

  /** The expected amount grows in step with the number of paydays. */
  lemma ExpectedAmountLinear(g: Goal, a: nat, b: nat)
    ensures g.ExpectedAmount(a + b) == g.ExpectedAmount(a) + g.ExpectedAmount(b)
  {
  }

  /** A goal still needs money exactly while its progress is below 1 (for a positive target). */
  lemma RemainingIffUnfinished(g: Goal)
    requires g.targetAmount > 0.0
    ensures g.Remaining() > 0.0 <==> g.Progress() < 1.0
  {
    var p := g.Progress();
    assert p * g.targetAmount == g.amountSaved;
    if p < 1.0 {
      assert p * g.targetAmount < 1.0 * g.targetAmount;
    } else {
      assert p * g.targetAmount >= 1.0 * g.targetAmount;
    }
  }

  /** Adding links in turn keeps them in the order they were added. */
  lemma AddUrlKeepsOrder(g: Goal, a: string, b: string, parse: string -> Option<Url>)
    requires parse(a).Some? && parse(b).Some?
    ensures g.AddUrl(a, parse).AddUrl(b, parse).urls == Some(g.urls.GetOr([]) + [parse(a).value, parse(b).value])
  {
    var list := g.urls.GetOr([]);
    assert list + [parse(a).value] + [parse(b).value] == list + [parse(a).value, parse(b).value];
  }
}
