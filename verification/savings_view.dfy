/**
  The savings screen keeps its own copy of the paycheck split and stores the
  per-paycheck savings amount in the payday settings. Its split is written
  here as a direct description (each participating goal maps to its
  allocation) and proved equal to the goals screen's loop.
*/
module SavingsView {
  import opened Wrappers
  import opened CalendarMath
  import opened Goals
  import GoalsView

  /** The stored payday settings; only the fields the savings screen touches are modelled. */
  datatype PaydayConfig = PaydayConfig(nextPayday: Option<Day>, amountPerPayday: Option<real>, savingsPerPaycheck: Option<real>)

  /** The screen's state: the stored settings (the first one is used) and the split on display. */
  datatype SavingsState = SavingsState(configs: seq<PaydayConfig>, allocation: map<nat, real>)

  /** `calculateSavingsDistribution(goals:totalPerPaycheck:)`, the savings screen's copy. */
  function CalculateSavingsDistribution(goals: seq<Goal>, total: real, daysUntil: Day -> int): (r: map<nat, real>)
    requires GoalsView.DistinctIds(goals) && GoalsView.Splittable(goals, daysUntil)
    ensures |GoalsView.Participants(goals)| == 0 ==> r == map[]
    ensures forall g :: g in goals ==> (g.id in r <==> GoalsView.Unfunded(g))
    ensures forall g :: g in goals && GoalsView.Unfunded(g) ==> r[g.id] <= g.Remaining()
  {
    var participants := GoalsView.Participants(goals);
    if |participants| == 0 then map[]
    else
      var totalWeight := GoalsView.TotalWeight(participants, daysUntil);
      map g | g in participants :: g.id := GoalsView.Allocation(g, totalWeight, total, daysUntil)
  }

  /** The two screens' splits agree on every input. */
  lemma SameSplitAsGoalsView(goals: seq<Goal>, total: real, daysUntil: Day -> int)
    requires GoalsView.DistinctIds(goals) && GoalsView.Splittable(goals, daysUntil)
    ensures CalculateSavingsDistribution(goals, total, daysUntil) == GoalsView.Distribute(goals, total, daysUntil)
  {
    var a := CalculateSavingsDistribution(goals, total, daysUntil);
    var b := GoalsView.Distribute(goals, total, daysUntil);
    assert a.Keys == b.Keys;
    forall k | k in a
      ensures a[k] == b[k]
    {
      var g :| g in goals && GoalsView.Unfunded(g) && g.id == k;
    }
  }

  /** `config.savingsPerPaycheck = amount` on the first settings record. */
  function StoreSavings(configs: seq<PaydayConfig>, value: real): (r: seq<PaydayConfig>)
    requires |configs| > 0
    ensures |r| == |configs|
    ensures r[0] == configs[0].(savingsPerPaycheck := Some(value))
    ensures forall k :: 1 <= k < |configs| ==> r[k] == configs[k]
  {
    [configs[0].(savingsPerPaycheck := Some(value))] + configs[1..]
  }

  /**
    `savePaycheckAmount()`: when the entered text reads as a number (the
    reading is `amount`) and settings exist, store it in the first settings
    record and recompute the split; otherwise change nothing.
  */
  function SavePaycheckAmount(state: SavingsState, goals: seq<Goal>, amount: Option<real>, daysUntil: Day -> int): (r: SavingsState)
    requires amount.Some? && |state.configs| > 0 ==> GoalsView.DistinctIds(goals) && GoalsView.Splittable(goals, daysUntil)
    ensures amount.None? || |state.configs| == 0 ==> r == state
    ensures |r.configs| == |state.configs|
    ensures forall k :: 1 <= k < |state.configs| ==> r.configs[k] == state.configs[k]
    ensures amount.Some? && |state.configs| > 0 ==>
              r.configs[0] == state.configs[0].(savingsPerPaycheck := Some(amount.value))
              && r.allocation == GoalsView.Distribute(goals, amount.value, daysUntil)
  {
    if amount.None? || |state.configs| == 0 then state
    else
      SameSplitAsGoalsView(goals, amount.value, daysUntil);
      SavingsState(StoreSavings(state.configs, amount.value), CalculateSavingsDistribution(goals, amount.value, daysUntil))
  }
}
