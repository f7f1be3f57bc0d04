/**
  The goals screen: splitting one paycheck's savings across the goals that
  still need money, crediting the split to the goals, and resetting all
  savings.

  The split favours urgent and important goals: each goal still missing
  money gets a share of the paycheck proportional to its weight divided by
  the number of days left, capped at what the goal still needs. The number
  of whole days from now to a deadline comes from the clock and is passed in
  as `daysUntil`.
*/
module GoalsView {
  import opened Wrappers
  import opened CalendarMath
  import opened Goals
  import Seqs

  /** Goals that still need money take part in the split. */
  predicate Unfunded(g: Goal) {
    g.Remaining() > 0.0
  }

  /** The urgency factor: one over the days left, or 1 once the deadline is today or past. */
  function Urgency(days: int): (u: real)
    ensures u > 0.0
    ensures days > 0 ==> u * days as real == 1.0
    ensures days <= 0 ==> u == 1.0
  {
    if days > 0 then 1.0 / days as real else 1.0
  }

  /** A goal's weighted value: urgency times priority weight. */
  function Weighted(g: Goal, daysUntil: Day -> int): real {
    Urgency(daysUntil(g.deadline)) * g.Weight()
  }

  /** The goals that take part in the split, in list order. */
  function Participants(goals: seq<Goal>): (r: seq<Goal>)
    ensures forall g :: g in r <==> g in goals && Unfunded(g)
  {
    Seqs.Keep(goals, Unfunded)
  }

  /** The sum of the weighted values of `goals`. */
  function TotalWeight(goals: seq<Goal>, daysUntil: Day -> int): real {
    Seqs.Sum(goals, g => Weighted(g, daysUntil))
  }

  /** Goal ids identify goals, as object identity does in the app. */
  predicate DistinctIds(goals: seq<Goal>) {
    forall i, j :: 0 <= i < |goals| && 0 <= j < |goals| && goals[i].id == goals[j].id ==> goals[i] == goals[j]
  }

  /** The split divides by the total weight, which must not be zero when anyone takes part. */
  predicate Splittable(goals: seq<Goal>, daysUntil: Day -> int) {
    |Participants(goals)| == 0 || TotalWeight(Participants(goals), daysUntil) != 0.0
  }

  /** A goal's uncapped part of `total`: its weighted value over the total weight. */
  function Share(g: Goal, totalWeight: real, total: real, daysUntil: Day -> int): real
    requires totalWeight != 0.0
  {
    Weighted(g, daysUntil) / totalWeight * total
  }

  /** What a goal receives: its share, but never more than it still needs. */
  function Allocation(g: Goal, totalWeight: real, total: real, daysUntil: Day -> int): (a: real)
    requires totalWeight != 0.0
    ensures a <= g.Remaining() && a <= Share(g, totalWeight, total, daysUntil)
    ensures a == g.Remaining() || a == Share(g, totalWeight, total, daysUntil)
  {
    var share := Share(g, totalWeight, total, daysUntil);
    if g.Remaining() < share then g.Remaining() else share
  }

  /** The allocation loop: one entry per goal, later entries overwriting earlier ones with the same key. */
  function Fold(s: seq<Goal>, totalWeight: real, total: real, daysUntil: Day -> int): (r: map<nat, real>)
    requires totalWeight != 0.0
    requires DistinctIds(s)
    ensures r.Keys == set g | g in s :: g.id
    ensures forall g :: g in s ==> r[g.id] == Allocation(g, totalWeight, total, daysUntil)
  {
    if |s| == 0 then map[]
    else
      var init, last := s[..|s| - 1], s[|s| - 1];
      assert DistinctIds(init);
      var m := Fold(init, totalWeight, total, daysUntil);
      assert forall g :: g in s ==> g in init || g == last;
      m[last.id := Allocation(last, totalWeight, total, daysUntil)]
  }

  /**
    `calculateSavingsDistribution(goals:totalPerPaycheck:)`: how much of
    `total` each goal still missing money receives, keyed by goal.
  */
  function Distribute(goals: seq<Goal>, total: real, daysUntil: Day -> int): (r: map<nat, real>)
    requires DistinctIds(goals) && Splittable(goals, daysUntil)
    ensures r.Keys == set g | g in goals && Unfunded(g) :: g.id
    ensures forall g :: g in goals && !Unfunded(g) ==> g.id !in r
    ensures forall g :: g in goals && Unfunded(g) ==> r[g.id] <= g.Remaining()
    ensures forall g :: g in goals && Unfunded(g) ==>
              r[g.id] == Allocation(g, TotalWeight(Participants(goals), daysUntil), total, daysUntil)
  {
    var participants := Participants(goals);
    if |participants| == 0 then map[]
    else Fold(participants, TotalWeight(participants, daysUntil), total, daysUntil)
  }

  /** What goal `g` receives under `r`; nothing when it has no entry. */
  function Received(r: map<nat, real>, g: Goal): real {
    if g.id in r then r[g.id] else 0.0
  }

  /** The amounts the split hands out, summed over the participating goals. */
  function Allotted(goals: seq<Goal>, r: map<nat, real>): real {
    Seqs.Sum(Participants(goals), g => Received(r, g))
  }

  /** Positive weights throughout. */
  predicate PositiveWeights(goals: seq<Goal>) {
    forall i :: 0 <= i < |goals| ==> goals[i].Weight() > 0.0
  }

  /** The uncapped shares of all participants add up to the whole amount. */
  lemma SharesSumToTotal(s: seq<Goal>, total: real, daysUntil: Day -> int)
    requires TotalWeight(s, daysUntil) != 0.0
    ensures var tw := TotalWeight(s, daysUntil);
            Seqs.Sum(s, g => Share(g, tw, total, daysUntil)) == total
  {
    var tw := TotalWeight(s, daysUntil);
    var c := total / tw;
    forall i | 0 <= i < |s|
      ensures Share(s[i], tw, total, daysUntil) == c * Weighted(s[i], daysUntil)
    {
      assert Weighted(s[i], daysUntil) / tw * total == total / tw * Weighted(s[i], daysUntil);
    }
    Seqs.SumScale(s, g => Weighted(g, daysUntil), g => Share(g, tw, total, daysUntil), c);
  }

  /** With positive weights every participant has a positive weighted value. */
  lemma ParticipantsWeighPositive(goals: seq<Goal>, daysUntil: Day -> int)
    requires PositiveWeights(goals)
    ensures var s := Participants(goals);
            forall i :: 0 <= i < |s| ==> Weighted(s[i], daysUntil) > 0.0
  {
    var s := Participants(goals);
    forall i | 0 <= i < |s|
      ensures Weighted(s[i], daysUntil) > 0.0
    {
      assert s[i] in goals;
      var k :| 0 <= k < |goals| && goals[k] == s[i];
      PositiveProduct(Urgency(daysUntil(s[i].deadline)), s[i].Weight());
    }
  }

  lemma PositiveProduct(x: real, y: real)
    requires x > 0.0 && y > 0.0
    ensures x * y > 0.0
  {
  }

  lemma NonNegativeShare(g: Goal, totalWeight: real, total: real, daysUntil: Day -> int)
    requires totalWeight > 0.0 && total >= 0.0 && Weighted(g, daysUntil) > 0.0
    ensures Share(g, totalWeight, total, daysUntil) >= 0.0
  {
    var q := Weighted(g, daysUntil) / totalWeight;
    assert q > 0.0;
    assert q * total >= 0.0;
  }

  /**
    With a non-negative amount and positive weights, every goal receives a
    non-negative amount and together they never receive more than the
    amount.
  */
  lemma DistributeWithinTotal(goals: seq<Goal>, total: real, daysUntil: Day -> int)
    requires DistinctIds(goals) && Splittable(goals, daysUntil)
    requires total >= 0.0 && PositiveWeights(goals)
    ensures var r := Distribute(goals, total, daysUntil);
            (forall id :: id in r ==> r[id] >= 0.0) && Allotted(goals, r) <= total
  {
    var r := Distribute(goals, total, daysUntil);
    var s := Participants(goals);
    if |s| > 0 {
      var tw := TotalWeight(s, daysUntil);
      ParticipantsWeighPositive(goals, daysUntil);
      Seqs.SumNonNegative(s, g => Weighted(g, daysUntil));
      assert tw > 0.0 by {
        assert Weighted(s[0], daysUntil) > 0.0;
        Seqs.SumSplitFirst(s, g => Weighted(g, daysUntil));
        Seqs.SumNonNegative(s[1..], g => Weighted(g, daysUntil));
      }
      forall id | id in r
        ensures r[id] >= 0.0
      {
        var g :| g in goals && Unfunded(g) && g.id == id;
        assert g in s;
        var k :| 0 <= k < |s| && s[k] == g;
        NonNegativeShare(g, tw, total, daysUntil);
      }
      assert forall i :: 0 <= i < |s| ==> Received(r, s[i]) <= Share(s[i], tw, total, daysUntil) by {
        forall i | 0 <= i < |s|
          ensures Received(r, s[i]) <= Share(s[i], tw, total, daysUntil)
        {
          assert s[i] in goals && Unfunded(s[i]);
        }
      }
      Seqs.SumMonotone(s, g => Received(r, g), g => Share(g, tw, total, daysUntil));
      SharesSumToTotal(s, total, daysUntil);
    }
  }

  /** Where no goal is capped, every participant receives exactly its share. */
  lemma UncappedReceivesShare(goals: seq<Goal>, total: real, daysUntil: Day -> int)
    requires DistinctIds(goals) && Splittable(goals, daysUntil) && |Participants(goals)| > 0
    requires var tw := TotalWeight(Participants(goals), daysUntil);
             forall g :: g in goals && Unfunded(g) ==> Share(g, tw, total, daysUntil) <= g.Remaining()
    ensures var s := Participants(goals);
            var tw := TotalWeight(s, daysUntil);
            var r := Distribute(goals, total, daysUntil);
            forall i :: 0 <= i < |s| ==> Received(r, s[i]) == Share(s[i], tw, total, daysUntil)
  {
    var s := Participants(goals);
    forall i | 0 <= i < |s|
      ensures s[i] in goals && Unfunded(s[i])
    {
    }
  }

  /** Summing what everyone receives, when everyone receives its share, gives the whole amount. */
  lemma ReceivedSumsToTotal(s: seq<Goal>, r: map<nat, real>, total: real, daysUntil: Day -> int)
    requires TotalWeight(s, daysUntil) != 0.0
    requires forall i :: 0 <= i < |s| ==> Received(r, s[i]) == Share(s[i], TotalWeight(s, daysUntil), total, daysUntil)
    ensures Seqs.Sum(s, g => Received(r, g)) == total
  {
    var tw := TotalWeight(s, daysUntil);
    Seqs.SumCongruent(s, g => Received(r, g), g => Share(g, tw, total, daysUntil));
    SharesSumToTotal(s, total, daysUntil);
  }

  /** When no goal is capped, the whole amount is handed out. */
  lemma DistributeHandsOutAllWhenUncapped(goals: seq<Goal>, total: real, daysUntil: Day -> int)
    requires DistinctIds(goals) && Splittable(goals, daysUntil) && |Participants(goals)| > 0
    requires var tw := TotalWeight(Participants(goals), daysUntil);
             forall g :: g in goals && Unfunded(g) ==> Share(g, tw, total, daysUntil) <= g.Remaining()
    ensures Allotted(goals, Distribute(goals, total, daysUntil)) == total
  {
    UncappedReceivesShare(goals, total, daysUntil);
    ReceivedSumsToTotal(Participants(goals), Distribute(goals, total, daysUntil), total, daysUntil);
  }

  /** With a positive total weight and a positive amount, uncapped shares are ordered as the weighted values are. */
  lemma ShareFollowsWeightedValue(a: Goal, b: Goal, totalWeight: real, total: real, daysUntil: Day -> int)
    requires totalWeight > 0.0 && total > 0.0
    ensures Share(a, totalWeight, total, daysUntil) < Share(b, totalWeight, total, daysUntil)
            <==> Weighted(a, daysUntil) < Weighted(b, daysUntil)
  {
    var wa, wb := Weighted(a, daysUntil), Weighted(b, daysUntil);
    var pa, pb := wa / totalWeight, wb / totalWeight;
    assert pa * totalWeight == wa && pb * totalWeight == wb;
    if wa < wb {
      assert pa < pb;
      assert pa * total < pb * total;
    } else {
      assert pa >= pb;
      assert pa * total >= pb * total;
    }
  }

  /** A nearer deadline means a larger urgency factor; a deadline today or past counts like one day left. */
  lemma UrgencyOrder(d1: int, d2: int)
    ensures 0 < d1 < d2 ==> Urgency(d1) > Urgency(d2)
    ensures d1 <= 0 ==> Urgency(d1) == Urgency(1)
  {
    if 0 < d1 < d2 {
      ReciprocalsReverse(Urgency(d1), Urgency(d2), d1 as real, d2 as real);
    }
  }

  /** Of two reciprocals, the one of the larger positive number is the smaller. */
  lemma ReciprocalsReverse(u1: real, u2: real, x1: real, x2: real)
    requires 0.0 < x1 < x2 && u1 * x1 == 1.0 && u2 * x2 == 1.0
    ensures u2 < u1
  {
    assert u2 > 0.0;
    var below := u2 * x1;
    assert below < u2 * x2;
    assert (u1 - u2) * x1 == 1.0 - below;
  }

  /**
    The split favours important and urgent goals: of two goals equally far
    from their deadlines the higher-weighted one gets the larger uncapped
    share, and of two equally weighted goals the one due sooner does.
  */
  lemma ImportantAndUrgentFirst(a: Goal, b: Goal, totalWeight: real, total: real, daysUntil: Day -> int)
    requires totalWeight > 0.0 && total > 0.0
    ensures daysUntil(a.deadline) == daysUntil(b.deadline) && a.Weight() > b.Weight() ==>
              Share(a, totalWeight, total, daysUntil) > Share(b, totalWeight, total, daysUntil)
    ensures a.Weight() == b.Weight() > 0.0 && 0 < daysUntil(a.deadline) < daysUntil(b.deadline) ==>
              Share(a, totalWeight, total, daysUntil) > Share(b, totalWeight, total, daysUntil)
  {
    ShareFollowsWeightedValue(b, a, totalWeight, total, daysUntil);
    var da, db := daysUntil(a.deadline), daysUntil(b.deadline);
    if da == db && a.Weight() > b.Weight() {
      assert Urgency(da) * a.Weight() > Urgency(da) * b.Weight();
    }
    if a.Weight() == b.Weight() > 0.0 && 0 < da < db {
      UrgencyOrder(da, db);
      assert Urgency(da) * a.Weight() > Urgency(db) * a.Weight();
    }
  }

  /** Ten days to every deadline. */
  function TenDays(d: Day): int {
    10
  }

  const ExampleA := Goal(1, None, 100.0, Date(2025, 6, 30), None, None, None, None, 0.0)
  const ExampleB := Goal(2, None, 100.0, Date(2025, 6, 30), None, None, None, None, 0.0)
  const ExampleC := Goal(2, None, 100.0, Date(2025, 6, 30), None, None, None, None, 90.0)

  lemma ExampleParticipants(x: Goal, y: Goal)
    requires Unfunded(x) && Unfunded(y)
    requires Weighted(x, TenDays) == 0.1 && Weighted(y, TenDays) == 0.1
    ensures Participants([x, y]) == [x, y]
    ensures TotalWeight([x, y], TenDays) == 0.2
    ensures Share(x, 0.2, 50.0, TenDays) == 25.0 && Share(y, 0.2, 50.0, TenDays) == 25.0
  {
    assert [x, y][..1] == [x] && [x][..0] == [];
    assert TotalWeight([x, y], TenDays) == TotalWeight([x], TenDays) + Weighted(y, TenDays);
    assert TotalWeight([x], TenDays) == TotalWeight([], TenDays) + Weighted(x, TenDays);
  }

  /** Each example goal has urgency 1/10 and the default weight 1. */
  lemma ExampleWeights()
    ensures Weighted(ExampleA, TenDays) == 0.1
    ensures Weighted(ExampleB, TenDays) == 0.1
    ensures Weighted(ExampleC, TenDays) == 0.1
  {
    assert Urgency(10) == 0.1;
  }

  /** Two unfunded goals ten days out with weight 1 split 50 by their capped equal shares. */
  lemma TwoGoalSplit(x: Goal, y: Goal)
    requires x.id != y.id && Unfunded(x) && Unfunded(y)
    requires Weighted(x, TenDays) == 0.1 && Weighted(y, TenDays) == 0.1
    ensures Splittable([x, y], TenDays)
    ensures Distribute([x, y], 50.0, TenDays)
            == map[x.id := Allocation(x, 0.2, 50.0, TenDays), y.id := Allocation(y, 0.2, 50.0, TenDays)]
  {
    ExampleParticipants(x, y);
    var r := Distribute([x, y], 50.0, TenDays);
    assert x in [x, y] && y in [x, y];
    assert r.Keys == {x.id, y.id};
  }

  /** Two goals ten days out, equally weighted and each missing 100, split 50 evenly. */
  lemma EvenSplitExample()
    ensures Splittable([ExampleA, ExampleB], TenDays)
            && Distribute([ExampleA, ExampleB], 50.0, TenDays) == map[1 := 25.0, 2 := 25.0]
  {
    ExampleWeights();
    ExampleParticipants(ExampleA, ExampleB);
    TwoGoalSplit(ExampleA, ExampleB);
  }

  /** A goal missing only 10 is capped at 10 while the other still gets its 25. */
  lemma CappedSplitExample()
    ensures Splittable([ExampleA, ExampleC], TenDays)
            && Distribute([ExampleA, ExampleC], 50.0, TenDays) == map[1 := 25.0, 2 := 10.0]
  {
    ExampleWeights();
    ExampleParticipants(ExampleA, ExampleC);
    TwoGoalSplit(ExampleA, ExampleC);
    assert ExampleC.Remaining() == 10.0;
  }

  // ---------------------------------------------------------------------------
  // Crediting and resetting

  /** A goal after receiving its entry of `allocation`, if it has one. */
  function Credit(g: Goal, allocation: map<nat, real>): (r: Goal)
    ensures r == g.(amountSaved := r.amountSaved)
    ensures g.id !in allocation ==> r == g
    ensures g.id in allocation ==> r.amountSaved - g.amountSaved == allocation[g.id]
  {
    if g.id in allocation then g.(amountSaved := g.amountSaved + allocation[g.id]) else g
  }

  /**
    `savePaycheckAmount()`: when the entered text reads as a number (the
    reading is `amount`), split it and add each goal's part to its savings.
  */
  function SavePaycheckAmount(goals: seq<Goal>, amount: Option<real>, daysUntil: Day -> int): (r: seq<Goal>)
    requires DistinctIds(goals)
    requires amount.Some? ==> Splittable(goals, daysUntil)
    ensures amount.None? ==> r == goals
    ensures |r| == |goals|
    ensures forall k :: 0 <= k < |goals| ==> r[k] == goals[k].(amountSaved := r[k].amountSaved)
  {
    match amount
    case None => goals
    case Some(total) =>
      var allocation := Distribute(goals, total, daysUntil);
      seq(|goals|, k requires 0 <= k < |goals| => Credit(goals[k], allocation))
  }

  /**
    Each goal still missing money gains exactly its part of the split and
    still does not exceed its target; fully funded goals are left as they are.
  */
  lemma SaveCreditsSplit(goals: seq<Goal>, total: real, daysUntil: Day -> int, k: nat)
    requires DistinctIds(goals) && Splittable(goals, daysUntil)
    requires k < |goals|
    ensures var r := SavePaycheckAmount(goals, Some(total), daysUntil);
            && (!Unfunded(goals[k]) ==> r[k] == goals[k])
            && (Unfunded(goals[k]) ==>
                  r[k].amountSaved - goals[k].amountSaved == Distribute(goals, total, daysUntil)[goals[k].id]
                  && r[k].amountSaved <= goals[k].targetAmount)
  {
    assert goals[k] in goals;
  }

  /** Saving a paycheck never takes money away when the amount is non-negative and weights are positive. */
  lemma SaveNeverDecreases(goals: seq<Goal>, total: real, daysUntil: Day -> int, k: nat)
    requires DistinctIds(goals) && Splittable(goals, daysUntil)
    requires total >= 0.0 && PositiveWeights(goals)
    requires k < |goals|
    ensures SavePaycheckAmount(goals, Some(total), daysUntil)[k].amountSaved >= goals[k].amountSaved
  {
    DistributeWithinTotal(goals, total, daysUntil);
    assert goals[k] in goals;
  }

  /** The "Reset Savings" action: every goal's savings go back to zero. */
  function ResetSavings(goals: seq<Goal>): (r: seq<Goal>)
    ensures |r| == |goals|
    ensures forall k :: 0 <= k < |goals| ==> r[k].amountSaved == 0.0 && r[k] == goals[k].(amountSaved := 0.0)
  {
    seq(|goals|, k requires 0 <= k < |goals| => goals[k].(amountSaved := 0.0))
  }

  /** After a reset, every goal with a positive target has progress 0 and still needs its whole target. */
  lemma ResetRestartsProgress(goals: seq<Goal>, k: nat)
    requires k < |goals| && goals[k].targetAmount > 0.0
    ensures ResetSavings(goals)[k].Progress() == 0.0
    ensures ResetSavings(goals)[k].Remaining() == goals[k].targetAmount
  {
  }

  /** Resetting twice is resetting once. */
  lemma ResetIdempotent(goals: seq<Goal>)
    ensures ResetSavings(ResetSavings(goals)) == ResetSavings(goals)
  {
  }
}
