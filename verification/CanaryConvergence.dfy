// A basic canary whose pods keep up with their ReplicaSets reaches the sizes that its current step
// asks for, and stays there.
module CanaryConvergence {
  import opened Wrappers
  import opened ReplicaSets
  import opened CanaryPlanner
  import opened CanaryReconcile
  import opened CanaryRuns

  function Distance(b: Budget, c: Snapshot): int
    requires c.newRS.Some? && c.stableRS.Some?
  {
    SpecSum(c.otherRSs) + Abs(c.newRS.value.spec - b.canary) + Abs(c.stableRS.value.spec - b.stable)
  }

  function Abs(x: int): int { if x < 0 then -x else x }

  function CaughtUpSet(rs: ReplicaSet): ReplicaSet { rs.(available := rs.spec) }

  function CaughtUpSets(sets: seq<ReplicaSet>): seq<ReplicaSet> {
    seq(|sets|, i requires 0 <= i < |sets| => CaughtUpSet(sets[i]))
  }

  // The snapshot once every ReplicaSet has exactly the available pods that it asks for.
  function CatchUp(c: Snapshot): Snapshot {
    Snapshot(if c.newRS.Some? then Some(CaughtUpSet(c.newRS.value)) else None,
             if c.stableRS.Some? then Some(CaughtUpSet(c.stableRS.value)) else None,
             CaughtUpSets(c.otherRSs))
  }

  // A caught-up snapshot in the middle of an update: a new and a stable set, and old ones that the
  // status no longer refers to.
  ghost predicate MidUpdate(refs: References, c: Snapshot) {
    && c.newRS.Some? && c.TwoSets()
    && 0 <= c.newRS.value.spec == c.newRS.value.available
    && 0 <= c.stableRS.value.spec == c.stableRS.value.available
    && AllCaughtUp(c.otherRSs)
    && forall i :: 0 <= i < |c.otherRSs| ==> !refs.Holds(c.otherRSs[i])
  }

  // One reconcile, after which the pods catch up.
  function Round(ro: Rollout, c: Snapshot): Snapshot { CatchUp(Reconciled(ro, c).0) }

  function Rounds(ro: Rollout, c: Snapshot, k: nat): Snapshot {
    if k == 0 then c else Round(ro, Rounds(ro, c, k - 1))
  }

  // With no referenced set in its way the loop spends its budget until nothing is left to take.
  lemma {:induction false} UnreferencedAreDrained(sets: seq<ReplicaSet>, refs: References, budget: int, i: nat)
    requires i <= |sets| && NonNegative(sets) && budget >= 0
    requires forall j :: 0 <= j < |sets| ==> !refs.Holds(sets[j])
    ensures BudgetAt(sets, refs, budget, i) == Max(0, budget - SpecSum(sets[..i]))
  {
    if i > 0 {
      UnreferencedAreDrained(sets, refs, budget, i - 1);
      PrefixSums(sets, i - 1);
    }
  }

  lemma {:induction false} DrainedTo(sets: seq<ReplicaSet>, refs: References, budget: int)
    requires NonNegative(sets) && budget >= 0
    requires forall j :: 0 <= j < |sets| ==> !refs.Holds(sets[j])
    ensures SpecSum(Drained(sets, refs, budget)) == Max(0, SpecSum(sets) - budget)
  {
    hide SpecSum, BudgetAt;
    UnreferencedAreDrained(sets, refs, budget, |sets|);
    DrainSpendsBudget(sets, refs, budget, |sets|);
    assert sets[..|sets|] == sets && Drained(sets, refs, budget)[..|sets|] == Drained(sets, refs, budget);
  }

  // When neither the new nor the stable set is changed although old pods remain, there is room to
  // take some of the old ones.
  lemma {:induction false} OldStageHasRoom(b: Budget, refs: References, c: Snapshot)
    requires ValidBudget(b) && MidUpdate(refs, c) && SpecSum(c.otherRSs) > 0
    requires BasicCounts(b, c) == (c.newRS.value.spec, c.stableRS.value.spec)
    ensures c.TotalAvailable() - b.Floor() > 0
  {
    CaughtUpSums(c.otherRSs);
  }

  lemma {:induction false} OldStageComesCloser(b: Budget, refs: References, c: Snapshot)
    requires ValidBudget(b) && MidUpdate(refs, c) && SpecSum(c.otherRSs) > 0
    requires BasicCounts(b, c) == (c.newRS.value.spec, c.stableRS.value.spec)
    ensures SpecSum(OldScaledDown(b.Floor(), refs, c.TotalAvailable(), c.otherRSs).0) < SpecSum(c.otherRSs)
  {
    hide SpecSum, Drained;
    OldStageHasRoom(b, refs, c);
    CleanupSucceeds(c.otherRSs);
    DrainedTo(c.otherRSs, refs, c.TotalAvailable() - b.Floor());
  }

  // Scaling the two sets: when the planner leaves both alone, they are at their targets or old pods are in the way.
  lemma {:induction false} CountsComeCloser(b: Budget, refs: References, c: Snapshot)
    requires ValidBudget(b) && MidUpdate(refs, c) && SpecSum(c.otherRSs) >= 0
    ensures var (n, s) := BasicCounts(b, c);
            && n >= 0 && s >= 0
            && Abs(n - b.canary) <= Abs(c.newRS.value.spec - b.canary) && Abs(s - b.stable) <= Abs(c.stableRS.value.spec - b.stable)
            && (n != c.newRS.value.spec ==> Abs(n - b.canary) < Abs(c.newRS.value.spec - b.canary))
            && (s != c.stableRS.value.spec ==> Abs(s - b.stable) < Abs(c.stableRS.value.spec - b.stable))
            && (n == c.newRS.value.spec && s == c.stableRS.value.spec && SpecSum(c.otherRSs) == 0 ==> n == b.canary && s == b.stable)
  {
    hide SpecSum, AllCaughtUp, IsStillReferenced;
  }

  lemma {:induction false} AppliedComesCloser(b: Budget, refs: References, c: Snapshot)
    requires ValidBudget(b) && MidUpdate(refs, c)
    ensures var next := Applied(b.Floor(), refs, BasicCounts(b, c), c).0;
            && next.newRS.Some? && next.stableRS.Some?
            && if Distance(b, c) == 0 then next == c else Distance(b, next) < Distance(b, c)
  {
    hide OldScaledDown, BasicCounts, AllCaughtUp, IsStillReferenced, SpecSum;
    CaughtUpSums(c.otherRSs);
    CountsComeCloser(b, refs, c);
    if BasicCounts(b, c) == (c.newRS.value.spec, c.stableRS.value.spec) && SpecSum(c.otherRSs) > 0 {
      OldStageComesCloser(b, refs, c);
    }
  }

  lemma {:induction false} CaughtUpSpecs(sets: seq<ReplicaSet>)
    ensures SpecSum(CaughtUpSets(sets)) == SpecSum(sets)
  {
    if sets != [] {
      CaughtUpSpecs(sets[1..]);
      assert CaughtUpSets(sets)[1..] == CaughtUpSets(sets[1..]);
    }
  }

  lemma {:induction false} ScaledStaysMidUpdate(refs: References, c: Snapshot, n: int)
    requires MidUpdate(refs, c) && n >= 0
    ensures MidUpdate(refs, CatchUp(c.WithStableSpec(n))) && MidUpdate(refs, CatchUp(c.WithNewSpec(n)))
  {
    OldSetsStayMidUpdate(refs, c, c.otherRSs);
  }

  lemma {:induction false} OldSetsStayMidUpdate(refs: References, c: Snapshot, sets: seq<ReplicaSet>)
    requires MidUpdate(refs, c) && ScaledDown(c.otherRSs, sets)
    ensures MidUpdate(refs, CatchUp(c.(otherRSs := sets)))
  {
    forall i | 0 <= i < |sets| ensures !refs.Holds(CaughtUpSets(sets)[i]) && 0 <= sets[i].spec {
      assert sets[i] == c.otherRSs[i].(spec := sets[i].spec);
    }
  }

  lemma {:induction false} AppliedStaysMidUpdate(b: Budget, refs: References, c: Snapshot)
    requires ValidBudget(b) && MidUpdate(refs, c)
    ensures MidUpdate(refs, CatchUp(Applied(b.Floor(), refs, BasicCounts(b, c), c).0))
  {
    hide OldScaledDown, BasicCounts, MidUpdate, CatchUp, SpecSum;
    var (n, s) := BasicCounts(b, c);
    MidUpdateSets(refs, c);
    CaughtUpSums(c.otherRSs);
    CountsComeCloser(b, refs, c);
    ScaledStaysMidUpdate(refs, c, n);
    ScaledStaysMidUpdate(refs, c, s);
    OldSetsStayMidUpdate(refs, c, c.otherRSs);
    OldSetsOnlyShrink(b.Floor(), refs, c.TotalAvailable(), c.otherRSs);
    OldSetsStayMidUpdate(refs, c, OldScaledDown(b.Floor(), refs, c.TotalAvailable(), c.otherRSs).0);
    assert c.(otherRSs := c.otherRSs) == c;
  }

  lemma {:induction false} MidUpdateSets(refs: References, c: Snapshot)
    requires MidUpdate(refs, c)
    ensures AllCaughtUp(c.otherRSs) && NonNegative(c.otherRSs) && ScaledDown(c.otherRSs, c.otherRSs)
    ensures c.newRS.Some? && c.TwoSets()
  {
  }

  // One round: nothing happens at the target, and away from it the distance falls.
  lemma {:induction false} RoundComesCloser(b: Budget, refs: References, c: Snapshot)
    requires ValidBudget(b) && MidUpdate(refs, c)
    ensures var next := CatchUp(Applied(b.Floor(), refs, BasicCounts(b, c), c).0);
            && MidUpdate(refs, next)
            && if Distance(b, c) == 0 then next == c else Distance(b, next) < Distance(b, c)
  {
    var next := Applied(b.Floor(), refs, BasicCounts(b, c), c).0;
    AppliedComesCloser(b, refs, c);
    AppliedStaysMidUpdate(b, refs, c);
    CaughtUpSpecs(next.otherRSs);
    assert CaughtUpSets(c.otherRSs) == c.otherRSs;
  }

  // Being at the target is AtDesiredReplicaCountsForCanary.
  lemma {:induction false} AtTarget(ro: Rollout, c: Snapshot)
    requires BasicCanary(ro) && MidUpdate(ReferencesOf(ro), c)
    ensures Distance(CurrentBudget(ro), c) >= 0
    ensures AtDesiredReplicaCounts(ro, c.newRS, c.stableRS, c.otherRSs) <==> Distance(CurrentBudget(ro), c) == 0
  {
    CaughtUpSums(c.otherRSs);
    WeightInRange(ro);
    DesiredIsBudget(ro, c);
  }

  lemma {:induction false} DesiredIsBudget(ro: Rollout, c: Snapshot)
    requires BasicCanary(ro) && c.TwoSets()
    ensures DesiredReplicaCounts(ro, c.newRS, c.stableRS) == (CurrentBudget(ro).canary, CurrentBudget(ro).stable)
  {
    WeightInRange(ro);
  }

  // A reconcile leaves a caught-up cluster alone exactly when it is at the desired counts; otherwise
  // the round brings it strictly closer.
  lemma {:induction false} FixpointIsDesired(ro: Rollout, c: Snapshot)
    requires BasicCanary(ro) && MidUpdate(ReferencesOf(ro), c)
    ensures MidUpdate(ReferencesOf(ro), Round(ro, c))
    ensures Round(ro, c) == c <==> AtDesiredReplicaCounts(ro, c.newRS, c.stableRS, c.otherRSs)
    ensures Round(ro, c) != c ==> Distance(CurrentBudget(ro), Round(ro, c)) < Distance(CurrentBudget(ro), c)
  {
    hide CurrentBudget, PlannedCounts, BasicCounts, Applied, MinAvailable, AtDesiredReplicaCounts;
    ReconciledIsBasic(ro, c);
    RoundComesCloser(CurrentBudget(ro), ReferencesOf(ro), c);
    AtTarget(ro, c);
  }

  // From any caught-up state, as many rounds as the initial distance reach the desired counts, and
  // every later round stays there.
  lemma {:induction false} CanaryConverges(ro: Rollout, c: Snapshot, k: nat)
    requires BasicCanary(ro) && MidUpdate(ReferencesOf(ro), c)
    ensures var end := Rounds(ro, c, k);
            && MidUpdate(ReferencesOf(ro), end)
            && Distance(CurrentBudget(ro), end) <= Max(0, Distance(CurrentBudget(ro), c) - k)
            && (k >= Distance(CurrentBudget(ro), c) ==>
                AtDesiredReplicaCounts(ro, end.newRS, end.stableRS, end.otherRSs))
  {
    hide CurrentBudget, Reconciled, AtDesiredReplicaCounts;
    AtTarget(ro, c);
    if k > 0 {
      CanaryConverges(ro, c, k - 1);
      var last := Rounds(ro, c, k - 1);
      FixpointIsDesired(ro, last);
      AtTarget(ro, last);
      AtTarget(ro, Round(ro, last));
    }
  }

  // Without any budget the canary would be stuck: nothing may surge and nothing may be unavailable.
  lemma {:induction false} NoBudgetNoProgress(b: Budget, refs: References, c: Snapshot)
    requires b.surge == 0 && b.unavailable == 0 && !b.extra
    requires b.replicas == b.canary + b.stable && 0 < b.canary && 0 <= b.stable
    requires c == Snapshot(Some(ReplicaSet("n", "n", 1, 0, 0, None, NoDeadline)),
                           Some(ReplicaSet("s", "s", 0, b.replicas, b.replicas, None, NoDeadline)), [])
    ensures Applied(b.Floor(), refs, BasicCounts(b, c), c).0 == c && Distance(b, c) > 0
  {
    assert "n" != "s" by { assert "n"[0] != "s"[0]; }
  }
}
