// What basic canary reconciles do to the whole cluster: the surge ceiling over runs.
module CanaryRuns {
  import opened Wrappers
  import opened ReplicaSets
  import opened CanaryPlanner
  import opened CanaryReconcile

  function TotalSpec(c: Snapshot): int {
    SpecOf(c.newRS) + (if c.TwoSets() then c.stableRS.value.spec else 0) + SpecSum(c.otherRSs)
  }

  function TotalServing(c: Snapshot): int {
    ServingOf(c.newRS) + (if c.TwoSets() then Serving(c.stableRS.value) else 0) + ServingSum(c.otherRSs)
  }

  ghost predicate Sane(c: Snapshot) {
    && (c.newRS.Some? ==> 0 <= c.newRS.value.spec && 0 <= c.newRS.value.available)
    && (c.TwoSets() ==> 0 <= c.stableRS.value.spec && 0 <= c.stableRS.value.available)
    && NonNegative(c.otherRSs)
  }

  /******* Basic canary rollouts and their budgets *******/

  ghost predicate NonNegativeBudget(v: Option<IntOrPercent>) {
    v.Some? ==> match v.value case Whole(n) => n >= 0 case Percent(p) => p >= 0
  }

  // A basic canary as validation admits it; its budgets are not negative.
  ghost predicate BasicCanary(ro: Rollout) {
    && !ro.trafficRouting
    && ReplicasOrDefault(ro) >= 0
    && NonNegativeBudget(ro.maxSurge) && NonNegativeBudget(ro.maxUnavailable)
    && forall i :: 0 <= i < |ro.steps| && ro.steps[i].setWeight.Some? ==> 0 <= ro.steps[i].setWeight.value <= 100
  }

  ghost predicate ValidBudget(b: Budget) {
    && 0 <= b.canary <= b.replicas && 0 <= b.stable <= b.replicas
    && b.canary + b.stable == b.replicas + (if b.extra then 1 else 0)
    && 0 <= b.surge && 0 <= b.unavailable <= b.replicas
    && (b.replicas > 0 ==> b.surge + b.unavailable >= 1)
  }

  function CurrentBudget(ro: Rollout): Budget { BudgetOf(ro, CanaryReplicasOrWeight(ro).1) }

  lemma {:induction false} WeightInRange(ro: Rollout)
    requires BasicCanary(ro)
    ensures CanaryReplicasOrWeight(ro).0.None? && 0 <= CanaryReplicasOrWeight(ro).1 <= 100
  {
    if CurrentStep(ro).Some? {
      LastWeightIsFromAStep(ro.steps, CurrentStepIndex(ro).value + 1);
    }
  }

  lemma {:induction false} BudgetIsValid(ro: Rollout)
    requires BasicCanary(ro)
    ensures ValidBudget(CurrentBudget(ro))
    ensures CurrentBudget(ro).replicas == ReplicasOrDefault(ro)
    ensures CurrentBudget(ro).surge == MaxSurge(ro) && CurrentBudget(ro).unavailable == MaxUnavailable(ro)
  {
    WeightInRange(ro);
    SharesCoverReplicas(ReplicasOrDefault(ro), CanaryReplicasOrWeight(ro).1);
    SharesStayPositive(ReplicasOrDefault(ro), CanaryReplicasOrWeight(ro).1);
    FencepostsNonNegative(ro);
  }

  lemma {:induction false} FencepostsNonNegative(ro: Rollout)
    requires BasicCanary(ro)
    ensures MaxSurge(ro) >= 0 && 0 <= MaxUnavailable(ro) <= ReplicasOrDefault(ro)
    ensures ReplicasOrDefault(ro) > 0 ==> MaxSurge(ro) + MaxUnavailable(ro) >= 1
  {
    var surge := if ro.maxSurge.Some? then ro.maxSurge.value else DEFAULT_FENCEPOST;
    var unavailable := if ro.maxUnavailable.Some? then ro.maxUnavailable.value else DEFAULT_FENCEPOST;
    ResolveNonNegative(surge, ReplicasOrDefault(ro), true);
    ResolveNonNegative(unavailable, ReplicasOrDefault(ro), false);
  }

  lemma {:induction false} ResolveNonNegative(v: IntOrPercent, total: int, roundUp: bool)
    requires total >= 0 && match v case Whole(n) => n >= 0 case Percent(p) => p >= 0
    ensures Resolve(v, total, roundUp) >= 0
  {
    if v.Percent? {
      assert v.p * total >= 0;
    }
  }

  // The decision of a basic canary, in terms of its budget only.
  function BasicCounts(b: Budget, c: Snapshot): (int, int) {
    Grants(RoomFor(b, c.newRS, c.stableRS, c.otherRSs))
  }

  lemma {:induction false} ReconciledIsBasic(ro: Rollout, c: Snapshot)
    requires BasicCanary(ro)
    ensures var b := CurrentBudget(ro);
            && ValidBudget(b) && b.Floor() == MinAvailable(ro)
            && PlannedCounts(ro, c.newRS, c.stableRS, c.otherRSs) == BasicCounts(b, c)
            && Reconciled(ro, c) == Applied(b.Floor(), ReferencesOf(ro), BasicCounts(b, c), c)
  {
    hide BudgetOf, Grants, RoomFor, Applied, MaxUnavailable;
    WeightInRange(ro);
    BudgetIsValid(ro);
  }

  /******* The old sets *******/

  lemma {:induction false} CleanupOnlyShrinks(sets: seq<ReplicaSet>)
    requires NonNegative(sets)
    ensures ScaledDown(sets, CleanedUp(sets).sets)
    ensures ServingSum(CleanedUp(sets).sets) == ServingSum(sets)
  {
    if sets != [] {
      CleanupOnlyShrinks(sets[1..]);
      var rest := CleanedUp(sets[1..]).sets;
      assert forall i :: 0 < i < |sets| ==> sets[i] == sets[1..][i - 1];
    }
  }

  lemma {:induction false} CleanupSucceeds(sets: seq<ReplicaSet>)
    requires WithinSpec(sets)
    ensures CleanedUp(sets).ok && WithinSpec(CleanedUp(sets).sets)
    ensures AllCaughtUp(sets) ==> CleanedUp(sets) == Cleanup(sets, 0, true)
  {
    if sets != [] {
      CleanupSucceeds(sets[1..]);
      assert forall i :: 0 < i < |sets| ==> sets[i] == sets[1..][i - 1];
      assert sets == [sets[0]] + sets[1..];
    }
  }

  lemma {:induction false} BudgetShrinks(sets: seq<ReplicaSet>, refs: References, budget: int, i: nat)
    requires i <= |sets| && NonNegative(sets) && budget >= 0
    ensures 0 <= BudgetAt(sets, refs, budget, i) <= budget
  {
    if i > 0 {
      BudgetShrinks(sets, refs, budget, i - 1);
    }
  }

  lemma {:induction false} DrainedScalesDown(sets: seq<ReplicaSet>, refs: References, budget: int)
    requires NonNegative(sets) && budget >= 0
    ensures ScaledDown(sets, Drained(sets, refs, budget))
  {
    forall i | 0 <= i < |sets|
      ensures 0 <= Drained(sets, refs, budget)[i].spec <= sets[i].spec
    {
      BudgetShrinks(sets, refs, budget, i);
    }
  }

  lemma {:induction false} DrainedAt(sets: seq<ReplicaSet>, refs: References, budget: int, i: nat)
    requires 0 < i <= |sets|
    ensures |Drained(sets, refs, budget)| == |sets|
    ensures sets[i - 1].spec - Drained(sets, refs, budget)[i - 1].spec ==
            BudgetAt(sets, refs, budget, i - 1) - BudgetAt(sets, refs, budget, i)
  {
    hide Cut;
  }

  // What is missing from the sets is what is missing from the budget.
  lemma {:induction false} DrainSpendsBudget(sets: seq<ReplicaSet>, refs: References, budget: int, i: nat)
    requires i <= |sets|
    ensures SpecSum(sets[..i]) - SpecSum(Drained(sets, refs, budget)[..i]) == budget - BudgetAt(sets, refs, budget, i)
  {
    hide SpecSum, Drained, BudgetAt;
    var drained := Drained(sets, refs, budget);
    if i == 0 {
      NothingDrained(sets, drained, refs, budget);
    } else {
      DrainSpendsBudget(sets, refs, budget, i - 1);
      DrainedAt(sets, refs, budget, i);
      PrefixSums(sets, i - 1);
      PrefixSums(drained, i - 1);
    }
  }

  lemma {:induction false} NothingDrained(sets: seq<ReplicaSet>, drained: seq<ReplicaSet>, refs: References,
                                          budget: int)
    ensures SpecSum(sets[..0]) == SpecSum(drained[..0]) == 0 && BudgetAt(sets, refs, budget, 0) == budget
  {
    assert sets[..0] == [] == drained[..0];
  }

  lemma {:induction false} OldSetsOnlyShrink(floor: int, refs: References, available: int, olds: seq<ReplicaSet>)
    requires NonNegative(olds)
    ensures ScaledDown(olds, OldScaledDown(floor, refs, available, olds).0)
    ensures SpecSum(OldScaledDown(floor, refs, available, olds).0) <= SpecSum(olds)
  {
    hide Drained, CleanedUp, SpecSum, ServingSum;
    CleanupOnlyShrinks(olds);
    if available - floor > 0 {
      DrainedScalesDown(CleanedUp(olds).sets, refs, available - floor);
    }
    ScaleDownCost(olds, OldScaledDown(floor, refs, available, olds).0);
  }

  /******* Surge ceiling *******/

  lemma {:induction false} DecisionRespectsCeiling(b: Budget, refs: References, c: Snapshot)
    requires ValidBudget(b) && Sane(c)
    ensures var next := Applied(b.Floor(), refs, BasicCounts(b, c), c).0;
            Sane(next) && TotalSpec(next) <= Max(TotalSpec(c), b.Ceiling())
  {
    hide OldScaledDown, SpecSum, ServingSum, AvailableSum;
    SumsNonNegative(c.otherRSs);
    OldSetsOnlyShrink(b.Floor(), refs, c.TotalAvailable(), c.otherRSs);
  }

  // One reconcile of a basic canary.
  lemma {:induction false} ReconcileRespectsCeiling(ro: Rollout, c: Snapshot)
    requires BasicCanary(ro) && Sane(c)
    ensures var next := Reconciled(ro, c).0;
            Sane(next) && TotalSpec(next) <= Max(TotalSpec(c), ReplicasOrDefault(ro) + MaxSurge(ro) + 1)
  {
    hide CurrentBudget, MaxSurge, PlannedCounts;
    ReconciledIsBasic(ro, c);
    BudgetIsValid(ro);
    DecisionRespectsCeiling(CurrentBudget(ro), ReferencesOf(ro), c);
  }

  // createDesiredReplicaSet: the new set is planned for as an empty one and created at that size.
  function Created(ro: Rollout, c: Snapshot, rs: ReplicaSet): Snapshot {
    var empty := c.(newRS := Some(rs.(spec := 0, available := 0)));
    empty.WithNewSpec(PlannedCounts(ro, empty.newRS, c.stableRS, c.otherRSs).0)
  }

  lemma {:induction false} CreatedWithinCeiling(b: Budget, c: Snapshot, rs: ReplicaSet)
    requires ValidBudget(b) && Sane(c) && c.newRS.None?
    requires c.stableRS.Some? ==> c.stableRS.value.name != rs.name
    ensures var empty := c.(newRS := Some(rs.(spec := 0, available := 0)));
            var next := empty.WithNewSpec(BasicCounts(b, empty).0);
            Sane(next) && TotalSpec(next) <= Max(TotalSpec(c), b.Ceiling())
  {
    SumsNonNegative(c.otherRSs);
  }

  lemma {:induction false} CreationRespectsCeiling(ro: Rollout, c: Snapshot, rs: ReplicaSet)
    requires BasicCanary(ro) && Sane(c) && c.newRS.None?
    requires c.stableRS.Some? ==> c.stableRS.value.name != rs.name
    ensures var next := Created(ro, c, rs);
            Sane(next) && TotalSpec(next) <= Max(TotalSpec(c), ReplicasOrDefault(ro) + MaxSurge(ro) + 1)
  {
    hide CurrentBudget, MaxSurge, PlannedCounts;
    ReconciledIsBasic(ro, c.(newRS := Some(rs.(spec := 0, available := 0))));
    BudgetIsValid(ro);
    CreatedWithinCeiling(CurrentBudget(ro), c, rs);
  }

  // What may happen between two snapshots of a run: a reconcile, the creation of the new set, or the
  // environment's doing: pods come and go, and a template change moves sets between the roles.
  datatype Event = Reconcile(ro: Rollout) | Create(ro: Rollout, rs: ReplicaSet) | Environment

  ghost predicate Next(replicas: int, surge: int, c: Snapshot, e: Event, next: Snapshot) {
    match e
    case Reconcile(ro) =>
      BasicCanary(ro) && ReplicasOrDefault(ro) == replicas && MaxSurge(ro) == surge && next == Reconciled(ro, c).0
    case Create(ro, rs) =>
      && BasicCanary(ro) && ReplicasOrDefault(ro) == replicas && MaxSurge(ro) == surge
      && c.newRS.None? && (c.stableRS.Some? ==> c.stableRS.value.name != rs.name)
      && next == Created(ro, c, rs)
    case Environment => Sane(next) && TotalSpec(next) == TotalSpec(c)
  }

  ghost predicate IsRun(replicas: int, surge: int, states: seq<Snapshot>, events: seq<Event>) {
    && |states| == |events| + 1 && Sane(states[0])
    && forall i :: 0 <= i < |events| ==> Next(replicas, surge, states[i], events[i], states[i + 1])
  }

  lemma {:induction false} NextRespectsCeiling(replicas: int, surge: int, c: Snapshot, e: Event, next: Snapshot)
    requires Sane(c) && Next(replicas, surge, c, e, next)
    ensures Sane(next) && TotalSpec(next) <= Max(TotalSpec(c), replicas + surge + 1)
  {
    match e
    case Reconcile(ro) => ReconcileRespectsCeiling(ro, c);
    case Create(ro, rs) => CreationRespectsCeiling(ro, c, rs);
    case Environment =>
  }

  // With a fixed replica count and surge budget, no reachable state asks for more than
  // replicas + maxSurge + 1 pods unless the run already started with more.
  lemma {:induction false} SurgeCeilingOverRuns(replicas: int, surge: int, states: seq<Snapshot>, events: seq<Event>,
                                                k: nat)
    requires IsRun(replicas, surge, states, events) && k < |states|
    ensures Sane(states[k])
    ensures TotalSpec(states[k]) <= Max(TotalSpec(states[0]), replicas + surge + 1)
  {
    if k > 0 {
      SurgeCeilingOverRuns(replicas, surge, states, events, k - 1);
      NextRespectsCeiling(replicas, surge, states[k - 1], events[k - 1], states[k]);
    }
  }
}
