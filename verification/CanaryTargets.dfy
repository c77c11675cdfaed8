// The sizes that a canary ends at, in plain numbers: a basic canary after enough rounds of the planner, one with
// traffic routing after two reconciles.
module CanaryTargets {
  import opened Wrappers
  import opened ReplicaSets
  import opened CanaryPlanner
  import opened CanaryReconcile
  import opened CanaryRuns
  import opened CanaryConvergence

  // The new and the stable set have these sizes, with all pods available, and no old pods are left.
  predicate IsAt(c: Snapshot, canary: int, stable: int) {
    && c.newRS.Some? && c.newRS.value.spec == c.newRS.value.available == canary
    && c.stableRS.Some? && c.stableRS.value.spec == c.stableRS.value.available == stable
    && SpecSum(c.otherRSs) == 0
  }

  ghost predicate StaysAt(ro: Rollout, c: Snapshot, canary: int, stable: int, start: nat) {
    forall k: nat :: k >= start ==> IsAt(Rounds(ro, c, k), canary, stable)
  }

  // From some round on the sizes are these.
  ghost predicate EndsAt(ro: Rollout, c: Snapshot, canary: int, stable: int) {
    exists start: nat :: StaysAt(ro, c, canary, stable, start)
  }

  lemma {:induction false} EndsAtBudget(ro: Rollout, c: Snapshot)
    requires BasicCanary(ro) && MidUpdate(ReferencesOf(ro), c)
    ensures EndsAt(ro, c, CurrentBudget(ro).canary, CurrentBudget(ro).stable)
  {
    hide CurrentBudget, Reconciled, Rounds, BasicCanary, AtDesiredReplicaCounts;
    var b := CurrentBudget(ro);
    AtTarget(ro, c);
    var start: nat := Distance(b, c);
    forall k: nat | k >= start ensures IsAt(Rounds(ro, c, k), b.canary, b.stable) {
      CanaryConverges(ro, c, k);
      AtTarget(ro, Rounds(ro, c, k));
      CaughtUpSums(Rounds(ro, c, k).otherRSs);
    }
    assert StaysAt(ro, c, b.canary, b.stable, start);
  }

  // The least number of pods that is at least p hundredths of a pod.
  predicate IsCeiling(n: int, p: int) { 100 * (n - 1) < p <= 100 * n }

  predicate HasReplicas(ro: Rollout, replicas: int) {
    if ro.replicas.Some? then ro.replicas.value == replicas else replicas == 1
  }

  // The i-th step is the current one; without an index it is the first.
  predicate AtStep(ro: Rollout, i: int) {
    0 <= i < |ro.steps| && if ro.currentStepIndex.Some? then ro.currentStepIndex.value == i else i == 0
  }

  predicate NoStepLeft(ro: Rollout) {
    ro.steps == [] || (ro.currentStepIndex.Some? && ro.currentStepIndex.value >= |ro.steps|)
  }

  // The last of the steps 0..i that sets a weight sets it to w; without one w is 0.
  predicate WeightInForce(steps: seq<CanaryStep>, i: int, w: int)
    requires 0 <= i < |steps|
  {
    || (exists j :: 0 <= j <= i && steps[j].setWeight == Some(w) && forall m :: j < m <= i ==> steps[m].setWeight.None?)
    || (w == 0 && forall m :: 0 <= m <= i ==> steps[m].setWeight.None?)
  }

  lemma {:induction false} LastWeightAt(steps: seq<CanaryStep>, end: nat, j: nat)
    requires j < end <= |steps| && steps[j].setWeight.Some? && forall m :: j < m < end ==> steps[m].setWeight.None?
    ensures LastWeight(steps, end) == steps[j].setWeight.value
  {
    if j < end - 1 {
      LastWeightAt(steps, end - 1, j);
    }
  }

  lemma {:induction false} NoWeight(steps: seq<CanaryStep>, end: nat)
    requires end <= |steps| && forall m :: 0 <= m < end ==> steps[m].setWeight.None?
    ensures LastWeight(steps, end) == 0
  {
    if end > 0 {
      NoWeight(steps, end - 1);
    }
  }

  lemma {:induction false} LastWeightIsInForce(steps: seq<CanaryStep>, end: nat, w: int)
    requires 0 < end <= |steps| && WeightInForce(steps, end - 1, w)
    ensures LastWeight(steps, end) == w
  {
    hide LastWeight;
    if j :| 0 <= j <= end - 1 && steps[j].setWeight == Some(w) && forall m :: j < m <= end - 1 ==> steps[m].setWeight.None? {
      LastWeightAt(steps, end, j);
    } else {
      NoWeight(steps, end);
    }
  }

  lemma {:induction false} SharesAreCeilings(replicas: int, w: int, n: int, s: int)
    requires IsCeiling(n, replicas * w) && IsCeiling(s, replicas * (100 - w))
    ensures CanaryShare(replicas, w) == n && StableShare(replicas, w) == s
  {
  }

  lemma {:induction false} FullShares(replicas: int)
    ensures CanaryShare(replicas, 0) == 0 == StableShare(replicas, 100)
    ensures CanaryShare(replicas, 100) == replicas == StableShare(replicas, 0)
  {
    SharesAreCeilings(replicas, 0, 0, replicas);
    SharesAreCeilings(replicas, 100, replicas, 0);
  }

  lemma {:induction false} BudgetAtWeight(ro: Rollout, w: int)
    requires CanaryReplicasOrWeight(ro).1 == w
    ensures CurrentBudget(ro).canary == CanaryShare(ReplicasOrDefault(ro), w)
    ensures CurrentBudget(ro).stable == StableShare(ReplicasOrDefault(ro), w)
  {
  }

  // An aborted canary is taken back: no pod of it is left, and the stable set has all replicas.
  lemma {:induction false} AbortedCanaryIsTakenBack(ro: Rollout, c: Snapshot, replicas: int)
    requires BasicCanary(ro) && MidUpdate(ReferencesOf(ro), c) && HasReplicas(ro, replicas)
    requires ro.abort && !ro.promoteFull && ro.currentPodHash != ro.stableHash
    ensures EndsAt(ro, c, 0, replicas)
  {
    hide EndsAt, CurrentBudget, CanaryShare, StableShare;
    EndsAtBudget(ro, c);
    BudgetAtWeight(ro, 0);
    FullShares(replicas);
  }

  // A canary with no step left, one to be promoted fully, and one that is the stable version get all replicas.
  lemma {:induction false} FinishedCanaryGetsAll(ro: Rollout, c: Snapshot, replicas: int)
    requires BasicCanary(ro) && MidUpdate(ReferencesOf(ro), c) && HasReplicas(ro, replicas)
    requires ro.promoteFull || ro.currentPodHash == ro.stableHash || (!ro.abort && NoStepLeft(ro))
    ensures EndsAt(ro, c, replicas, 0)
  {
    hide EndsAt, CurrentBudget, CanaryShare, StableShare;
    EndsAtBudget(ro, c);
    BudgetAtWeight(ro, 100);
    FullShares(replicas);
  }

  // In between, the two sets share the replicas as the weight in force says, both rounded up.
  lemma {:induction false} CanaryGetsItsWeight(ro: Rollout, c: Snapshot, replicas: int, i: nat, w: int, n: int, s: int)
    requires BasicCanary(ro) && MidUpdate(ReferencesOf(ro), c) && HasReplicas(ro, replicas)
    requires !ro.promoteFull && ro.currentPodHash != ro.stableHash && !ro.abort
    requires AtStep(ro, i) && WeightInForce(ro.steps, i, w)
    requires IsCeiling(n, replicas * w) && IsCeiling(s, replicas * (100 - w))
    ensures EndsAt(ro, c, n, s)
  {
    hide EndsAt, CurrentBudget, CanaryShare, StableShare;
    EndsAtBudget(ro, c);
    LastWeightIsInForce(ro.steps, i + 1, w);
    BudgetAtWeight(ro, w);
    SharesAreCeilings(replicas, w, n, s);
  }

  lemma {:induction false} OnlySetCount(b: Budget, c: Snapshot)
    requires ValidBudget(b) && c.newRS.Some? && c.stableRS in {None, c.newRS} && SpecSum(c.otherRSs) == 0
    requires c.newRS.value.available >= 0 && c.newRS.value.spec >= 0
    ensures BasicCounts(b, c).0 == b.replicas
  {
    hide SpecSum;
  }

  // A set that is alone gets all replicas in one reconcile, whatever the steps say and however few of its pods are
  // available; when it is the stable set, it stays so.
  lemma {:induction false} OnlySetIsFull(ro: Rollout, c: Snapshot, replicas: int)
    requires BasicCanary(ro) && HasReplicas(ro, replicas) && Sane(c)
    requires c.newRS.Some? && c.stableRS in {None, c.newRS} && c.otherRSs == []
    ensures var end := Reconciled(ro, c).0;
            && end.newRS == Some(c.newRS.value.(spec := replicas)) && end.otherRSs == []
            && end.stableRS == if c.stableRS.None? then None else end.newRS
  {
    hide CurrentBudget, MaxUnavailable, MaxSurge, BasicCounts, PlannedCounts, OldScaledDown;
    BudgetIsValid(ro);
    ReconciledIsBasic(ro, c);
    OnlySetCount(CurrentBudget(ro), c);
  }

  // A missing set is planned at no pods, and so is a stable set that is the new one.
  lemma {:induction false} MissingSetsGetNothing(ro: Rollout, c: Snapshot)
    requires BasicCanary(ro)
    ensures c.newRS.None? ==> PlannedCounts(ro, c.newRS, c.stableRS, c.otherRSs).0 == 0
    ensures c.stableRS in {None, c.newRS} ==> PlannedCounts(ro, c.newRS, c.stableRS, c.otherRSs).1 == 0
  {
    hide CurrentBudget, PlannedCounts;
    ReconciledIsBasic(ro, c);
  }

  // Without a second set a step's counts are reached only when there is nothing to scale.
  lemma {:induction false} OneSetIsNotEnough(ro: Rollout, newRS: Option<ReplicaSet>, olds: seq<ReplicaSet>,
                                             replicas: int)
    requires !ro.trafficRouting && HasReplicas(ro, replicas)
    ensures AtDesiredReplicaCounts(ro, newRS, None, olds) == false
    ensures AtDesiredReplicaCounts(ro, newRS, newRS, olds) ==> replicas == 0
  {
  }

  // As long as old sets ask for pods, neither the new nor the stable set gives any up.
  lemma {:induction false} OldPodsGoFirst(b: Budget, refs: References, c: Snapshot)
    requires ValidBudget(b) && SpecSum(c.otherRSs) > 0
    ensures var next := Applied(b.Floor(), refs, BasicCounts(b, c), c).0;
            SpecOf(next.newRS) >= SpecOf(c.newRS) && (c.TwoSets() ==> SpecOf(next.stableRS) >= c.stableRS.value.spec)
  {
    hide SpecSum, OldScaledDown;
  }

  /******* Traffic routing *******/

  function Explicit(step: CanaryStep): Option<SetCanaryScale>
    requires step.setCanaryScale.Some?
  {
    if step.setCanaryScale.value.matchTrafficWeight then None else step.setCanaryScale
  }

  // The last of the steps 0..i with an explicit scale asks for this one; None if there is none, or if it only asks to
  // match the traffic again.
  predicate ScaleInForce(steps: seq<CanaryStep>, i: int, scale: Option<SetCanaryScale>)
    requires 0 <= i < |steps|
  {
    || (exists j :: 0 <= j <= i && steps[j].setCanaryScale.Some? && (forall m :: j < m <= i ==> steps[m].setCanaryScale.None?)
                    && scale == Explicit(steps[j]))
    || (scale.None? && forall m :: 0 <= m <= i ==> steps[m].setCanaryScale.None?)
  }

  lemma {:induction false} LastScaleAt(steps: seq<CanaryStep>, end: nat, j: nat)
    requires j < end <= |steps| && steps[j].setCanaryScale.Some? && forall m :: j < m < end ==> steps[m].setCanaryScale.None?
    ensures LastScale(steps, end) == Explicit(steps[j])
  {
    if j < end - 1 {
      LastScaleAt(steps, end - 1, j);
    }
  }

  lemma {:induction false} NoScale(steps: seq<CanaryStep>, end: nat)
    requires end <= |steps| && forall m :: 0 <= m < end ==> steps[m].setCanaryScale.None?
    ensures LastScale(steps, end).None?
  {
    if end > 0 {
      NoScale(steps, end - 1);
    }
  }

  lemma {:induction false} LastScaleIsInForce(steps: seq<CanaryStep>, end: nat, scale: Option<SetCanaryScale>)
    requires 0 < end <= |steps| && ScaleInForce(steps, end - 1, scale)
    ensures LastScale(steps, end) == scale
  {
    hide LastScale;
    if j :| 0 <= j <= end - 1 && steps[j].setCanaryScale.Some? && (forall m :: j < m <= end - 1 ==> steps[m].setCanaryScale.None?)
            && scale == Explicit(steps[j]) {
      LastScaleAt(steps, end, j);
    } else {
      NoScale(steps, end);
    }
  }

  // The canary that a rollout with traffic routing asks for: all replicas when it is over, else what the explicit scale
  // in force says, in pods or in per cent, else the weight in force, which an abort sets to 0.
  ghost predicate Wants(ro: Rollout, replicas: int, n: int) {
    if ro.promoteFull || ro.currentPodHash == ro.stableHash || (!ro.abort && NoStepLeft(ro)) then n == replicas
    else if NoStepLeft(ro) then n == 0
    else exists i, scale :: AtStep(ro, i) && ScaleInForce(ro.steps, i, scale) && WantsAt(ro, replicas, i, scale, n)
  }

  ghost predicate WantsAt(ro: Rollout, replicas: int, i: int, scale: Option<SetCanaryScale>, n: int)
    requires 0 <= i < |ro.steps|
  {
    if scale.Some? && scale.value.replicas.Some? then n == scale.value.replicas.value
    else if scale.Some? && scale.value.weight.Some? then IsCeiling(n, replicas * scale.value.weight.value)
    else if ro.abort then n == 0
    else exists w :: WeightInForce(ro.steps, i, w) && IsCeiling(n, replicas * w)
  }

  lemma {:induction false} CeilingIsShare(replicas: int, w: int, n: int)
    requires IsCeiling(n, replicas * w)
    ensures CanaryShare(replicas, w) == n
  {
  }

  lemma {:induction false} UsesScaleInForce(ro: Rollout, i: int, scale: Option<SetCanaryScale>)
    requires ro.trafficRouting && AtStep(ro, i) && ScaleInForce(ro.steps, i, scale)
    ensures UsedCanaryScale(ro) == scale
  {
    hide LastScale;
    LastScaleIsInForce(ro.steps, i + 1, scale);
  }

  lemma {:induction false} UsesWeightInForce(ro: Rollout, i: int, w: int)
    requires !ro.abort && AtStep(ro, i) && WeightInForce(ro.steps, i, w)
    ensures CurrentSetWeight(ro) == w
  {
    hide LastWeight;
    LastWeightIsInForce(ro.steps, i + 1, w);
  }

  // What one decision plans is a number of pods or the share of a weight.
  function PlannedCanary(ro: Rollout): int {
    var (fixed, weight) := CanaryReplicasOrWeight(ro);
    if fixed.Some? then fixed.value else CanaryShare(ReplicasOrDefault(ro), weight)
  }

  lemma {:induction false} StepIsPlanned(ro: Rollout, replicas: int, i: int, scale: Option<SetCanaryScale>, n: int)
    requires ro.trafficRouting && HasReplicas(ro, replicas) && !ro.promoteFull && ro.currentPodHash != ro.stableHash
    requires AtStep(ro, i) && ScaleInForce(ro.steps, i, scale) && WantsAt(ro, replicas, i, scale, n)
    ensures PlannedCanary(ro) == n
  {
    hide CanaryShare, UsedCanaryScale, CurrentSetWeight, ScaleInForce, WeightInForce;
    UsesScaleInForce(ro, i, scale);
    if scale.Some? && scale.value.replicas.Some? {
    } else if scale.Some? && scale.value.weight.Some? {
      CeilingIsShare(replicas, scale.value.weight.value, n);
    } else if ro.abort {
      AbortIsWeightZero(ro);
      FullShares(replicas);
    } else {
      var w :| WeightInForce(ro.steps, i, w) && IsCeiling(n, replicas * w);
      UsesWeightInForce(ro, i, w);
      CeilingIsShare(replicas, w, n);
    }
  }

  lemma {:induction false} AbortIsWeightZero(ro: Rollout)
    requires ro.abort
    ensures CurrentSetWeight(ro) == 0
  {
  }

  lemma {:induction false} FinishedIsPlanned(ro: Rollout, replicas: int, n: int)
    requires HasReplicas(ro, replicas) && Wants(ro, replicas, n)
    requires ro.promoteFull || ro.currentPodHash == ro.stableHash || NoStepLeft(ro)
    ensures PlannedCanary(ro) == n
  {
    hide CanaryShare, WantsAt, ScaleInForce;
    FullShares(replicas);
  }

  lemma {:induction false} WantedIsPlanned(ro: Rollout, replicas: int, n: int)
    requires ro.trafficRouting && HasReplicas(ro, replicas) && Wants(ro, replicas, n)
    ensures PlannedCanary(ro) == n
  {
    hide PlannedCanary, ScaleInForce, WantsAt;
    if ro.promoteFull || ro.currentPodHash == ro.stableHash || NoStepLeft(ro) {
      FinishedIsPlanned(ro, replicas, n);
    } else {
      var i, scale :| AtStep(ro, i) && ScaleInForce(ro.steps, i, scale) && WantsAt(ro, replicas, i, scale, n);
      StepIsPlanned(ro, replicas, i, scale, n);
    }
  }

  lemma {:induction false} PlannedWithTraffic(ro: Rollout, c: Snapshot, replicas: int, n: int)
    requires ro.trafficRouting && HasReplicas(ro, replicas) && Wants(ro, replicas, n)
    ensures PlannedCounts(ro, c.newRS, c.stableRS, c.otherRSs) == (n, replicas)
  {
    hide CanaryShare, CanaryReplicasOrWeight, Wants;
    WantedIsPlanned(ro, replicas, n);
  }

  // Two reconciles reach that: the stable set keeps all replicas throughout, and the canary has what is wanted.
  lemma {:induction false} TrafficRoutedInTwo(ro: Rollout, c: Snapshot, replicas: int, n: int)
    requires ro.trafficRouting && HasReplicas(ro, replicas) && Wants(ro, replicas, n)
    requires c.newRS.Some? && c.TwoSets()
    ensures var end := Reconciled(ro, Reconciled(ro, c).0).0;
            end.newRS.Some? && end.newRS.value.spec == n && end.stableRS.Some? && end.stableRS.value.spec == replicas
  {
    hide PlannedCounts, Wants, OldScaledDown;
    var c1 := Reconciled(ro, c).0;
    PlannedWithTraffic(ro, c, replicas, n);
    PlannedWithTraffic(ro, c1, replicas, n);
  }

  /******* Budgets *******/

  // Percentages of the surge are rounded up.
  lemma {:induction false} SurgeIsRoundedUp(ro: Rollout, replicas: int)
    requires HasReplicas(ro, replicas)
    ensures match ro.maxSurge
            case None => IsCeiling(MaxSurge(ro), 25 * replicas)
            case Some(Percent(p)) => IsCeiling(MaxSurge(ro), p * replicas)
            case Some(Whole(n)) => MaxSurge(ro) == n
  {
  }

  // u is what is configured for unavailable pods, with percentages rounded down.
  predicate AsksForUnavailable(ro: Rollout, replicas: int, u: int) {
    match ro.maxUnavailable
    case None => 100 * u <= 25 * replicas < 100 * (u + 1)
    case Some(Percent(p)) => 100 * u <= p * replicas < 100 * (u + 1)
    case Some(Whole(n)) => u == n
  }

  // Those of unavailable pods are rounded down, but not both budgets to zero; and no more than all pods may be
  // unavailable.
  lemma {:induction false} UnavailableIsRoundedDown(ro: Rollout, replicas: int, u: int)
    requires HasReplicas(ro, replicas) && AsksForUnavailable(ro, replicas, u)
    ensures MaxUnavailable(ro) ==
            if replicas == 0 then 0
            else if u == 0 && MaxSurge(ro) == 0 then Min(1, replicas)
            else Min(u, replicas)
  {
    hide Min;
    RoundingDown(if ro.maxUnavailable.Some? then ro.maxUnavailable.value else Percent(25), replicas, u);
  }

  lemma {:induction false} RoundingDown(v: IntOrPercent, replicas: int, u: int)
    requires match v case Percent(p) => 100 * u <= p * replicas < 100 * (u + 1) case Whole(n) => u == n
    ensures Resolve(v, replicas, false) == u
  {
  }
}
