// The canary replica planner of utils/replicaset/canary.go: from a rollout and its
// ReplicaSets to the sizes of the new and the stable set.
module CanaryPlanner {
  import opened Wrappers
  import opened ReplicaSets

  datatype IntOrPercent = Whole(n: int) | Percent(p: int)

  datatype SetCanaryScale = SetCanaryScale(
    weight: Option<int>,
    replicas: Option<int>,
    matchTrafficWeight: bool)

  // A pause step; without a duration it lasts until somebody resumes the rollout.
  datatype RolloutPause = RolloutPause(duration: Option<int>)

  datatype CanaryStep = CanaryStep(
    setWeight: Option<int>,
    pause: Option<RolloutPause>,
    setCanaryScale: Option<SetCanaryScale>,
    experiment: bool,
    analysis: bool)

  // The parts of the rollout's spec and status that decide the replica counts.
  datatype Rollout = Rollout(
    replicas: Option<int>,
    steps: seq<CanaryStep>,
    trafficRouting: bool,
    maxSurge: Option<IntOrPercent>,
    maxUnavailable: Option<IntOrPercent>,
    currentStepIndex: Option<int>,
    abort: bool,
    promoteFull: bool,
    currentPodHash: string,
    stableHash: string)

  const DEFAULT_REPLICAS := 1

  const DEFAULT_FENCEPOST := Percent(25)

  function ReplicasOrDefault(ro: Rollout): int {
    if ro.replicas.Some? then ro.replicas.value else DEFAULT_REPLICAS
  }

  /******* Rounding *******/

  // ceil(n / 100)
  function CeilPercent(n: int): int { (n + 99) / 100 }

  function CanaryShare(replicas: int, weight: int): int { CeilPercent(replicas * weight) }

  function StableShare(replicas: int, weight: int): int { CeilPercent(replicas * (100 - weight)) }

  predicate ExtraReplicaAdded(replicas: int, weight: int) { replicas * weight % 100 != 0 }

  // Rounding both shares up costs one pod exactly when the weight does not divide evenly.
  lemma {:induction false} SharesCoverReplicas(replicas: int, weight: int)
    ensures CanaryShare(replicas, weight) + StableShare(replicas, weight)
         == replicas + (if ExtraReplicaAdded(replicas, weight) then 1 else 0)
  {
    var whole, part := replicas * weight / 100, replicas * weight % 100;
    assert replicas * weight == 100 * whole + part;
    assert replicas * (100 - weight) == 100 * (replicas - whole) - part;
  }

  // Both sets keep at least one pod as long as the weight is neither 0 nor 100.
  lemma {:induction false} SharesStayPositive(replicas: int, weight: int)
    requires 0 <= replicas && 0 <= weight <= 100
    ensures CanaryShare(replicas, weight) >= 1 <==> replicas != 0 && weight != 0
    ensures StableShare(replicas, weight) >= 1 <==> replicas != 0 && weight != 100
    ensures 0 <= CanaryShare(replicas, weight) <= replicas
    ensures 0 <= StableShare(replicas, weight) <= replicas
  {
    ShareBounds(replicas, weight);
    ShareBounds(replicas, 100 - weight);
  }

  lemma {:induction false} ShareBounds(replicas: int, weight: int)
    requires 0 <= replicas && 0 <= weight <= 100
    ensures 0 <= CanaryShare(replicas, weight) <= replicas
    ensures 0 < replicas && 0 < weight ==> CanaryShare(replicas, weight) >= 1
    ensures weight == 0 || replicas == 0 ==> CanaryShare(replicas, weight) == 0
  {
    assert 0 <= replicas * weight <= replicas * 100;
    if 0 < replicas && 0 < weight {
      assert replicas * weight >= 1;
    }
  }

  /******* Surge and unavailability budgets *******/

  function Resolve(v: IntOrPercent, total: int, roundUp: bool): int {
    match v
    case Whole(n) => n
    case Percent(p) => if roundUp then CeilPercent(p * total) else p * total / 100
  }

  // resolveFenceposts: when both budgets round to zero, one pod may be unavailable.
  function ResolveFenceposts(ro: Rollout): (r: (int, int))
    ensures r.0 >= 0 && r.1 >= 0 ==> r.0 + r.1 >= 1
  {
    var surge := Resolve(if ro.maxSurge.Some? then ro.maxSurge.value else DEFAULT_FENCEPOST,
                         ReplicasOrDefault(ro), true);
    var unavailable := Resolve(if ro.maxUnavailable.Some? then ro.maxUnavailable.value else DEFAULT_FENCEPOST,
                               ReplicasOrDefault(ro), false);
    (surge, if surge == 0 && unavailable == 0 then 1 else unavailable)
  }

  function MaxSurge(ro: Rollout): int { ResolveFenceposts(ro).0 }

  function MaxUnavailable(ro: Rollout): int {
    if ReplicasOrDefault(ro) == 0 then 0 else Min(ResolveFenceposts(ro).1, ReplicasOrDefault(ro))
  }

  /******* Steps and weights *******/

  // GetCurrentCanaryStep: the index counts even when no step is left.
  function CurrentStepIndex(ro: Rollout): Option<int> {
    if ro.steps == [] then None
    else if ro.currentStepIndex.Some? then ro.currentStepIndex else Some(0)
  }

  function CurrentStep(ro: Rollout): Option<CanaryStep> {
    var index := CurrentStepIndex(ro);
    if index.None? || |ro.steps| <= index.value || index.value < 0 then None else Some(ro.steps[index.value])
  }

  // The last step before `end` with a weight decides; 0 when there is none.
  function LastWeight(steps: seq<CanaryStep>, end: nat): int
    requires end <= |steps|
  {
    if end == 0 then 0
    else if steps[end - 1].setWeight.Some? then steps[end - 1].setWeight.value
    else LastWeight(steps, end - 1)
  }

  function LastScale(steps: seq<CanaryStep>, end: nat): Option<SetCanaryScale>
    requires end <= |steps|
  {
    if end == 0 then None
    else if steps[end - 1].setCanaryScale.None? then LastScale(steps, end - 1)
    else if steps[end - 1].setCanaryScale.value.matchTrafficWeight then None
    else steps[end - 1].setCanaryScale
  }

  function CurrentSetWeight(ro: Rollout): int {
    if ro.abort then 0
    else if CurrentStep(ro).None? then 100
    else LastWeight(ro.steps, CurrentStepIndex(ro).value + 1)
  }

  function UsedCanaryScale(ro: Rollout): Option<SetCanaryScale> {
    if CurrentStep(ro).None? || !ro.trafficRouting then None
    else LastScale(ro.steps, CurrentStepIndex(ro).value + 1)
  }

  // GetCanaryReplicasOrWeight: a fixed canary size, or else a weight.
  function CanaryReplicasOrWeight(ro: Rollout): (Option<int>, int) {
    if ro.promoteFull || ro.currentPodHash == ro.stableHash then (None, 100)
    else
      var scale := UsedCanaryScale(ro);
      if scale.Some? && scale.value.replicas.Some? then (scale.value.replicas, 0)
      else if scale.Some? && scale.value.weight.Some? then (None, scale.value.weight.value)
      else (None, CurrentSetWeight(ro))
  }

  // GetCurrentSetWeight walks backwards from the current step.
  method GetCurrentSetWeight(ro: Rollout) returns (weight: int)
    ensures weight == CurrentSetWeight(ro)
  {
    if ro.abort { return 0; }
    if CurrentStep(ro).None? { return 100; }
    var i := CurrentStepIndex(ro).value;
    while i >= 0
      invariant -1 <= i < |ro.steps|
      invariant LastWeight(ro.steps, i + 1) == CurrentSetWeight(ro)
    {
      if ro.steps[i].setWeight.Some? { return ro.steps[i].setWeight.value; }
      i := i - 1;
    }
    return 0;
  }

  // UseSetCanaryScale walks backwards too, and stops at a step that asks to match the traffic.
  method UseSetCanaryScale(ro: Rollout) returns (scale: Option<SetCanaryScale>)
    ensures scale == UsedCanaryScale(ro)
  {
    if CurrentStep(ro).None? || !ro.trafficRouting { return None; }
    var i := CurrentStepIndex(ro).value;
    while i >= 0
      invariant -1 <= i < |ro.steps|
      invariant LastScale(ro.steps, i + 1) == UsedCanaryScale(ro)
    {
      if ro.steps[i].setCanaryScale.Some? {
        if ro.steps[i].setCanaryScale.value.matchTrafficWeight { return None; }
        return ro.steps[i].setCanaryScale;
      }
      i := i - 1;
    }
    return None;
  }

  // A weight in force is the weight of some step up to the current one, or one of the two defaults.
  lemma {:induction false} LastWeightIsFromAStep(steps: seq<CanaryStep>, end: nat)
    requires end <= |steps|
    ensures LastWeight(steps, end) != 0 ==>
      exists i :: 0 <= i < end && steps[i].setWeight == Some(LastWeight(steps, end))
                  && (forall j :: i < j < end ==> steps[j].setWeight.None?)
    ensures (forall i :: 0 <= i < end ==> steps[i].setWeight.None?) ==> LastWeight(steps, end) == 0
  {
    if end > 0 && steps[end - 1].setWeight.None? {
      LastWeightIsFromAStep(steps, end - 1);
    }
  }

  /******* Planning *******/

  predicate CheckStableRSExists(newRS: Option<ReplicaSet>, stableRS: Option<ReplicaSet>) {
    stableRS.Some? && (newRS.None? || newRS.value.name != stableRS.value.name)
  }

  // GetReplicasForScaleDown: the pods of a set that count towards the availability floor.
  function ReplicasForScaleDown(rs: Option<ReplicaSet>, ignoreAvailability: bool): int {
    if rs.None? then 0
    else if rs.value.spec < rs.value.available || ignoreAvailability then rs.value.spec
    else rs.value.available
  }

  // The sizes that the current step asks for, for the new and for the stable set.
  function DesiredReplicaCounts(ro: Rollout, newRS: Option<ReplicaSet>, stableRS: Option<ReplicaSet>): (int, int) {
    var (fixed, weight) := CanaryReplicasOrWeight(ro);
    var replicas := ReplicasOrDefault(ro);
    var (canary, stable) :=
      if !CheckStableRSExists(newRS, stableRS) then (replicas, 0)
      else if fixed.Some? then (fixed.value, replicas)
      else (CanaryShare(replicas, weight), StableShare(replicas, weight));
    (canary, if ro.trafficRouting then replicas else stable)
  }

  predicate AtDesiredReplicaCounts(ro: Rollout, newRS: Option<ReplicaSet>, stableRS: Option<ReplicaSet>,
                                   olderRSs: seq<ReplicaSet>)
  {
    var (canary, stable) := DesiredReplicaCounts(ro, newRS, stableRS);
    && newRS.Some? && newRS.value.spec == newRS.value.available == canary
    && stableRS.Some? && stableRS.value.spec == stableRS.value.available == stable
    && AvailableSum(olderRSs) == 0
  }

  // Everything the basic planner derives from the rollout: the rounded sizes that the weight asks
  // for, whether rounding both of them up costs a pod, and the two budgets.
  datatype Budget = Budget(replicas: int, canary: int, stable: int, extra: bool, surge: int, unavailable: int) {
    // The most pods that one decision may ask for.
    function Ceiling(): int { replicas + surge + (if extra then 1 else 0) }

    // The fewest available pods that a scale-down may leave.
    function Floor(): int { replicas - unavailable }
  }

  function BudgetOf(ro: Rollout, weight: int): Budget {
    var replicas := ReplicasOrDefault(ro);
    Budget(replicas, CanaryShare(replicas, weight), StableShare(replicas, weight),
           ExtraReplicaAdded(replicas, weight), MaxSurge(ro), MaxUnavailable(ro))
  }

  // The part of `want` that fits into `budget`.
  function Granted(want: int, budget: int): int { Max(0, Min(want, budget)) }

  // What one decision has to work with: the two sets' sizes and targets (a missing set is not
  // scaled), the pods that may still be added and the available pods that may be given up.
  datatype Room = Room(
    hasNew: bool, newSpec: int, newTarget: int,
    twoSets: bool, stableSpec: int, stableTarget: int,
    up: int, oldSpec: int, down: int)

  // What the planner decides, as four grants: grow the stable set, then the new one, out of what
  // is left below the ceiling; once no old pods remain, shrink the new set, then the stable one,
  // out of what is left above the floor.
  function Grants(r: Room): (int, int) {
    var growS := if r.twoSets then Granted(r.stableTarget - r.stableSpec, r.up) else 0;
    var growN := if r.hasNew then Granted(r.newTarget - r.newSpec, r.up - growS) else 0;
    var shrinkN := if r.oldSpec <= 0 && r.hasNew then Granted(r.newSpec - r.newTarget, r.down) else 0;
    var shrinkS := if r.oldSpec <= 0 && r.twoSets then Granted(r.stableSpec - r.stableTarget, r.down - shrinkN) else 0;
    ((if r.hasNew then r.newSpec else 0) + growN - shrinkN,
     (if r.twoSets then r.stableSpec else 0) + growS - shrinkS)
  }

  function RoomFor(b: Budget, newRS: Option<ReplicaSet>, stableRS: Option<ReplicaSet>,
                   oldRSs: seq<ReplicaSet>): Room
  {
    var twoSets := CheckStableRSExists(newRS, stableRS);
    var newTarget := if twoSets then b.canary else b.replicas;
    var stableTarget := if twoSets then b.stable else 0;
    var newSpec, stableSpec := SpecOf(newRS), SpecOf(stableRS);
    var increasing := newRS.None? || newTarget >= newSpec;
    Room(newRS.Some?, newSpec, newTarget, twoSets, stableSpec, stableTarget,
         b.Ceiling() - (newSpec + (if twoSets then stableSpec else 0) + SpecSum(oldRSs)),
         SpecSum(oldRSs),
         ReplicasForScaleDown(newRS, !increasing) + ReplicasForScaleDown(stableRS, increasing) - b.Floor())
  }

  function PlannedCounts(ro: Rollout, newRS: Option<ReplicaSet>, stableRS: Option<ReplicaSet>,
                         oldRSs: seq<ReplicaSet>): (int, int)
  {
    var (fixed, weight) := CanaryReplicasOrWeight(ro);
    var replicas := ReplicasOrDefault(ro);
    if fixed.Some? then (fixed.value, replicas)
    else if ro.trafficRouting then (CanaryShare(replicas, weight), replicas)
    else Grants(RoomFor(BudgetOf(ro, weight), newRS, stableRS, oldRSs))
  }

  // The branches of CalculateReplicaCountsForCanary once its budgets are known.
  method SpendBudgets(r: Room) returns (newCount: int, stableCount: int)
    ensures (newCount, stableCount) == Grants(r)
  {
    newCount := if r.hasNew then r.newSpec else 0;
    stableCount := if r.twoSets then r.stableSpec else 0;
    var scaleUp := r.up;
    if r.twoSets && r.stableSpec < r.stableTarget && scaleUp > 0 {
      if r.stableSpec + scaleUp < r.stableTarget {
        stableCount := r.stableSpec + scaleUp;
        scaleUp := 0;
      } else {
        stableCount := r.stableTarget;
        scaleUp := scaleUp - (r.stableTarget - r.stableSpec);
      }
    }
    if r.hasNew && r.newSpec < r.newTarget && scaleUp > 0 {
      if r.newSpec + scaleUp < r.newTarget {
        newCount := r.newSpec + scaleUp;
      } else {
        newCount := r.newTarget;
      }
    }
    if r.oldSpec > 0 || r.down <= 0 { return; }

    var scaleDown := r.down;
    if r.hasNew && r.newSpec > r.newTarget {
      if r.newSpec - scaleDown < r.newTarget {
        newCount := r.newTarget;
        scaleDown := scaleDown - (r.newSpec - r.newTarget);
      } else {
        newCount := r.newSpec - scaleDown;
        scaleDown := 0;
      }
    }
    if r.twoSets && r.stableSpec > r.stableTarget {
      if r.stableSpec - scaleDown < r.stableTarget {
        stableCount := r.stableTarget;
      } else {
        stableCount := r.stableSpec - scaleDown;
      }
    }
  }

  // CalculateReplicaCountsForCanary.
  method CalculateReplicaCountsForCanary(ro: Rollout, newRS: Option<ReplicaSet>, stableRS: Option<ReplicaSet>,
                                         oldRSs: seq<ReplicaSet>)
    returns (newCount: int, stableCount: int)
    ensures (newCount, stableCount) == PlannedCounts(ro, newRS, stableRS, oldRSs)
  {
    var (fixed, weight) := CanaryReplicasOrWeight(ro);
    if fixed.Some? { return fixed.value, ReplicasOrDefault(ro); }
    var budget := BudgetOf(ro, weight);
    if ro.trafficRouting { return budget.canary, budget.replicas; }
    newCount, stableCount := PlanWithinBudget(budget, newRS, stableRS, oldRSs);
  }

  method PlanWithinBudget(b: Budget, newRS: Option<ReplicaSet>, stableRS: Option<ReplicaSet>, oldRSs: seq<ReplicaSet>)
    returns (newCount: int, stableCount: int)
    ensures (newCount, stableCount) == Grants(RoomFor(b, newRS, stableRS, oldRSs))
  {
    hide Grants;
    var desiredNew, desiredStable := b.canary, b.stable;
    var scaleStable := CheckStableRSExists(newRS, stableRS);
    if !scaleStable { desiredNew, desiredStable := b.replicas, 0; }
    var maxSurge := b.surge;
    if b.extra { maxSurge := maxSurge + 1; }

    var allRSs := oldRSs;
    if newRS.Some? {
      SumsAppend(allRSs, [newRS.value]);
      allRSs := allRSs + [newRS.value];
    }
    if scaleStable {
      SumsAppend(allRSs, [stableRS.value]);
      allRSs := allRSs + [stableRS.value];
    }
    var total := GetReplicaCountForReplicaSets(allRSs);
    var oldTotal := GetReplicaCountForReplicaSets(oldRSs);
    var isIncreasing := newRS.None? || desiredNew >= newRS.value.spec;
    var toScaleDown := ReplicasForScaleDown(newRS, !isIncreasing) + ReplicasForScaleDown(stableRS, isIncreasing);
    var minAvailable := b.replicas - b.unavailable;

    newCount, stableCount := SpendBudgets(
      Room(newRS.Some?, SpecOf(newRS), desiredNew, scaleStable, SpecOf(stableRS), desiredStable,
           b.replicas + maxSurge - total, oldTotal, toScaleDown - minAvailable));
  }
}
