// The replica planner and the status machine together: what a completed weight step means for the cluster, and that
// the controller takes such a step once the planner's rounds have converged.
module CanaryProgress {
  import opened Wrappers
  import opened ReplicaSets
  import opened CanaryPlanner
  import opened CanaryReconcile
  import opened CanaryRuns
  import opened CanaryConvergence
  import opened CanaryTargets
  import opened Pause
  import opened CanaryStatus

  // A basic canary in the middle of an update, at a step that sets the weight w and nothing else.
  predicate AtWeightStep(spec: Spec, status: Status, w: int) {
    var step := CurrentStep(RolloutOf(spec, status));
    && step == Some(CanaryStep(Some(w), None, None, false, false))
    && !spec.trafficRouting && !status.pause.abort && !status.promoteFull && status.currentPodHash != status.stableHash
  }

  lemma {:induction false} WeightOfStep(spec: Spec, status: Status, w: int)
    requires AtWeightStep(spec, status, w)
    ensures CanaryReplicasOrWeight(RolloutOf(spec, status)) == (None, w)
  {
  }

  // When a weight step counts as completed, the two sets have exactly the available pods that the weight asks for, no
  // old pod is left, and together they are all replicas, plus the pod that rounding both up may cost.
  lemma {:induction false} CompletedWeightStepIsReached(spec: Spec, status: Status, env: Env, w: int)
    requires AtWeightStep(spec, status, w) && StepCompleted(spec, status, env)
    requires CheckStableRSExists(env.newRS, env.stableRS)
    ensures var n := ReplicasOrDefault(RolloutOf(spec, status));
            && env.newRS.Some? && env.newRS.value.available == CanaryShare(n, w)
            && env.stableRS.value.available == StableShare(n, w)
            && AvailableSum(env.otherRSs) == 0
            && env.newRS.value.available + env.stableRS.value.available == n + (if ExtraReplicaAdded(n, w) then 1 else 0)
  {
    hide CanaryShare, StableShare, CanaryReplicasOrWeight, ExtraReplicaAdded;
    WeightOfStep(spec, status, w);
    SharesCoverReplicas(ReplicasOrDefault(RolloutOf(spec, status)), w);
  }

  // With traffic routing a completed step with an explicit scale has exactly the canary pods that are wanted, next to a
  // stable set of all replicas and no old pods.
  lemma {:induction false} CompletedScaleStepIsReached(spec: Spec, status: Status, env: Env, replicas: int, n: int)
    requires var step := CurrentStep(RolloutOf(spec, status));
             step.Some? && step.value.pause.None? && (step.value.setCanaryScale.Some? || step.value.setWeight.Some?)
    requires StepCompleted(spec, status, env) && spec.trafficRouting && CheckStableRSExists(env.newRS, env.stableRS)
    requires HasReplicas(RolloutOf(spec, status), replicas) && Wants(RolloutOf(spec, status), replicas, n)
    ensures env.newRS.Some? && env.newRS.value.spec == env.newRS.value.available == n
    ensures env.stableRS.value.spec == env.stableRS.value.available == replicas && AvailableSum(env.otherRSs) == 0
  {
    hide CanaryShare, CanaryReplicasOrWeight, Wants, StableShare;
    WantedIsPlanned(RolloutOf(spec, status), replicas, n);
  }

  // The rollout is in the middle of an update that nothing stops, resets or promotes.
  predicate Proceeding(spec: Spec, status: Status, env: Env) {
    && !spec.paused && !status.promoteFull && !status.pause.abort && !env.analysis.addAbort && !env.analysis.removeAbort
    && status.stepHash == Some(spec.steps) && env.stableRS.Some?
    && status.currentPodHash in {"", if env.newRS.Some? then env.newRS.value.hash else spec.templateHash}
    && status.stepIndex.Some? && 0 <= status.stepIndex.value < |spec.steps|
  }

  // A step with an experiment is taken exactly when the experiment has succeeded, one with an analysis exactly when the
  // analysis has, and one with a weight exactly when the counts are reached and the weight is not found to be wrong.
  lemma {:induction false} StepIsTakenExactlyWhen(spec: Spec, status: Status, env: Env)
    requires Proceeding(spec, status, env) && spec.steps[status.stepIndex.value].pause.None?
    ensures var step, reached := spec.steps[status.stepIndex.value],
                                 AtDesiredReplicaCounts(RolloutOf(spec, status), env.newRS, env.stableRS, env.otherRSs);
            var taken := if step.setCanaryScale.Some? then reached
                         else if step.setWeight.Some? then reached && env.weightVerified != Some(false)
                         else if step.experiment then env.experimentSuccessful
                         else step.analysis && env.analysisSuccessful;
            CanaryStatus.Reconciled(spec, status, env).stepIndex == Some(status.stepIndex.value + if taken then 1 else 0)
  {
    hide Calculated, AtDesiredReplicaCounts;
  }

  // The reconcile of the status that finds the cluster as the planner has left it after k rounds.
  function EnvAfter(spec: Spec, status: Status, c: Snapshot, k: nat, env: Env): Env {
    var end := Rounds(RolloutOf(spec, status), c, k);
    env.(newRS := end.newRS, stableRS := end.stableRS, otherRSs := end.otherRSs)
  }

  lemma {:induction false} RoundsKeepNewSet(ro: Rollout, c: Snapshot, k: nat)
    requires c.newRS.Some?
    ensures Rounds(ro, c, k).newRS.Some? && Rounds(ro, c, k).newRS.value.hash == c.newRS.value.hash
  {
    hide PlannedCounts, OldScaledDown, SpecSum, CaughtUpSets;
    if k > 0 {
      RoundsKeepNewSet(ro, c, k - 1);
    }
  }

  // The controller has noticed the template of the snapshot's new set, and the steps.
  predicate Noticed(spec: Spec, status: Status, c: Snapshot) {
    && status.stepHash == Some(spec.steps)
    && c.newRS.Some? && status.currentPodHash in {"", c.newRS.value.hash}
  }

  // A basic canary at a weight step, in the middle of an update, takes the step at the latest in the reconcile after as
  // many rounds as the planner is away from the step's target, unless traffic weights are found to be wrong.
  lemma {:induction false} WeightStepIsTaken(spec: Spec, status: Status, c: Snapshot, k: nat, env: Env, w: int)
    requires BasicCanary(RolloutOf(spec, status)) && MidUpdate(ReferencesOf(RolloutOf(spec, status)), c)
    requires AtWeightStep(spec, status, w) && !spec.paused && status.pause == NEVER_PAUSED && Noticed(spec, status, c)
    requires env.analysis == NO_REQUESTS && env.weightVerified != Some(false)
    ensures k >= Distance(CurrentBudget(RolloutOf(spec, status)), c) ==>
              CanaryStatus.Reconciled(spec, status, EnvAfter(spec, status, c, k, env)).stepIndex ==
              Some(CurrentStepIndex(RolloutOf(spec, status)).value + 1)
  {
    hide Calculated, Rounds, AtDesiredReplicaCounts, BasicCanary, CurrentBudget;
    CanaryConverges(RolloutOf(spec, status), c, k);
    RoundsKeepNewSet(RolloutOf(spec, status), c, k);
  }
}
