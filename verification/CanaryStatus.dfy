// The status machine of a canary rollout (rollout/canary.go, rollout/sync.go): resets, promotion, aborts
// and the completion of steps.
module CanaryStatus {
  import opened Wrappers
  import opened ReplicaSets
  import opened CanaryPlanner
  import opened Pause

  // What the user asks for. `templateHash` is the hash of the pod template; the hash of the steps is
  // identified with the steps.
  datatype Spec = Spec(replicas: Option<int>, steps: seq<CanaryStep>, paused: bool, templateHash: string,
                       trafficRouting: bool, maxSurge: Option<IntOrPercent>, maxUnavailable: Option<IntOrPercent>)

  datatype Status = Status(stableHash: string, currentPodHash: string, stepHash: Option<seq<CanaryStep>>,
                           stepIndex: Option<int>, promoteFull: bool, pause: PauseStatus)

  // What one reconcile finds: the sets, the outcome of weight verification, the step's experiment and analysis,
  // what the analysis runs asked for, and which of its stages did something.
  datatype Env = Env(newRS: Option<ReplicaSet>, stableRS: Option<ReplicaSet>, otherRSs: seq<ReplicaSet>,
                     weightVerified: Option<bool>, experimentSuccessful: bool, analysisSuccessful: bool,
                     analysis: Requests, scaling: bool, scaled: bool, now: int)

  function RolloutOf(spec: Spec, status: Status): Rollout {
    Rollout(spec.replicas, spec.steps, spec.trafficRouting, spec.maxSurge, spec.maxUnavailable,
            status.stepIndex, status.pause.abort, status.promoteFull, status.currentPodHash, status.stableHash)
  }

  function NewHash(spec: Spec, env: Env): string { if env.newRS.Some? then env.newRS.value.hash else spec.templateHash }

  // PodTemplateOrStepsChanged
  predicate Changed(spec: Spec, status: Status, env: Env) {
    || status.stepHash != Some(spec.steps)
    || (status.currentPodHash != "" && status.currentPodHash != NewHash(spec, env))
  }

  // The index when the steps start over.
  function ResetIndex(steps: seq<CanaryStep>): Option<int> { if steps == [] then None else Some(0) }

  // The index behind the last step.
  function FinalIndex(steps: seq<CanaryStep>): Option<int> { if steps == [] then None else Some(|steps|) }

  // completedCurrentCanaryStep
  predicate StepCompleted(spec: Spec, status: Status, env: Env) {
    var step := CurrentStep(RolloutOf(spec, status));
    !spec.paused && step.Some? &&
    if step.value.pause.Some? then CompletedCanaryPauseStep(status.pause, step.value.pause.value.duration, env.now)
    else if step.value.setCanaryScale.Some? then AtDesiredReplicaCounts(RolloutOf(spec, status), env.newRS, env.stableRS, env.otherRSs)
    else if step.value.setWeight.Some? then
      AtDesiredReplicaCounts(RolloutOf(spec, status), env.newRS, env.stableRS, env.otherRSs) && env.weightVerified != Some(false)
    else if step.value.experiment then env.experimentSuccessful
    else step.value.analysis && env.analysisSuccessful
  }

  // shouldFullPromote
  predicate ShouldPromote(spec: Spec, status: Status, env: Env, req: Requests) {
    || env.stableRS.None?
    || (&& !IsAborted(status.pause, req)
        && env.newRS.Some? && env.newRS.value.available == ReplicasOrDefault(RolloutOf(spec, status))
        && (|| status.promoteFull
            || spec.steps == []
            || CurrentStepIndex(RolloutOf(spec, status)) == Some(|spec.steps|)))
  }

  // reconcileCanaryPause: what it asks of the pause context.
  function PauseRequests(spec: Spec, status: Status): Requests {
    var step := CurrentStep(RolloutOf(spec, status));
    if !spec.paused && !status.promoteFull && step.Some? && step.value.pause.Some?
       && GetPauseCondition(status.pause.conditions, CanaryPauseStep).None? && !status.pause.controllerPause
    then NO_REQUESTS.(add := [CanaryPauseStep])
    else NO_REQUESTS
  }

  function WithPause(req: Requests, spec: Spec, status: Status): Requests {
    req.(add := req.add + PauseRequests(spec, status).add)
  }

  // The way a reconcile ends.
  datatype Outcome = Reset | Promoted | Aborted | StepDone | Unchanged

  function OutcomeOf(spec: Spec, status: Status, env: Env, req: Requests): Outcome {
    var req' := if status.promoteFull then req.(clear := true, removeAbort := true) else req;
    if Changed(spec, status, env) then Reset
    else if ShouldPromote(spec, status, env, req') then Promoted
    else if IsAborted(status.pause, req') then Aborted
    else if StepCompleted(spec, status, env) then StepDone
    else Unchanged
  }

  // The index that GetCurrentCanaryStep returns, or the last one under a requested full promotion.
  function IndexBefore(spec: Spec, status: Status): Option<int> {
    if status.promoteFull && spec.steps != [] then Some(|spec.steps|) else CurrentStepIndex(RolloutOf(spec, status))
  }

  // syncRolloutStatusCanary as a function: the status that is persisted.
  function Synced(spec: Spec, status: Status, env: Env, req0: Requests): Status {
    var current := NewHash(spec, env);
    var base := Status(status.stableHash, current, Some(spec.steps), None, current != "" && status.promoteFull, NEVER_PAUSED);
    var req := if status.promoteFull then req0.(clear := true, removeAbort := true) else req0;
    match OutcomeOf(spec, status, env, req0)
    case Reset =>
      base.(promoteFull := false,
            stepIndex := if env.newRS.Some? && status.stableHash == env.newRS.value.hash then FinalIndex(spec.steps) else ResetIndex(spec.steps),
            pause := Calculated(status.pause, req0.(clear := true, removeAbort := true), env.now))
    case Promoted =>
      base.(promoteFull := false, stableHash := current, stepIndex := FinalIndex(spec.steps),
            pause := Calculated(status.pause, req.(clear := true, removeAbort := true), env.now))
    case Aborted =>
      base.(stepIndex := if status.stableHash == current then FinalIndex(spec.steps) else ResetIndex(spec.steps),
            pause := Calculated(status.pause, req, env.now))
    case StepDone =>
      base.(stepIndex := Some(IndexBefore(spec, status).value + 1),
            pause := Calculated(status.pause, req.(remove := req.remove + [CanaryPauseStep]), env.now))
    case Unchanged =>
      base.(stepIndex := IndexBefore(spec, status), pause := Calculated(status.pause, req, env.now))
  }

  // What a reconcile has asked of the pause context by the time it persists the status: with a paused rollout or
  // a scaling event only replicas and status are synced; otherwise it stops at the first stage that did something.
  function RequestsAtSync(spec: Spec, status: Status, env: Env): Requests {
    if GetPauseCondition(status.pause.conditions, InconclusiveAnalysis).Some? || spec.paused || env.scaling then
      WithPause(env.analysis, spec, status)
    else if Changed(spec, status, env) then NO_REQUESTS
    else if env.analysis.add != [] || env.scaled then env.analysis
    else WithPause(env.analysis, spec, status)
  }

  function Reconciled(spec: Spec, status: Status, env: Env): Status {
    Synced(spec, status, env, RequestsAtSync(spec, status, env))
  }

  /******* The controller's context *******/

  class RolloutContext {
    const spec: Spec
    const status: Status
    const env: Env
    const pauseContext: PauseContext
    var newStatus: Status

    constructor (spec: Spec, status: Status, env: Env)
      ensures this.spec == spec && this.status == status && this.env == env
      ensures fresh(pauseContext) && pauseContext.Value() == NO_REQUESTS && pauseContext.status == status.pause
    {
      this.spec, this.status, this.env := spec, status, env;
      pauseContext := new PauseContext(status.pause);
      newStatus := Status("", "", None, None, false, NEVER_PAUSED);
    }

    method CompletedCurrentCanaryStep() returns (completed: bool)
      ensures completed == StepCompleted(spec, status, env)
    {
      hide AtDesiredReplicaCounts;
      if spec.paused { return false; }
      var step := CurrentStep(RolloutOf(spec, status));
      if step.None? { return false; }
      if step.value.pause.Some? { return CompletedCanaryPauseStep(status.pause, step.value.pause.value.duration, env.now); }
      if step.value.setCanaryScale.Some? { return AtDesiredReplicaCounts(RolloutOf(spec, status), env.newRS, env.stableRS, env.otherRSs); }
      if step.value.setWeight.Some? {
        if !AtDesiredReplicaCounts(RolloutOf(spec, status), env.newRS, env.stableRS, env.otherRSs) { return false; }
        return !(env.weightVerified.Some? && !env.weightVerified.value);
      }
      if step.value.experiment { return env.experimentSuccessful; }
      if step.value.analysis { return env.analysisSuccessful; }
      return false;
    }

    method ReconcileCanaryPause() returns (stillReconciling: bool)
      requires pauseContext.status == status.pause
      modifies pauseContext
      ensures pauseContext.Value() ==
              old(pauseContext.Value()).(add := old(pauseContext.addPauseReasons) + PauseRequests(spec, status).add)
    {
      if spec.paused || status.promoteFull { return false; }
      if |spec.steps| == 0 { return false; }
      var step, index := CurrentStep(RolloutOf(spec, status)), CurrentStepIndex(RolloutOf(spec, status));
      if |spec.steps| <= index.value { return false; }
      if step.None? || step.value.pause.None? { return false; }
      var cond := GetPauseCondition(status.pause.conditions, CanaryPauseStep);
      if cond.None? {
        if !status.pause.controllerPause { pauseContext.AddPauseCondition(CanaryPauseStep); }
        return true;
      }
      return true;
    }

    method ResetRolloutStatus()
      modifies this`newStatus, pauseContext
      ensures pauseContext.Value() == old(pauseContext.Value()).(clear := true, removeAbort := true)
      ensures newStatus == old(newStatus).(promoteFull := false, stepIndex := ResetIndex(spec.steps))
    {
      pauseContext.ClearPauseConditions();
      pauseContext.RemoveAbort();
      newStatus := newStatus.(promoteFull := false, stepIndex := ResetIndex(spec.steps));
    }

    method PromoteStable()
      modifies this`newStatus, pauseContext
      ensures pauseContext.Value() == old(pauseContext.Value()).(clear := true, removeAbort := true)
      ensures newStatus ==
              old(newStatus).(promoteFull := false, stepIndex := FinalIndex(spec.steps), stableHash := old(newStatus.currentPodHash))
    {
      pauseContext.ClearPauseConditions();
      pauseContext.RemoveAbort();
      newStatus := newStatus.(promoteFull := false);
      if |spec.steps| > 0 {
        newStatus := newStatus.(stepIndex := Some(|spec.steps|));
      } else {
        newStatus := newStatus.(stepIndex := None);
      }
      if newStatus.stableHash != newStatus.currentPodHash {
        newStatus := newStatus.(stableHash := newStatus.currentPodHash);
      }
    }

    method PersistRolloutStatus()
      requires pauseContext.status == status.pause
      modifies this`newStatus
      ensures newStatus == old(newStatus).(pause := Calculated(status.pause, pauseContext.Value(), env.now))
    {
      var pause := pauseContext.CalculatePauseStatus(env.now);
      newStatus := newStatus.(pause := pause);
    }

    method SyncRolloutStatusCanary()
      requires pauseContext.status == status.pause
      modifies this`newStatus, pauseContext
      ensures newStatus == Synced(spec, status, env, old(pauseContext.Value()))
    {
      hide StepCompleted, Calculated, NewHash, Changed, ShouldPromote, CurrentStepIndex, RolloutOf, CurrentStep,
           IsAborted;
      var current := NewHash(spec, env);
      newStatus := Status(status.stableHash, current, Some(spec.steps), None, current != "" && status.promoteFull, NEVER_PAUSED);
      var currentStepIndex := CurrentStepIndex(RolloutOf(spec, status));
      var stepCount := |spec.steps|;

      if Changed(spec, status, env) {
        StartOver();
        return;
      }
      if status.promoteFull {
        pauseContext.ClearPauseConditions();
        pauseContext.RemoveAbort();
        if stepCount > 0 { currentStepIndex := Some(stepCount); }
      }
      if StepCompleted(spec, status, env) { StepHasIndex(spec, status, env); }
      if ShouldPromote(spec, status, env, pauseContext.Value()) {
        PromoteStable();
        PersistRolloutStatus();
        return;
      }
      StayAbortedOrAdvance(currentStepIndex);
    }

    // syncRolloutStatusCanary when the pod template or the steps have changed.
    method StartOver()
      requires pauseContext.status == status.pause
      modifies this`newStatus, pauseContext
      ensures newStatus == old(newStatus).(
        promoteFull := false,
        stepIndex := if env.newRS.Some? && status.stableHash == env.newRS.value.hash then FinalIndex(spec.steps) else ResetIndex(spec.steps),
        pause := Calculated(status.pause, old(pauseContext.Value()).(clear := true, removeAbort := true), env.now))
    {
      hide Calculated;
      ResetRolloutStatus();
      if env.newRS.Some? && status.stableHash == env.newRS.value.hash {
        if |spec.steps| > 0 { newStatus := newStatus.(stepIndex := Some(|spec.steps|)); }
      }
      PersistRolloutStatus();
    }

    // The end of syncRolloutStatusCanary for a rollout in the middle of an update.
    method StayAbortedOrAdvance(index: Option<int>)
      requires pauseContext.status == status.pause && newStatus.stepIndex.None?
      requires StepCompleted(spec, status, env) ==> index.Some?
      modifies this`newStatus, pauseContext
      ensures var req := old(pauseContext.Value());
              newStatus == if IsAborted(status.pause, req) then
                  old(newStatus).(stepIndex := if old(newStatus.stableHash == newStatus.currentPodHash) then FinalIndex(spec.steps) else ResetIndex(spec.steps),
                                  pause := Calculated(status.pause, req, env.now))
                else if StepCompleted(spec, status, env) then
                  old(newStatus).(stepIndex := Some(index.value + 1),
                                  pause := Calculated(status.pause, req.(remove := req.remove + [CanaryPauseStep]), env.now))
                else old(newStatus).(stepIndex := index, pause := Calculated(status.pause, req, env.now))
    {
      hide StepCompleted, Calculated;
      if IsAborted(status.pause, pauseContext.Value()) {
        if |spec.steps| > 0 {
          if newStatus.stableHash == newStatus.currentPodHash {
            newStatus := newStatus.(stepIndex := Some(|spec.steps|));
          } else {
            newStatus := newStatus.(stepIndex := Some(0));
          }
        }
        PersistRolloutStatus();
        return;
      }
      var currentStepIndex := index;
      var completed := CompletedCurrentCanaryStep();
      if completed {
        currentStepIndex := Some(currentStepIndex.value + 1);
        pauseContext.RemovePauseCondition(CanaryPauseStep);
      }
      newStatus := newStatus.(stepIndex := currentStepIndex);
      PersistRolloutStatus();
    }

    method Reconcile()
      requires pauseContext.status == status.pause && pauseContext.Value() == NO_REQUESTS
      modifies this`newStatus, pauseContext
      ensures newStatus == Reconciled(spec, status, env)
    {
      hide Synced, Changed;
      if GetPauseCondition(status.pause.conditions, InconclusiveAnalysis).Some? || spec.paused || env.scaling {
        ReconcileAnalysisRuns();
        var _ := ReconcileCanaryPause();
        SyncRolloutStatusCanary();
        return;
      }
      if Changed(spec, status, env) {
        SyncRolloutStatusCanary();
        return;
      }
      ReconcileAnalysisRuns();
      if |pauseContext.addPauseReasons| > 0 {
        SyncRolloutStatusCanary();
        return;
      }
      if env.scaled {
        SyncRolloutStatusCanary();
        return;
      }
      var _ := ReconcileCanaryPause();
      SyncRolloutStatusCanary();
    }

    // The analysis runs' requests are an input.
    method ReconcileAnalysisRuns()
      modifies pauseContext
      ensures pauseContext.Value() == env.analysis
    {
      pauseContext.addPauseReasons := env.analysis.add;
      pauseContext.removePauseReasons := env.analysis.remove;
      pauseContext.clearPauseConditions := env.analysis.clear;
      pauseContext.addAbort := env.analysis.addAbort;
      pauseContext.removeAbort := env.analysis.removeAbort;
    }
  }

  lemma {:induction false} StepHasIndex(spec: Spec, status: Status, env: Env)
    requires StepCompleted(spec, status, env)
    ensures CurrentStepIndex(RolloutOf(spec, status)).Some? && IndexBefore(spec, status).Some?
  {
    hide AtDesiredReplicaCounts;
  }
}
