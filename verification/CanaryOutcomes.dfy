// What becomes of a canary that is reset, promoted, aborted or paused by an analysis, on its persisted status.
module CanaryOutcomes {
  import opened Wrappers
  import opened ReplicaSets
  import opened CanaryPlanner
  import opened Pause
  import opened CanaryStatus

  function HashOf(spec: Spec, env: Env): string { if env.newRS.Some? then env.newRS.value.hash else spec.templateHash }

  // Neither the template nor the steps have changed since the last reconcile.
  predicate Unchanged(spec: Spec, status: Status, env: Env) {
    status.stepHash == Some(spec.steps) && status.currentPodHash in {"", HashOf(spec, env)}
  }

  // A reconcile that only syncs replicas and the status; it heeds the analysis runs all the same.
  predicate OnlySyncs(spec: Spec, status: Status, env: Env) {
    HasReason(status.pause.conditions, InconclusiveAnalysis) || spec.paused || env.scaling
  }

  // The first index, or the one behind the last step; none without steps.
  function Restart(steps: seq<CanaryStep>, final: bool): Option<int> {
    if steps == [] then None else Some(if final then |steps| else 0)
  }

  // A new template or new steps start the rollout over, at the first step, or behind the last when the template is that
  // of
  // the stable set. Pauses, aborts and a requested full promotion are gone; only a sync of replicas lets an analysis of
  // the old version abort the new one.
  lemma {:induction false} ResetStartsOver(spec: Spec, status: Status, env: Env)
    requires !Unchanged(spec, status, env)
    ensures var s := Reconciled(spec, status, env);
            && s.stableHash == status.stableHash && s.currentPodHash == HashOf(spec, env) && s.stepHash == Some(spec.steps)
            && s.stepIndex == Restart(spec.steps, env.newRS.Some? && env.newRS.value.hash == status.stableHash)
            && !s.promoteFull && s.pause.conditions == [] && !s.pause.controllerPause
            && (s.pause.abort <==> OnlySyncs(spec, status, env) && env.analysis.addAbort)
  {
    hide HasReason, Kept, Added, StepCompleted, ShouldPromote;
    FoundIffPresent(status.pause.conditions, InconclusiveAnalysis);
  }

  // The rollout has nothing left to do: a full promotion is requested, or all steps are done and nothing aborts it.
  predicate Done(spec: Spec, status: Status, env: Env) {
    || status.promoteFull
    || (&& (spec.steps == [] || status.stepIndex == Some(|spec.steps|))
        && (env.analysis.removeAbort || !(status.pause.abort || env.analysis.addAbort)))
  }

  // The new set becomes the stable one exactly when there is no stable set yet, or when it has all replicas available
  // and
  // the rollout has nothing left to do. It then starts afresh behind the last step.
  lemma {:induction false} PromotesExactlyWhen(spec: Spec, status: Status, env: Env)
    requires Unchanged(spec, status, env)
    ensures var s, replicas := Reconciled(spec, status, env), if spec.replicas.Some? then spec.replicas.value else 1;
            if env.stableRS.None? || (env.newRS.Some? && env.newRS.value.available == replicas && Done(spec, status, env)) then
              && s.stableHash == s.currentPodHash == HashOf(spec, env) && s.stepIndex == Restart(spec.steps, true)
              && !s.promoteFull && s.pause.conditions == [] && !s.pause.controllerPause
            else s.stableHash == status.stableHash && s.currentPodHash == HashOf(spec, env)
  {
    hide HasReason, Kept, Added, StepCompleted, GetPauseCondition, AtDesiredReplicaCounts, RequestsAtSync;
    AnalysisIsHeeded(spec, status, env);
  }

  lemma {:induction false} AnalysisIsHeeded(spec: Spec, status: Status, env: Env)
    requires Unchanged(spec, status, env)
    ensures var req := RequestsAtSync(spec, status, env);
            req.clear == env.analysis.clear && req.addAbort == env.analysis.addAbort && req.removeAbort == env.analysis.removeAbort
  {
    hide GetPauseCondition, PauseRequests;
  }

  // An abort takes the rollout back to its first step, or behind the last when it is at the stable version; it keeps
  // the
  // time of the abort and drops all pauses.
  lemma {:induction false} AbortGoesBack(spec: Spec, status: Status, env: Env)
    requires Unchanged(spec, status, env) && env.stableRS.Some? && !status.promoteFull
    requires (status.pause.abort || env.analysis.addAbort) && !env.analysis.removeAbort
    ensures var s := Reconciled(spec, status, env);
            && s.stableHash == status.stableHash && s.currentPodHash == HashOf(spec, env)
            && s.stepIndex == Restart(spec.steps, status.stableHash == HashOf(spec, env))
            && s.pause == PauseStatus(true, if status.pause.abortedAt.Some? then status.pause.abortedAt else Some(env.now), false, [])
  {
    hide HasReason, Kept, Added, StepCompleted, GetPauseCondition, AtDesiredReplicaCounts;
  }

  // A rollout that its spec pauses stays at its step, unless that resets, promotes or aborts it.
  lemma {:induction false} PausedKeepsStep(spec: Spec, status: Status, env: Env)
    requires spec.paused && Unchanged(spec, status, env) && env.stableRS.Some? && !Done(spec, status, env)
    requires !status.pause.abort && !env.analysis.addAbort
    requires status.stepIndex.Some? && status.stepIndex.value <= |spec.steps|
    ensures Reconciled(spec, status, env).stepIndex == status.stepIndex
  {
    hide HasReason, Calculated, GetPauseCondition, AtDesiredReplicaCounts;
  }

  // An inconclusive analysis pauses the rollout in the same reconcile, unless that resets, promotes or aborts it.
  lemma {:induction false} InconclusivePauses(spec: Spec, status: Status, env: Env)
    requires Unchanged(spec, status, env) && env.stableRS.Some? && !status.promoteFull && !Done(spec, status, env)
    requires !status.pause.abort && Coherent(status.pause) && env.analysis == NO_REQUESTS.(add := [InconclusiveAnalysis])
    ensures var s := Reconciled(spec, status, env).pause; HasReason(s.conditions, InconclusiveAnalysis) && s.controllerPause
  {
    hide HasReason, Calculated, StepCompleted, AtDesiredReplicaCounts;
    var s, req, now := status.pause, RequestsAtSync(spec, status, env), env.now;
    ListedReasons(s, req, now, InconclusiveAnalysis);
    ListedReasons(s, req.(remove := req.remove + [CanaryPauseStep]), now, InconclusiveAnalysis);
    WrittenExactly(s, req, now);
    WrittenExactly(s, req.(remove := req.remove + [CanaryPauseStep]), now);
    NothingListed(InconclusiveAnalysis);
  }

  lemma {:induction false} NothingListed(r: Reason)
    ensures !HasReason([], r)
  {
  }
}
