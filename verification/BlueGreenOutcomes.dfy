// What a blue-green reconcile makes of a new template, of a promotion and of its analysis runs, on the persisted
// status.
module BlueGreenOutcomes {
  import opened Wrappers
  import opened ReplicaSets
  import opened Pause
  import opened BlueGreen
  import G = BlueGreenGate
  import A = BlueGreenAbort

  // The reconcile that notices a new template drops pauses, aborts and a requested full promotion of the old version,
  // and
  // leaves the active service alone.
  lemma {:induction false} ChangeStartsOver(t: G.Traced, env: Env)
    requires G.Persists(env) && t.k.status.currentPodHash !in {"", t.spec.templateHash}
    ensures var after := G.Next(t, G.Reconcile(env)).k;
            && after.status.currentPodHash == t.spec.templateHash && after.active == t.k.active
            && after.status.pause == NEVER_PAUSED && !after.status.promoteFull
  {
    hide ReplicaSetsAfter, DelayedAfterSync, Find, NewCount, MaxRevision, SyncReplicasOnly, PauseRequests,
         ActiveAfter, ShouldPromote,
         CheckpointAfter, Kept, Added;
  }

  // The rollout is promoted: its new set serves, and a full promotion is requested, or it is not aborted and its
  // post-promotion analysis, if there is one, has succeeded or is skipped.
  predicate Promoted(t: G.Traced, env: Env) {
    && G.Next(t, G.Reconcile(env)).k.active == Some(t.spec.templateHash)
    && (|| t.k.status.promoteFull
        || (!A.StillAborted(t, env) && (t.spec.postPromotionAnalysis ==> env.postAfter || HasDeadline(G.NewRSOf(t)))))
  }

  lemma {:induction false} ClearingLeavesNothing(s: PauseStatus, now: int)
    ensures forall req: Requests :: req.clear ==> Calculated(s, req, now).conditions == [] && !Calculated(s, req, now).controllerPause
  {
    hide Kept, Added;
  }

  // Then the new set is the stable one, and no pause, checkpoint or request of this rollout is left for the next one.
  lemma {:induction false} PromotionStartsOver(t: G.Traced, env: Env)
    requires G.Persists(env) && G.AnalysisRequests(env.analysis) && t.spec.templateHash != "" && Promoted(t, env)
    ensures var s := G.Next(t, G.Reconcile(env)).k.status;
            && s.stableHash == s.currentPodHash == s.activeSelector == t.spec.templateHash && !s.checkpoint && !s.promoteFull
            && s.pause.conditions == [] && !s.pause.controllerPause
  {
    hide ReplicaSetsAfter, DelayedAfterSync, Find, NewCount, MaxRevision, ScalingEvent, PauseRequests, FastTracked,
         PauseCompleted,
         ReadyForPause, IsSaturated, CheckpointAfter, Calculated, ActiveAfter;
    ClearingLeavesNothing(t.k.status.pause, env.now);
    G.PersistedNamesTemplate(t, env);
    A.PauseAsksForConditions(ContextOf(t.spec, t.k, Some(G.NewSet(t)), env));
  }

  // Without a stable set, or with a service that selects nothing, the version at hand becomes the stable one.
  lemma {:induction false} FirstVersionIsStable(t: G.Traced, env: Env)
    requires G.Persists(env) && t.spec.templateHash != ""
    requires var active := G.Next(t, G.Reconcile(env)).k.active;
             || t.k.status.stableHash == "" || active in {None, Some("")}
             || (Find(t.k.sets, t.k.status.stableHash).None? && t.spec.templateHash != t.k.status.stableHash)
    ensures G.Next(t, G.Reconcile(env)).k.status.stableHash == t.spec.templateHash
  {
    hide ReplicaSetsAfter, DelayedAfterSync, Find, NewCount, MaxRevision, SyncReplicasOnly, PauseRequests,
         ActiveAfter, CheckpointAfter,
         Calculated;
    G.PersistedNamesTemplate(t, env);
  }

  // While another set serves, a requested full promotion stays requested, and takes the place of pauses and aborts;
  // without one, an analysis that fails aborts the rollout, one that is inconclusive pauses it, and what was there
  // stays.
  lemma {:induction false} AnalysisDecides(t: G.Traced, env: Env)
    requires G.Persists(env) && G.AnalysisRequests(env.analysis) && t.spec.templateHash != ""
    requires t.k.status.currentPodHash in {"", t.spec.templateHash}
    requires t.k.status.stableHash != "" && Find(t.k.sets, t.k.status.stableHash).Some?
    requires var active := G.Next(t, G.Reconcile(env)).k.active; active.Some? && active.value !in {"", t.spec.templateHash}
    ensures var s, before := G.Next(t, G.Reconcile(env)).k.status, t.k.status;
            && s.promoteFull == before.promoteFull && s.stableHash == before.stableHash
            && (s.pause.abort <==> if before.promoteFull then !SyncReplicasOnly(t.spec, t.k) && env.analysis.addAbort else A.StillAborted(t, env))
            && (HasReason(s.pause.conditions, InconclusiveAnalysis) <==>
                  && !before.promoteFull && !A.StillAborted(t, env)
                  && (if SyncReplicasOnly(t.spec, t.k) then HasReason(before.pause.conditions, InconclusiveAnalysis)
                      else InconclusiveAnalysis in env.analysis.add))
  {
    hide ReplicaSetsAfter, DelayedAfterSync, Find, NewCount, MaxRevision, ScalingEvent, FastTracked, PauseCompleted,
         ReadyForPause,
         IsSaturated, CheckpointAfter, HasReason, Kept, Added;
    G.PersistedNamesTemplate(t, env);
    var c, s := ContextOf(t.spec, t.k, Some(G.NewSet(t)), env), t.k.status.pause;
    FoundIffPresent(s.conditions, InconclusiveAnalysis);
    var req := Combined(PauseRequests(c), env.analysis);
    ListedReasons(s, NO_REQUESTS, env.now, InconclusiveAnalysis);
    ListedReasons(s, NO_REQUESTS.(clear := true, removeAbort := true), env.now, InconclusiveAnalysis);
    ListedReasons(s, req, env.now, InconclusiveAnalysis);
    ListedReasons(s, req.(clear := true, removeAbort := true), env.now, InconclusiveAnalysis);
  }
}
