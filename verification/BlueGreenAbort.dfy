// Aborts and promotions of a blue-green rollout: when the active service returns to the stable set, and when the new
// set becomes the stable one.
module BlueGreenAbort {
  import opened Wrappers
  import opened ReplicaSets
  import opened Pause
  import opened BlueGreen
  import G = BlueGreenGate

  // The reconcile gets as far as the active service.
  predicate ReachesService(env: Env) { env.failure.Nowhere? || env.failure.AfterSwitch? }

  // The new set has all the pods that the rollout asks for, all available and annotated so.
  predicate IsFull(rs: ReplicaSet, spec: Spec) {
    var replicas := if spec.replicas.Some? then spec.replicas.value else 1;
    rs.spec == rs.available == replicas && rs.desired == Some(replicas)
  }

  // The reconcile is a full one, for the template that the controller has seen last.
  predicate GoesOn(t: G.Traced) {
    !SyncReplicasOnly(t.spec, t.k) && t.k.status.currentPodHash in {"", t.spec.templateHash}
  }

  // Reconciling the pause asks for conditions only.
  lemma {:induction false} PauseAsksForConditions(c: Context)
    requires c.newRS.Some?
    ensures !PauseRequests(c).clear && !PauseRequests(c).addAbort && !PauseRequests(c).removeAbort
  {
    hide ReadyForPause, FastTracked, PauseCompleted;
  }

  // A reconcile of an aborted rollout moves the selector exactly when it reaches the service, the new set is full, and
  // the selector is not on the stable set; and it moves it to the stable set.
  lemma {:induction false} AbortedMovesExactlyWhen(t: G.Traced, env: Env)
    requires t.k.status.pause.abort && t.spec.templateHash != ""
    ensures var newRS := G.NewSet(t);
            var after := G.Next(t, G.Reconcile(env)).k.active;
            if ReachesService(env) && GoesOn(t) && IsFull(newRS, t.spec)
               && newRS.available == NewCount(t.spec, t.k.status, t.k.sets, newRS.hash)
            then after == Some(t.k.status.stableHash) else after == t.k.active
  {
    hide ReplicaSetsAfter, Synced, DelayedAfterSync, MaxRevision, Find, NewCount, ScalingEvent, PauseRequests,
         FastTracked, PauseCompleted;
  }

  /******* Until the abort is taken back *******/

  // What leaves an abort in force: no retry, no full promotion, no new template; and the reconcile finds the stable set
  // and the active service.
  predicate LeavesAborted(t: G.Traced, e: G.Event) {
    && !e.UserRetries? && !e.UserPromotesFull?
    && (e.Reconcile? ==>
          && t.k.status.currentPodHash in {"", t.spec.templateHash}
          && t.k.status.stableHash != "" && Find(t.k.sets, t.k.status.stableHash).Some?
          && t.k.active.Some? && t.k.active.value != "")
  }

  predicate Aborted(t: G.Traced) { t.k.status.pause.abort && !t.k.status.promoteFull }

  lemma {:induction false} StaysAborted(t: G.Traced, e: G.Event)
    requires Aborted(t) && LeavesAborted(t, e) && G.Sensible(e) && t.spec.templateHash != ""
    ensures Aborted(G.Next(t, e)) && G.Next(t, e).k.status.stableHash == t.k.status.stableHash
  {
    hide ReplicaSetsAfter, DelayedAfterSync, ScalingEvent, PauseRequests, Find, NewCount, FastTracked, PauseCompleted,
         CheckpointAfter,
         ReadyForPause, IsSaturated, MaxRevision;
    if e.Reconcile? && G.Persists(e.env) {
      G.PersistedNamesTemplate(t, e.env);
      PauseAsksForConditions(ContextOf(t.spec, t.k, Some(G.NewSet(t)), e.env));
    }
  }

  lemma {:induction false} AbortLasts(trace: seq<G.Traced>, events: seq<G.Event>, r: nat, m: nat)
    requires G.IsTrace(trace, events) && r <= m < |trace| && Aborted(trace[r])
    requires forall x :: r <= x < m ==> LeavesAborted(trace[x], events[x])
    ensures Aborted(trace[m]) && trace[m].k.status.stableHash == trace[r].k.status.stableHash
    decreases m - r
  {
    hide G.Next, LeavesAborted, Aborted;
    if r < m {
      AbortLasts(trace, events, r, m - 1);
      G.ReachableIsGated(trace, events, m - 1);
      StaysAborted(trace[m - 1], events[m - 1]);
    }
  }

  // After a user has aborted a rollout, and until somebody retries it, promotes it or changes the template, the first
  // reconcile that reaches the service with a full new set puts the service back on the set that was stable at the
  // abort.
  lemma {:induction false} AbortReturnsToStable(trace: seq<G.Traced>, events: seq<G.Event>, r: nat, m: nat)
    requires G.IsTrace(trace, events) && r < m < |events| && events[r].UserAborts? && !trace[r].k.status.promoteFull
    requires forall x :: r < x < m ==> LeavesAborted(trace[x], events[x])
    requires events[m].Reconcile? && ReachesService(events[m].env) && GoesOn(trace[m]) && IsFull(G.NewSet(trace[m]), trace[m].spec)
    requires var newRS := G.NewSet(trace[m]);
             newRS.available == NewCount(trace[m].spec, trace[m].k.status, trace[m].k.sets, newRS.hash)
    ensures trace[m + 1].k.active == Some(trace[r].k.status.stableHash)
  {
    hide Reconciled, LeavesAborted, GoesOn, IsFull, NewCount;
    assert trace[r + 1] == G.Next(trace[r], events[r]);
    AbortLasts(trace, events, r + 1, m);
    G.ReachableIsGated(trace, events, m);
    AbortedMovesExactlyWhen(trace[m], events[m].env);
  }

  /******* When the stable hash moves *******/

  // An abort that the reconcile does not take back; one that notices a new template does.
  predicate StillAborted(t: G.Traced, env: Env) {
    && t.k.status.currentPodHash in {"", t.spec.templateHash}
    && (t.k.status.pause.abort || (!SyncReplicasOnly(t.spec, t.k) && env.analysis.addAbort))
  }

  // The stable hash moves exactly when the active service selects another set than the stable one, for the current
  // template, and either a full promotion is requested, or the rollout is not aborted and its post-promotion analysis,
  // if it has one, has succeeded or is skipped because the set is still within its scale-down delay.
  lemma {:induction false} StableMovesExactlyWhen(t: G.Traced, env: Env)
    requires G.AnalysisRequests(env.analysis) && G.Persists(env) && t.spec.templateHash != ""
    requires t.k.status.stableHash != "" && Find(t.k.sets, t.k.status.stableHash).Some?
    requires t.k.active.Some? && t.k.active.value != ""
    ensures var after := G.Next(t, G.Reconcile(env)).k;
            && (after.status.stableHash != t.k.status.stableHash <==>
                  && after.active == Some(t.spec.templateHash) && t.spec.templateHash != t.k.status.stableHash
                  && (|| t.k.status.promoteFull
                      || (&& !StillAborted(t, env)
                          && (t.spec.postPromotionAnalysis ==> env.postAfter || HasDeadline(G.NewRSOf(t))))))
            && after.status.stableHash in {t.k.status.stableHash, t.spec.templateHash}
  {
    hide ReplicaSetsAfter, DelayedAfterSync, ScalingEvent, PauseRequests, Find, NewCount, FastTracked, PauseCompleted,
         CheckpointAfter,
         ReadyForPause, IsSaturated, Calculated, MaxRevision;
    G.PersistedNamesTemplate(t, env);
    PauseAsksForConditions(ContextOf(t.spec, t.k, Some(G.NewSet(t)), env));
  }

  // So in every run the stable hash waits for post-promotion analysis.
  lemma {:induction false} StableWaitsForAnalysis(trace: seq<G.Traced>, events: seq<G.Event>, m: nat)
    requires G.IsTrace(trace, events) && m < |events| && trace[m].spec.postPromotionAnalysis && !trace[m].k.status.promoteFull
    requires trace[m].k.status.stableHash != "" && Find(trace[m].k.sets, trace[m].k.status.stableHash).Some?
    requires trace[m].k.active.Some? && trace[m].k.active.value != ""
    ensures trace[m + 1].k.status.stableHash != trace[m].k.status.stableHash ==>
              && events[m].Reconcile? && (events[m].env.postAfter || HasDeadline(G.NewRSOf(trace[m])))
              && !StillAborted(trace[m], events[m].env) && trace[m + 1].k.active == Some(trace[m].spec.templateHash)
  {
    hide Reconciled, HasDeadline, SyncReplicasOnly;
    G.ReachableIsGated(trace, events, m);
    assert trace[m + 1] == G.Next(trace[m], events[m]);
    if events[m].Reconcile? {
      if G.Persists(events[m].env) {
        StableMovesExactlyWhen(trace[m], events[m].env);
      } else {
        G.UnpersistedKeepsStatus(trace[m], events[m].env);
      }
    }
  }
}
