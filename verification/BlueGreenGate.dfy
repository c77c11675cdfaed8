// Manual promotion: with autoPromotionEnabled set to false, only a user moves the active service.
module BlueGreenGate {
  import opened Wrappers
  import opened ReplicaSets
  import opened Pause
  import opened BlueGreen

  // A rollout, whether a user has resumed it since the controller last persisted its status, and the hash of the
  // version whose pause counted as completed when the preview checkpoint was last set.
  datatype Traced = Traced(spec: Spec, k: Cluster, resumed: bool, approved: string)

  datatype Event =
    | Reconcile(env: Env)
    | UserEdits(spec: Spec)
    | UserResumes
    | UserAborts
    | UserRetries
    | UserPromotesFull
    | PodsChange(sets: seq<ReplicaSet>)

  function WithPause(t: Traced, e: Pause.Event): Traced {
    t.(k := t.k.(status := t.k.status.(pause := Pause.Next(t.k.status.pause, e))))
  }

  function Next(t: Traced, e: Event): Traced {
    match e
    case Reconcile(env) =>
      var k' := Reconciled(t.spec, t.k, env);
      t.(k := k', resumed := t.resumed && !Persists(env),
         approved := if !t.k.status.checkpoint && k'.status.checkpoint then PausedVersion(t) else t.approved)
    case UserEdits(spec) => t.(spec := spec)
    case UserResumes => WithPause(t, Pause.UserResumes).(resumed := true)
    case UserAborts => WithPause(t, Pause.UserAborts)
    case UserRetries => WithPause(t, Pause.UserRetries)
    case UserPromotesFull => t.(k := t.k.(status := t.k.status.(promoteFull := true)))
    case PodsChange(sets) => t.(k := t.k.(sets := sets))
  }

  // The reconcile gets as far as persisting the status.
  predicate Persists(env: Env) { env.failure.Nowhere? }

  // The version that the status is about, which is the one that the pause conditions belong to.
  function PausedVersion(t: Traced): string {
    if t.k.status.currentPodHash == "" then t.spec.templateHash else t.k.status.currentPodHash
  }

  // Analysis runs ask for nothing but a pause because they are inconclusive, or an abort.
  predicate AnalysisRequests(req: Requests) {
    req.remove == [] && !req.clear && !req.removeAbort && forall i :: 0 <= i < |req.add| ==> req.add[i] == InconclusiveAnalysis
  }

  // A template always has a hash.
  predicate Sensible(e: Event) {
    && (e.Reconcile? ==> AnalysisRequests(e.env.analysis))
    && (e.UserEdits? ==> e.spec.templateHash != "")
  }

  predicate BlueGreenReasons(s: PauseStatus) { !HasReason(s.conditions, CanaryPauseStep) }

  // Until a user resumes the rollout, ControllerPause and the conditions are as the controller wrote them.
  predicate Gated(t: Traced) {
    var s := t.k.status.pause;
    && Coherent(s) && BlueGreenReasons(s) && (!t.resumed && s.controllerPause ==> s.conditions != [])
    && t.spec.templateHash != ""
  }

  lemma {:induction false} CalculatedIsGated(s: PauseStatus, req: Requests, now: int)
    requires Coherent(s) && BlueGreenReasons(s) && CanaryPauseStep !in req.add
    ensures var s' := Calculated(s, req, now); Coherent(s') && BlueGreenReasons(s') && (s'.controllerPause ==> s'.conditions != [])
  {
    hide Calculated, HasReason;
    WrittenExactly(s, req, now);
    ListedReasons(s, req, now, CanaryPauseStep);
  }

  lemma {:induction false} SyncIsGated(c: Context, sets: seq<ReplicaSet>, active: Option<string>, req: Requests)
    requires Coherent(c.status.pause) && BlueGreenReasons(c.status.pause) && CanaryPauseStep !in req.add
    ensures var s := SyncedCluster(c, sets, active, req).status.pause;
            Coherent(s) && BlueGreenReasons(s) && (s.controllerPause ==> s.conditions != [])
  {
    hide Calculated, HasReason, ShouldPromote, CheckpointAfter, Changed, DelayedAfterSync, BlueGreenReasons, Coherent;
    CalculatedIsGated(c.status.pause, req, c.env.now);
    CalculatedIsGated(c.status.pause, req.(clear := true, removeAbort := true), c.env.now);
  }

  lemma {:induction false} ReconcileIsGated(t: Traced, env: Env)
    requires Gated(t) && AnalysisRequests(env.analysis)
    ensures Gated(Next(t, Reconcile(env)))
  {
    hide Coherent, BlueGreenReasons, ReplicaSetsAfter, SyncedCluster, NewOrCreated, Find, Changed, ActiveAfter,
         ReadyForPause, FastTracked, PauseCompleted, SyncReplicasOnly;
    var spec, k := t.spec, t.k;
    var only := ContextOf(spec, k, Find(k.sets, spec.templateHash), env);
    SyncIsGated(only, ReplicaSetsAfter(only, k.sets), k.active, NO_REQUESTS);
    var newRS := NewOrCreated(spec, k);
    var sets := if Find(k.sets, spec.templateHash).Some? then k.sets else k.sets + [newRS];
    var c := ContextOf(spec, k, Some(newRS), env);
    SyncIsGated(c, sets, k.active, NO_REQUESTS);
    SyncIsGated(c, ReplicaSetsAfter(c, sets), ActiveAfter(c), Combined(PauseRequests(c), env.analysis));
  }

  lemma {:induction false} StepIsGated(t: Traced, e: Event)
    requires Gated(t) && Sensible(e)
    ensures Gated(Next(t, e))
  {
    if e.Reconcile? {
      ReconcileIsGated(t, e.env);
    }
  }

  predicate Initial(t: Traced) {
    t.k.status.pause == NEVER_PAUSED && !t.k.status.checkpoint && !t.resumed && t.spec.templateHash != ""
  }

  ghost predicate IsTrace(trace: seq<Traced>, events: seq<Event>) {
    && |trace| == |events| + 1 && Initial(trace[0])
    && forall i :: 0 <= i < |events| ==> Sensible(events[i]) && trace[i + 1] == Next(trace[i], events[i])
  }

  lemma {:induction false} ReachableIsGated(trace: seq<Traced>, events: seq<Event>, i: nat)
    requires IsTrace(trace, events) && i < |trace|
    ensures Gated(trace[i])
  {
    hide Next, Gated;
    if i == 0 {
      InitialIsGated(trace[0]);
    } else {
      ReachableIsGated(trace, events, i - 1);
      StepIsGated(trace[i - 1], events[i - 1]);
    }
  }

  lemma {:induction false} InitialIsGated(t: Traced)
    requires Initial(t)
    ensures Gated(t)
  {
  }

  function NewSet(t: Traced): ReplicaSet { NewOrCreated(t.spec, t.k) }

  // The pause before the gate: a rollout without one gets it exactly in the reconcile that finds the new set ready at
  // the size wanted for the pause, analysed and not on its way back, promotion not immediate, and neither a checkpoint
  // nor another pause of the controller.
  lemma {:induction false} PauseStartsExactlyWhen(t: Traced, env: Env)
    requires AnalysisRequests(env.analysis) && !env.analysis.addAbort && Persists(env)
    requires !t.k.status.pause.abort && !t.k.status.promoteFull && !HasReason(t.k.status.pause.conditions, BlueGreenPause)
    requires t.k.status.stableHash != "" && Find(t.k.sets, t.k.status.stableHash).Some?
    requires t.k.active.Some? && t.k.active.value !in {"", NewSet(t).hash} && t.spec.templateHash != ""
    ensures HasReason(Next(t, Reconcile(env)).k.status.pause.conditions, BlueGreenPause) <==>
            && !SyncReplicasOnly(t.spec, t.k) && t.k.status.currentPodHash in {"", NewSet(t).hash}
            && NewSet(t).spec == NewSet(t).available == NewCount(t.spec, t.k.status, t.k.sets, NewSet(t).hash)
            && t.spec.NeedsPause() && PrePromotionDone(t.spec, env.preBefore)
            && !HasDeadline(Some(NewSet(t))) && !t.k.status.checkpoint && !t.k.status.pause.controllerPause
  {
    hide HasReason, ReplicaSetsAfter, SyncedCluster, Created, Find, NewCount, PauseRequests, ActiveAfter,
         PauseCompleted,
         GetPauseCondition, Combined, ScalingEvent;
    var spec, k := t.spec, t.k;
    FoundIffPresent(k.status.pause.conditions, BlueGreenPause);
    var only := ContextOf(spec, k, Find(k.sets, spec.templateHash), env);
    SyncListsPause(only, ReplicaSetsAfter(only, k.sets), k.active, NO_REQUESTS);
    var sets := if Find(k.sets, spec.templateHash).Some? then k.sets else k.sets + [NewSet(t)];
    var c := ContextOf(spec, k, Some(NewSet(t)), env);
    SyncListsPause(c, sets, k.active, NO_REQUESTS);
    if !SyncReplicasOnly(spec, k) {
      PauseIsAskedExactlyWhen(c);
      SyncListsPause(c, ReplicaSetsAfter(c, sets), ActiveAfter(c), Combined(PauseRequests(c), env.analysis));
    }
  }

  lemma {:induction false} PauseIsAskedExactlyWhen(c: Context)
    requires c.newRS.Some? && AnalysisRequests(c.env.analysis) && !c.status.pause.abort && !c.spec.paused
    requires GetPauseCondition(c.status.pause.conditions, BlueGreenPause).None?
    ensures var req := Combined(PauseRequests(c), c.env.analysis);
            && req.clear == c.env.analysis.clear && req.addAbort == c.env.analysis.addAbort
            && (BlueGreenPause in req.add <==>
                  && ReadyForPause(c) && !FastTracked(c) && !c.status.checkpoint && c.spec.NeedsPause()
                  && PrePromotionDone(c.spec, c.env.preBefore) && !c.status.pause.controllerPause)
            && (BlueGreenPause in req.add ==> ActiveAfter(c) == c.active)
  {
    hide ReadyForPause, IsSaturated;
    assert BlueGreenPause in PauseRequests(c).add + c.env.analysis.add <==> BlueGreenPause in PauseRequests(c).add;
  }

  lemma {:induction false} SyncListsPause(c: Context, sets: seq<ReplicaSet>, active: Option<string>, req: Requests)
    requires !HasReason(c.status.pause.conditions, BlueGreenPause) && !c.status.promoteFull
    requires !c.status.pause.abort && !req.addAbort && !req.clear
    ensures HasReason(SyncedCluster(c, sets, active, req).status.pause.conditions, BlueGreenPause) <==>
            && !Changed(c) && !ShouldPromote(c, if active.Some? then active.value else "", req)
            && BlueGreenPause in req.add
  {
    hide Calculated, HasReason, ShouldPromote, CheckpointAfter, Changed, DelayedAfterSync;
    ListedReasons(c.status.pause, req, c.env.now, BlueGreenPause);
    ListedReasons(c.status.pause, req.(clear := true, removeAbort := true), c.env.now, BlueGreenPause);
  }

  // The pause of a rollout with automatic promotion is over: there is no delay, or it has passed since the pause began.
  predicate DelayIsOver(t: Traced, now: int) {
    || t.spec.autoPromotionSeconds <= 0
    || (GetPauseCondition(t.k.status.pause.conditions, BlueGreenPause).Some?
        && now > GetPauseCondition(t.k.status.pause.conditions, BlueGreenPause).value.startTime + t.spec.autoPromotionSeconds)
  }

  lemma {:induction false} PauseEndIsAskedExactlyWhen(t: Traced, env: Env)
    requires AnalysisRequests(env.analysis) && !env.analysis.addAbort && !t.k.status.pause.abort && !t.k.status.promoteFull && !t.spec.paused
    requires t.k.active.Some? && t.k.active.value != NewSet(t).hash
    requires GetPauseCondition(t.k.status.pause.conditions, BlueGreenPause).Some?
    ensures var c := ContextOf(t.spec, t.k, Some(NewSet(t)), env);
            var req := Combined(PauseRequests(c), env.analysis);
            && !req.clear && !req.addAbort
            && (BlueGreenPause in req.remove <==>
                  && NewSet(t).spec == NewSet(t).available == NewCount(t.spec, t.k.status, t.k.sets, NewSet(t).hash)
                  && (|| HasDeadline(Some(NewSet(t))) || t.k.status.checkpoint || !t.spec.NeedsPause()
                      || (PrePromotionDone(t.spec, env.preBefore) && t.spec.autoPromotionEnabled != Some(false) && DelayIsOver(t, env.now))))
            && ActiveAfter(c) in {t.k.active, Some(NewSet(t).hash)}
            && (ActiveAfter(c) != t.k.active ==> BlueGreenPause in req.remove)
  {
    hide GetPauseCondition, NewOrCreated, NewCount, Find;
  }

  // A pause that is listed stays, unless the reconcile finds the new set ready and the rollout fast-tracked, or
  // analysed
  // with the pause over.
  lemma {:induction false} PauseEndsExactlyWhen(t: Traced, env: Env)
    requires AnalysisRequests(env.analysis) && !env.analysis.addAbort && Persists(env)
    requires !t.k.status.pause.abort && !t.k.status.promoteFull && HasReason(t.k.status.pause.conditions, BlueGreenPause)
    requires t.k.status.stableHash != "" && Find(t.k.sets, t.k.status.stableHash).Some?
    requires t.k.active.Some? && t.k.active.value !in {"", NewSet(t).hash} && t.spec.templateHash != ""
    requires !SyncReplicasOnly(t.spec, t.k) && t.k.status.currentPodHash in {"", NewSet(t).hash}
    requires GetPauseCondition(t.k.status.pause.conditions, BlueGreenPause).Some?
    ensures !HasReason(Next(t, Reconcile(env)).k.status.pause.conditions, BlueGreenPause) <==>
            && NewSet(t).spec == NewSet(t).available == NewCount(t.spec, t.k.status, t.k.sets, NewSet(t).hash)
            && (|| HasDeadline(Some(NewSet(t))) || t.k.status.checkpoint || !t.spec.NeedsPause()
                || (PrePromotionDone(t.spec, env.preBefore) && t.spec.autoPromotionEnabled != Some(false) && DelayIsOver(t, env.now)))
  {
    hide Calculated, HasReason, ReplicaSetsAfter, DelayedAfterSync, Created, Find, NewCount, ScalingEvent,
         GetPauseCondition, CheckpointAfter,
         PauseRequests, ActiveAfter, DelayIsOver, HasDeadline;
    PauseEndIsAskedExactlyWhen(t, env);
    var c := ContextOf(t.spec, t.k, Some(NewSet(t)), env);
    var s, req := t.k.status.pause, Combined(PauseRequests(c), env.analysis);
    ListedReasons(s, req, env.now, BlueGreenPause);
    ListedReasons(s, req.(clear := true, removeAbort := true), env.now, BlueGreenPause);
  }

  // A new set that serves already is not paused for, and ends the pause once it is ready.
  lemma {:induction false} ActiveSetIsNotPaused(t: Traced, env: Env)
    requires AnalysisRequests(env.analysis) && Persists(env) && t.k.active == Some(NewSet(t).hash) && t.spec.templateHash != ""
    requires !SyncReplicasOnly(t.spec, t.k) && t.k.status.currentPodHash in {"", NewSet(t).hash}
    requires || !HasReason(t.k.status.pause.conditions, BlueGreenPause)
             || (!t.k.status.pause.abort
                 && NewSet(t).spec == NewSet(t).available == NewCount(t.spec, t.k.status, t.k.sets, NewSet(t).hash))
    ensures !HasReason(Next(t, Reconcile(env)).k.status.pause.conditions, BlueGreenPause)
  {
    hide Calculated, HasReason, ReplicaSetsAfter, DelayedAfterSync, Created, Find, NewCount, ScalingEvent,
         GetPauseCondition, CheckpointAfter,
         PauseCompleted, ActiveAfter;
    var c := ContextOf(t.spec, t.k, Some(NewSet(t)), env);
    var s, req := t.k.status.pause, Combined(PauseRequests(c), env.analysis);
    ListedReasons(s, req, env.now, BlueGreenPause);
    ListedReasons(s, req.(clear := true, removeAbort := true), env.now, BlueGreenPause);
  }

  // The gate: a reconcile under autoPromotionEnabled: false that is neither fast-tracked nor aborted moves the active
  // selector only to the new hash, and only when a user has resumed the rollout since the controller last persisted a
  // status (a template change clears that too, as it persists one), or when the preview checkpoint is held.
  lemma {:induction false} SwitchNeedsUser(trace: seq<Traced>, events: seq<Event>, i: nat)
    requires IsTrace(trace, events) && i < |events| && events[i].Reconcile?
    requires trace[i].spec.autoPromotionEnabled == Some(false)
    requires !HasDeadline(Some(NewSet(trace[i]))) && !trace[i].k.status.promoteFull && !trace[i].k.status.pause.abort
    requires trace[i].k.active.Some?
    ensures trace[i + 1].k.active != trace[i].k.active ==>
              && (trace[i].resumed || trace[i].k.status.checkpoint)
              && trace[i + 1].k.active == Some(NewSet(trace[i]).hash) && trace[i].k.status.currentPodHash in {"", NewSet(trace[i]).hash}
  {
    hide Calculated, ReplicaSetsAfter, DelayedAfterSync, Created, Find, ShouldPromote, CheckpointAfter, NewCount,
         Synced, ReadyForPause, IsSaturated, ScalingEvent;
    ReachableIsGated(trace, events, i);
    assert trace[i + 1] == Next(trace[i], events[i]);
    var s := trace[i].k.status.pause;
    FoundIffPresent(s.conditions, BlueGreenPause);
    FoundIffPresent(s.conditions, InconclusiveAnalysis);
    if !trace[i].resumed && s.conditions != [] {
      OnlyKnownReasons(s.conditions);
    }
  }

  lemma {:induction false} OnlyKnownReasons(conditions: seq<PauseCondition>)
    requires conditions != []
    ensures HasReason(conditions, BlueGreenPause) || HasReason(conditions, InconclusiveAnalysis) || HasReason(conditions, CanaryPauseStep)
  {
    assert HasReason(conditions, conditions[0].reason);
  }

  // The same in both directions: what the reconcile of such a rollout needs in order to move the selector.
  lemma {:induction false} SwitchesExactlyWhen(t: Traced, env: Env)
    requires Gated(t) && t.spec.autoPromotionEnabled == Some(false)
    requires !HasDeadline(Some(NewSet(t))) && !t.k.status.promoteFull && !t.k.status.pause.abort
    requires t.k.active.Some? && t.k.active.value != NewSet(t).hash && (env.failure.Nowhere? || env.failure.AfterSwitch?)
    ensures Next(t, Reconcile(env)).k.active != t.k.active <==>
            && !SyncReplicasOnly(t.spec, t.k) && t.k.status.currentPodHash in {"", NewSet(t).hash}
            && NewSet(t).available == NewCount(t.spec, t.k.status, t.k.sets, NewSet(t).hash) && IsSaturated(t.spec, NewSet(t))
            && PrePromotionDone(t.spec, env.preBefore)
            && (t.k.status.checkpoint || (t.k.status.pause.controllerPause && t.k.status.pause.conditions == []))
  {
    hide Calculated, ReplicaSetsAfter, DelayedAfterSync, Created, Find, NewCount, Synced, ScalingEvent;
    var s := t.k.status.pause;
    FoundIffPresent(s.conditions, BlueGreenPause);
    FoundIffPresent(s.conditions, InconclusiveAnalysis);
    if s.conditions != [] {
      OnlyKnownReasons(s.conditions);
    }
  }

  // And what moves the selector of a rollout with automatic promotion: a full new set that is analysed, and a
  // checkpoint
  // or a delay that is over.
  lemma {:induction false} PromotesExactlyWhen(t: Traced, env: Env)
    requires t.spec.autoPromotionEnabled != Some(false)
    requires !HasDeadline(Some(NewSet(t))) && !t.k.status.promoteFull && !t.k.status.pause.abort
    requires t.k.active.Some? && t.k.active.value != NewSet(t).hash && (env.failure.Nowhere? || env.failure.AfterSwitch?)
    ensures Next(t, Reconcile(env)).k.active != t.k.active <==>
            && !SyncReplicasOnly(t.spec, t.k) && t.k.status.currentPodHash in {"", NewSet(t).hash}
            && NewSet(t).available == NewCount(t.spec, t.k.status, t.k.sets, NewSet(t).hash) && IsSaturated(t.spec, NewSet(t))
            && PrePromotionDone(t.spec, env.preBefore)
            && (t.k.status.checkpoint || DelayIsOver(t, env.now))
  {
    hide Calculated, ReplicaSetsAfter, DelayedAfterSync, Created, Find, NewCount, Synced, ScalingEvent;
  }

  // A set within its scale-down delay, a requested full promotion and a service without a selector take no pause: the
  // selector moves as soon as the new set is full.
  lemma {:induction false} FastTrackMoves(t: Traced, env: Env)
    requires HasDeadline(Some(NewSet(t))) || t.k.status.promoteFull || t.k.active.None?
    requires !t.k.status.pause.abort && (env.failure.Nowhere? || env.failure.AfterSwitch?)
    requires !SyncReplicasOnly(t.spec, t.k) && t.k.status.currentPodHash in {"", NewSet(t).hash}
    requires NewSet(t).available == NewCount(t.spec, t.k.status, t.k.sets, NewSet(t).hash) && IsSaturated(t.spec, NewSet(t))
    ensures Next(t, Reconcile(env)).k.active == Some(NewSet(t).hash)
  {
    hide Calculated, ReplicaSetsAfter, DelayedAfterSync, Created, Find, NewCount, Synced, ScalingEvent, PauseRequests;
  }

  // And a user does open it: when the controller has paused a rollout whose new set is ready and analysed, the first
  // reconcile after the user has resumed it moves the selector.
  lemma {:induction false} ResumeOpensGate(t: Traced, env: Env)
    requires Find(t.k.sets, t.spec.templateHash) == Some(NewSet(t)) && t.k.status.currentPodHash == NewSet(t).hash
    requires t.k.status.pause.controllerPause && !t.k.status.pause.abort && !t.spec.paused
    requires !ScalingEvent(t.spec, t.k.sets) && IsSaturated(t.spec, NewSet(t)) && t.spec.previewReplicaCount.None?
    requires PrePromotionDone(t.spec, env.preBefore) && env.failure.Nowhere?
    requires t.spec.autoPromotionEnabled == Some(false) && t.k.active.Some?
    ensures Next(Next(t, Event.UserResumes), Reconcile(env)).k.active == Some(NewSet(t).hash)
  {
    hide Calculated, ReplicaSetsAfter, DelayedAfterSync, Created, Find, ShouldPromote, CheckpointAfter, Synced,
         ScalingEvent;
  }

  // With automatic promotion after a delay, a reconcile that is neither fast-tracked nor aborted and has no checkpoint
  // moves the selector only when the controller's pause is older than autoPromotionSeconds.
  lemma {:induction false} SwitchWaitsForDelay(t: Traced, env: Env)
    requires t.spec.autoPromotionEnabled != Some(false) && t.spec.autoPromotionSeconds > 0
    requires !t.k.status.checkpoint && !t.k.status.promoteFull && !t.k.status.pause.abort && !HasDeadline(Some(NewSet(t)))
    requires t.k.active.Some?
    ensures var conditions := t.k.status.pause.conditions;
            Next(t, Reconcile(env)).k.active != t.k.active ==>
              exists i :: 0 <= i < |conditions| && conditions[i].reason == BlueGreenPause
                          && env.now > conditions[i].startTime + t.spec.autoPromotionSeconds
  {
    hide Calculated, ReplicaSetsAfter, DelayedAfterSync, Created, Find, ShouldPromote, CheckpointAfter, NewCount,
         Synced, ReadyForPause, IsSaturated, ScalingEvent, Pause.Next;
    var conditions := t.k.status.pause.conditions;
    FoundIffPresent(conditions, BlueGreenPause);
    var cond := GetPauseCondition(conditions, BlueGreenPause);
    if Next(t, Reconcile(env)).k.active != t.k.active {
      assert cond.Some? && env.now > cond.value.startTime + t.spec.autoPromotionSeconds;
      var i :| 0 <= i < |conditions| && conditions[i] == cond.value;
    }
  }

  /******* The preview checkpoint *******/

  // The new set in the context of a reconcile; syncing replicas only does not create it.
  function NewRSOf(t: Traced): Option<ReplicaSet> {
    if SyncReplicasOnly(t.spec, t.k) then Find(t.k.sets, t.spec.templateHash) else Some(NewSet(t))
  }

  // A persisted status names the template's hash.
  lemma {:induction false} PersistedNamesTemplate(t: Traced, env: Env)
    requires Persists(env)
    ensures Next(t, Reconcile(env)).k.status.currentPodHash == t.spec.templateHash
    ensures CurrentHash(ContextOf(t.spec, t.k, NewRSOf(t), env)) == t.spec.templateHash
  {
    hide Calculated, ReplicaSetsAfter, DelayedAfterSync, ActiveAfter, PauseRequests, ShouldPromote, CheckpointAfter,
         ScalingEvent, Find, NewCount;
  }

  // The checkpoint is set only by a reconcile that persists, and only once the pause of the version that the status is
  // about counts as completed: with autoPromotionEnabled false, because a user resumed the rollout, or because an
  // inconclusive analysis has paused it.
  lemma {:induction false} CheckpointIsEarned(t: Traced, e: Event)
    requires Gated(t) && Sensible(e)
    requires !t.k.status.checkpoint
    ensures Next(t, e).k.status.checkpoint ==>
              && e.Reconcile? && Persists(e.env) && t.spec.previewReplicaCount.Some?
              && (t.spec.autoPromotionEnabled == Some(false) ==> t.resumed || HasReason(t.k.status.pause.conditions, InconclusiveAnalysis))
  {
    hide Calculated, ReplicaSetsAfter, DelayedAfterSync, Created, Find, ShouldPromote, ActiveAfter, NewCount,
         PauseRequests, ScalingEvent, Changed, CurrentHash;
    var s := t.k.status.pause;
    FoundIffPresent(s.conditions, BlueGreenPause);
    if s.conditions != [] {
      OnlyKnownReasons(s.conditions);
    }
  }

  // The reconcile that notices a template change does not reset the checkpoint: unless it promotes, the checkpoint is
  // set afterwards exactly when it was set before, or when the pause of the old version and the pods of the new set
  // would set it now.
  lemma {:induction false} ChangeKeepsCheckpoint(t: Traced, env: Env)
    requires Persists(env) && t.k.status.currentPodHash !in {"", t.spec.templateHash} && !t.k.status.promoteFull
    requires Find(t.k.sets, t.k.status.stableHash).Some? && t.k.active.Some? && t.k.active.value !in {"", t.spec.templateHash}
    ensures Next(t, Reconcile(env)).k.status.checkpoint <==>
            && t.spec.previewReplicaCount.Some?
            && (|| t.k.status.checkpoint
                || (&& PrePromotionDone(t.spec, env.preAfter) && PauseCompleted(t.spec, t.k.status, NO_REQUESTS, env.now)
                    && t.spec.previewReplicaCount.value == AvailableOf(NewRSOf(t))))
  {
    hide Calculated, ReplicaSetsAfter, DelayedAfterSync, ActiveAfter, PauseRequests, ScalingEvent, NewCount,
         GetPauseCondition;
    PersistedNamesTemplate(t, env);
  }

  // In between, while another set serves, the checkpoint is set exactly when it was, or when the preview has as many
  // available pods as it is to have, is analysed, no analysis asks for a pause, and the pause is over or none is
  // needed.
  lemma {:induction false} CheckpointIsSetExactlyWhen(t: Traced, env: Env)
    requires AnalysisRequests(env.analysis) && Persists(env) && t.spec.templateHash != ""
    requires !SyncReplicasOnly(t.spec, t.k) && t.k.status.currentPodHash in {"", t.spec.templateHash}
    requires !t.k.status.promoteFull && t.k.status.stableHash != "" && Find(t.k.sets, t.k.status.stableHash).Some?
    ensures var k' := Next(t, Reconcile(env)).k;
            k'.active.Some? && k'.active.value !in {"", t.spec.templateHash} ==>
              (k'.status.checkpoint <==>
                 && t.spec.previewReplicaCount.Some?
                 && (|| t.k.status.checkpoint
                     || (&& t.spec.previewReplicaCount.value == NewSet(t).available && PrePromotionDone(t.spec, env.preAfter)
                         && env.analysis.add == []
                         && if t.spec.autoPromotionEnabled == Some(false)
                            then t.k.status.pause.controllerPause && GetPauseCondition(t.k.status.pause.conditions, BlueGreenPause).None?
                            else DelayIsOver(t, env.now))))
  {
    hide Calculated, ReplicaSetsAfter, DelayedAfterSync, ScalingEvent, NewCount, GetPauseCondition, Created, Find;
    PersistedNamesTemplate(t, env);
  }

  // A checkpoint that is held although the status has moved on to another version than the one it was set for.
  predicate Stale(t: Traced) { t.k.status.checkpoint && t.approved != t.k.status.currentPodHash }

  // The reconcile notices that the template has changed.
  predicate NoticesChange(t: Traced, e: Event) {
    e.Reconcile? && Persists(e.env) && t.k.status.currentPodHash !in {"", t.spec.templateHash}
  }

  // The checkpoint has been held since the i-th event and was not before.
  ghost predicate HeldSince(trace: seq<Traced>, s: nat, i: nat) {
    s < i < |trace| && !trace[s].k.status.checkpoint && forall j :: s < j <= i ==> trace[j].k.status.checkpoint
  }

  // The s-th event set the checkpoint that the i-th state holds, for the version that the status was about then; if
  // promotion is manual, after a user resumed that version, or while an inconclusive analysis paused it.
  ghost predicate EarnedBy(trace: seq<Traced>, events: seq<Event>, s: nat, i: nat) {
    && HeldSince(trace, s, i) && s < |events| && events[s].Reconcile? && Persists(events[s].env)
    && trace[i].approved == PausedVersion(trace[s])
    && (trace[s].spec.autoPromotionEnabled == Some(false) ==>
          trace[s].resumed || HasReason(trace[s].k.status.pause.conditions, InconclusiveAnalysis))
  }

  lemma {:induction false} HeldCheckpointWasEarned(trace: seq<Traced>, events: seq<Event>, i: nat)
    requires IsTrace(trace, events) && i < |trace| && trace[i].k.status.checkpoint
    ensures exists s :: 0 <= s < i && EarnedBy(trace, events, s, i)
  {
    hide Reconciled, Gated, HasReason;
    assert i > 0;
    assert trace[i] == Next(trace[i - 1], events[i - 1]);
    if trace[i - 1].k.status.checkpoint {
      HeldCheckpointWasEarned(trace, events, i - 1);
      var s :| 0 <= s < i - 1 && EarnedBy(trace, events, s, i - 1);
      assert EarnedBy(trace, events, s, i);
    } else {
      ReachableIsGated(trace, events, i - 1);
      CheckpointIsEarned(trace[i - 1], events[i - 1]);
      assert EarnedBy(trace, events, i - 1, i);
    }
  }

  // A held checkpoint is stale exactly when the status is about another version than when it was set; then some
  // reconcile has noticed a template change and kept the checkpoint, or has set it as it noticed the change.
  lemma {:induction false} StaleExactlyWhen(trace: seq<Traced>, events: seq<Event>, s: nat, i: nat)
    requires IsTrace(trace, events) && HeldSince(trace, s, i)
    ensures trace[i].k.status.currentPodHash != "" && trace[i].approved == PausedVersion(trace[s])
    ensures Stale(trace[i]) <==> PausedVersion(trace[s]) != trace[i].k.status.currentPodHash
    ensures Stale(trace[i]) ==> exists j :: s <= j < i && NoticesChange(trace[j], events[j])
  {
    hide Reconciled, Coherent, BlueGreenReasons, AnalysisRequests;
    assert trace[i] == Next(trace[i - 1], events[i - 1]);
    ReachableIsGated(trace, events, i - 1);
    if i == s + 1 {
      CheckpointIsEarned(trace[s], events[s]);
      PersistedNamesTemplate(trace[s], events[s].env);
      assert Stale(trace[i]) ==> NoticesChange(trace[s], events[s]);
    } else {
      StaleExactlyWhen(trace, events, s, i - 1);
      StaleStep(trace[i - 1], events[i - 1]);
      assert Stale(trace[i]) ==> Stale(trace[i - 1]) || NoticesChange(trace[i - 1], events[i - 1]);
    }
  }

  // What one event does to a checkpoint that stays held.
  lemma {:induction false} StaleStep(t: Traced, e: Event)
    requires t.k.status.checkpoint && Next(t, e).k.status.checkpoint
    requires t.spec.templateHash != "" && t.k.status.currentPodHash != ""
    ensures Next(t, e).approved == t.approved && Next(t, e).k.status.currentPodHash != ""
    ensures Stale(Next(t, e)) && !Stale(t) ==> NoticesChange(t, e)
  {
    hide Reconciled;
    if e.Reconcile? {
      if Persists(e.env) {
        PersistedNamesTemplate(t, e.env);
      } else {
        UnpersistedKeepsStatus(t, e.env);
      }
    }
  }

  lemma {:induction false} UnpersistedKeepsStatus(t: Traced, env: Env)
    requires !Persists(env)
    ensures Next(t, Reconcile(env)).k.status == t.k.status
  {
    hide ReplicaSetsAfter, Created, Find, ScalingEvent, ActiveAfter, Changed, SyncedCluster;
  }
}
