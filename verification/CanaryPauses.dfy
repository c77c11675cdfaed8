// Pause steps of a canary: when the controller pauses the rollout at one, and what ends it, over whole runs.
module CanaryPauses {
  import opened Wrappers
  import opened ReplicaSets
  import opened CanaryPlanner
  import opened Pause
  import opened CanaryStatus
  import T = CanaryTrace

  function IndexOf(t: T.Traced): int { if t.status.stepIndex.Some? then t.status.stepIndex.value else 0 }

  predicate AtPauseStep(t: T.Traced) { 0 <= IndexOf(t) < |t.spec.steps| && t.spec.steps[IndexOf(t)].pause.Some? }

  // Neither the template nor the steps have changed since the last reconcile.
  predicate Unchanging(t: T.Traced, env: Env) {
    && t.status.stepHash == Some(t.spec.steps)
    && t.status.currentPodHash in {"", if env.newRS.Some? then env.newRS.value.hash else t.spec.templateHash}
  }

  // Analysis runs ask for nothing but an abort, or a pause because they are inconclusive.
  predicate OfAnalysis(req: Requests) {
    req.remove == [] && !req.clear && !req.removeAbort && forall i :: 0 <= i < |req.add| ==> req.add[i] == InconclusiveAnalysis
  }

  function StepPause(s: PauseStatus): Option<PauseCondition> { GetPauseCondition(s.conditions, CanaryPauseStep) }

  lemma {:induction false} FirstOfReason(conditions: seq<PauseCondition>, reason: Reason, c: PauseCondition)
    requires c in conditions && c.reason == reason
    requires forall d :: d in conditions && d.reason == reason ==> d == c
    ensures GetPauseCondition(conditions, reason) == Some(c)
  {
    FoundIffPresent(conditions, reason);
    var i :| 0 <= i < |conditions| && conditions[i] == c;
    assert HasReason(conditions, reason);
  }

  // A rollout that is not paused at a step gets that pause, from now on, exactly in a reconcile of a running update
  // that
  // finds it at a pause step, when the user has not paused the rollout or asked for a full promotion, nothing aborts
  // it,
  // the controller has not paused it otherwise, and no earlier stage of the reconcile had something to do.
  lemma {:induction false} PauseStartsExactlyWhen(t: T.Traced, env: Env)
    requires OfAnalysis(env.analysis) && StepPause(t.status.pause).None?
    ensures StepPause(T.Next(t, T.Reconcile(env)).status.pause) ==
            if && AtPauseStep(t) && Unchanging(t, env) && env.stableRS.Some?
               && !t.spec.paused && !t.status.promoteFull
               && !t.status.pause.abort && !env.analysis.addAbort && !t.status.pause.controllerPause
               && (|| env.scaling || HasReason(t.status.pause.conditions, InconclusiveAnalysis)
                   || (env.analysis.add == [] && !env.scaled))
            then Some(PauseCondition(CanaryPauseStep, env.now)) else None
  {
    hide Calculated, HasReason, RequestsAtSync, StepPause, AtPauseStep, T.LogAfter;
    var s, req := t.status.pause, RequestsAtSync(t.spec, t.status, env);
    PauseIsAskedExactlyWhen(t, env);
    OutcomeAtPause(t, env, req);
    StepPauseAfter(s, req, env.now);
    StepPauseAfter(s, req.(clear := true, removeAbort := true), env.now);
    StepPauseAfter(s, req.(remove := req.remove + [CanaryPauseStep]), env.now);
    StepPauseAfter(s, req.(clear := true, removeAbort := true, remove := req.remove + [CanaryPauseStep]), env.now);
  }

  lemma {:induction false} PauseIsAskedExactlyWhen(t: T.Traced, env: Env)
    requires OfAnalysis(env.analysis) && StepPause(t.status.pause).None?
    ensures var req := RequestsAtSync(t.spec, t.status, env);
            && !req.clear && !req.removeAbort && (req.addAbort ==> env.analysis.addAbort)
            && (Unchanging(t, env) ==> req.addAbort == env.analysis.addAbort)
            && (Unchanging(t, env) ==>
                  (CanaryPauseStep in req.add <==>
                     && AtPauseStep(t) && !t.spec.paused && !t.status.promoteFull && !t.status.pause.controllerPause
                     && (|| env.scaling || HasReason(t.status.pause.conditions, InconclusiveAnalysis)
                         || (env.analysis.add == [] && !env.scaled))))
  {
    hide HasReason;
    FoundIffPresent(t.status.pause.conditions, InconclusiveAnalysis);
    assert CanaryPauseStep !in env.analysis.add;
  }

  // What becomes of a rollout at a pause step that nobody has paused at it.
  lemma {:induction false} OutcomeAtPause(t: T.Traced, env: Env, req: Requests)
    requires req == RequestsAtSync(t.spec, t.status, env) && !req.removeAbort && StepPause(t.status.pause).None?
    ensures !Unchanging(t, env) ==> T.Outcome(t, env).Reset?
    ensures Unchanging(t, env) && env.stableRS.None? ==> T.Outcome(t, env).Promoted?
    ensures Unchanging(t, env) && env.stableRS.Some? && AtPauseStep(t) && !t.spec.paused && !t.status.promoteFull ==>
              if t.status.pause.abort || req.addAbort then T.Outcome(t, env).Aborted?
              else if t.status.pause.controllerPause then T.Outcome(t, env).StepDone? else T.Outcome(t, env).Unchanged?
  {
    hide RequestsAtSync, AtDesiredReplicaCounts;
  }

  // The pause at a step in a written status, for a status without one.
  lemma {:induction false} StepPauseAfter(s: PauseStatus, req: Requests, now: int)
    requires StepPause(s).None?
    ensures StepPause(Calculated(s, req, now)) ==
            if !req.addAbort && !(s.abort && !req.removeAbort) && !req.clear && CanaryPauseStep in req.add
            then Some(PauseCondition(CanaryPauseStep, now)) else None
  {
    hide Calculated, HasReason;
    var c := PauseCondition(CanaryPauseStep, now);
    FoundIffPresent(s.conditions, CanaryPauseStep);
    ListedReasons(s, req, now, CanaryPauseStep);
    FoundIffPresent(Calculated(s, req, now).conditions, CanaryPauseStep);
    ConditionTimes(s, req, now, c);
    if c in Calculated(s, req, now).conditions {
      forall d | d in Calculated(s, req, now).conditions && d.reason == CanaryPauseStep ensures d == c {
        ConditionTimes(s, req, now, d);
        NotAmong(s.conditions, d);
      }
      FirstOfReason(Calculated(s, req, now).conditions, CanaryPauseStep, c);
    }
  }

  lemma {:induction false} NotAmong(conditions: seq<PauseCondition>, c: PauseCondition)
    requires !HasReason(conditions, c.reason)
    ensures c !in conditions
  {
  }

  /******* Runs without inconclusive analyses *******/

  predicate Calm(e: T.Event) { e.Reconcile? ==> OfAnalysis(e.env.analysis) && e.env.analysis.add == [] }

  ghost predicate IsCalmTrace(trace: seq<T.Traced>, events: seq<T.Event>) {
    T.IsTrace(trace, events) && forall j :: 0 <= j < |events| ==> Calm(events[j])
  }

  // A user has resumed the rollout since the controller last persisted its status.
  predicate Resumed(events: seq<T.Event>, i: nat)
    requires i <= |events|
  {
    exists r :: 0 <= r < i && events[r].UserResumes? && forall m :: r < m < i ==> !events[m].Reconcile?
  }

  predicate OnlyStepPauses(s: PauseStatus) {
    !HasReason(s.conditions, BlueGreenPause) && !HasReason(s.conditions, InconclusiveAnalysis)
  }

  lemma {:induction false} NoReasonNoCondition(conditions: seq<PauseCondition>)
    requires !HasReason(conditions, BlueGreenPause) && !HasReason(conditions, InconclusiveAnalysis)
    ensures conditions != [] ==> HasReason(conditions, CanaryPauseStep)
  {
    if conditions != [] {
      assert HasReason(conditions, conditions[0].reason);
    }
  }

  lemma {:induction false} WrittenHasStepPauses(s: PauseStatus, req: Requests, now: int)
    requires Coherent(s) && OnlyStepPauses(s) && forall r :: r in req.add ==> r == CanaryPauseStep
    ensures ControllerWritten(Calculated(s, req, now)) && OnlyStepPauses(Calculated(s, req, now))
  {
    hide Calculated, HasReason;
    WrittenExactly(s, req, now);
    ListedReasons(s, req, now, BlueGreenPause);
    ListedReasons(s, req, now, InconclusiveAnalysis);
  }

  lemma {:induction false} ReconcileWritesStepPauses(t: T.Traced, env: Env)
    requires Coherent(t.status.pause) && OnlyStepPauses(t.status.pause) && Calm(T.Reconcile(env))
    ensures var s := T.Next(t, T.Reconcile(env)).status.pause; ControllerWritten(s) && OnlyStepPauses(s)
  {
    hide Calculated, HasReason, Coherent, ControllerWritten, OnlyStepPauses, Changed, StepCompleted, ShouldPromote,
         IsAborted, T.LogAfter;
    var s, req, now := t.status.pause, RequestsAtSync(t.spec, t.status, env), env.now;
    WrittenHasStepPauses(s, req, now);
    WrittenHasStepPauses(s, req.(clear := true, removeAbort := true), now);
    WrittenHasStepPauses(s, req.(remove := req.remove + [CanaryPauseStep]), now);
    WrittenHasStepPauses(s, req.(clear := true, removeAbort := true, remove := req.remove + [CanaryPauseStep]), now);
  }

  lemma {:induction false} NothingListed()
    ensures forall r :: !HasReason([], r)
  {
  }

  lemma {:induction false} UserKeepsStepPauses(trace: seq<T.Traced>, events: seq<T.Event>, i: nat, next: nat)
    requires next == i + 1 <= |events| && |trace| == |events| + 1 && !events[i].Reconcile? && trace[next] == T.Next(trace[i], events[i])
    requires Coherent(trace[i].status.pause) && OnlyStepPauses(trace[i].status.pause)
    requires trace[i].status.pause.controllerPause && trace[i].status.pause.conditions == [] ==> Resumed(events, i)
    ensures Coherent(trace[next].status.pause) && OnlyStepPauses(trace[next].status.pause)
    ensures trace[next].status.pause.controllerPause && trace[next].status.pause.conditions == [] ==> Resumed(events, next)
  {
    hide HasReason, Reconciled, T.LogAfter;
    NothingListed();
    if Resumed(events, i) {
      var r :| 0 <= r < i && events[r].UserResumes? && forall m :: r < m < i ==> !events[m].Reconcile?;
      assert Resumed(events, next);
    }
  }

  // In such a run the controller pauses the rollout at pause steps only, and ControllerPause without a condition means
  // that a user has resumed the rollout since the last reconcile.
  lemma {:induction false} ReachablePauses(trace: seq<T.Traced>, events: seq<T.Event>, i: nat)
    requires IsCalmTrace(trace, events) && i < |trace|
    ensures Coherent(trace[i].status.pause) && OnlyStepPauses(trace[i].status.pause)
    ensures trace[i].status.pause.controllerPause && trace[i].status.pause.conditions == [] ==> Resumed(events, i)
  {
    hide T.Next, HasReason, Resumed;
    NothingListed();
    if i > 0 {
      var t, e := trace[i - 1], events[i - 1];
      ReachablePauses(trace, events, i - 1);
      assert trace[i] == T.Next(t, e);
      if e.Reconcile? {
        ReconcileWritesStepPauses(t, e.env);
      } else {
        UserKeepsStepPauses(trace, events, i - 1, i);
      }
    }
  }

  /******* Where a pause comes from *******/

  // The controller paused the rollout in the q-th event, at a pause step, and the same pause has been listed since; all
  // reconciles since then have left the index to the users.
  ghost predicate PausedFrom(trace: seq<T.Traced>, events: seq<T.Event>, q: nat, i: nat) {
    && q < i < |trace| == |events| + 1 && events[q].Reconcile? && AtPauseStep(trace[q])
    && (forall x :: q < x <= i ==> StepPause(trace[x].status.pause) == Some(PauseCondition(CanaryPauseStep, events[q].env.now)))
    && forall x :: q <= x < i && events[x].Reconcile? ==> KeepsIndex(trace[x], trace[x + 1])
  }

  predicate KeepsIndex(t: T.Traced, t': T.Traced) {
    t.status.stepIndex.Some? ==> t'.status.stepIndex == t.status.stepIndex
  }

  lemma {:induction false} FirstStays(a: seq<PauseCondition>, b: seq<PauseCondition>, reason: Reason)
    requires GetPauseCondition(a, reason).Some?
    ensures GetPauseCondition(a + b, reason) == GetPauseCondition(a, reason)
  {
    if a[0].reason != reason {
      assert (a + b)[1..] == a[1..] + b;
      FirstStays(a[1..], b, reason);
    }
  }

  // A pause that is listed stays as it is or goes.
  lemma {:induction false} StepPauseStays(s: PauseStatus, req: Requests, now: int)
    requires StepPause(s).Some? && (req.remove == [] || req.clear || CanaryPauseStep in req.remove)
    ensures var s' := Calculated(s, req, now);
            StepPause(s').None?
            || (StepPause(s') == StepPause(s) && !req.clear && CanaryPauseStep !in req.remove && !IsAborted(s, req))
  {
    var s' := Calculated(s, req, now);
    if StepPause(s').Some? {
      ListedReasons(s, req, now, CanaryPauseStep);
      FoundIffPresent(s.conditions, CanaryPauseStep);
      FoundIffPresent(s'.conditions, CanaryPauseStep);
      KeptAll(s.conditions, |s.conditions|);
      assert s.conditions[..|s.conditions|] == s.conditions;
      FirstStays(s.conditions, Added(s.conditions, req.add, now, |req.add|), CanaryPauseStep);
    }
  }

  lemma {:induction false} PauseKeepsIndex(t: T.Traced, env: Env)
    requires Calm(T.Reconcile(env)) && StepPause(t.status.pause).Some? && T.Ranged(t)
    ensures var t' := T.Next(t, T.Reconcile(env));
            StepPause(t'.status.pause).None? || (StepPause(t'.status.pause) == StepPause(t.status.pause) && KeepsIndex(t, t'))
  {
    hide Calculated, StepPause, StepCompleted, ShouldPromote, IsAborted, T.LogAfter, CurrentStep;
    var s, req, now := t.status.pause, RequestsAtSync(t.spec, t.status, env), env.now;
    StepPauseStays(s, req, now);
    StepPauseStays(s, req.(clear := true, removeAbort := true), now);
    StepPauseStays(s, req.(remove := req.remove + [CanaryPauseStep]), now);
    StepPauseStays(s, req.(clear := true, removeAbort := true, remove := req.remove + [CanaryPauseStep]), now);
  }

  lemma {:induction false} PauseStartsAtStep(t: T.Traced, env: Env)
    requires Calm(T.Reconcile(env)) && StepPause(t.status.pause).None? && StepPause(T.Next(t, T.Reconcile(env)).status.pause).Some?
    ensures StepPause(T.Next(t, T.Reconcile(env)).status.pause) == Some(PauseCondition(CanaryPauseStep, env.now))
    ensures AtPauseStep(t) && KeepsIndex(t, T.Next(t, T.Reconcile(env)))
  {
    hide Calculated, StepPause, HasReason, RequestsAtSync, T.LogAfter;
    PauseStartsExactlyWhen(t, env);
    PauseIsAskedExactlyWhen(t, env);
    OutcomeAtPause(t, env, RequestsAtSync(t.spec, t.status, env));
  }

  // Every pause that is listed at a step has such an origin.
  lemma {:induction false} PauseHasOrigin(trace: seq<T.Traced>, events: seq<T.Event>, i: nat)
    requires IsCalmTrace(trace, events) && i < |trace| && StepPause(trace[i].status.pause).Some?
    ensures exists q :: 0 <= q < i && PausedFrom(trace, events, q, i)
  {
    hide T.Next, StepPause, AtPauseStep, KeepsIndex, T.Ranged;
    StartsUnpaused(trace[0].status.pause);
    assert i > 0;
    var t, e := trace[i - 1], events[i - 1];
    assert trace[i] == T.Next(t, e);
    T.ReachableIsRanged(trace, events, i - 1);
    if StepPause(t.status.pause).None? {
      if !e.Reconcile? {
        UserStartsNoPause(t, e);
        assert false;
      }
      PauseStartsAtStep(t, e.env);
      assert PausedFrom(trace, events, i - 1, i);
    } else {
      PauseHasOrigin(trace, events, i - 1);
      var q :| 0 <= q < i - 1 && PausedFrom(trace, events, q, i - 1);
      PauseGoesOn(trace, events, q, i - 1, i);
    }
  }

  lemma {:induction false} PauseGoesOn(trace: seq<T.Traced>, events: seq<T.Event>, q: nat, i: nat, next: nat)
    requires PausedFrom(trace, events, q, i) && next == i + 1 < |trace| && trace[next] == T.Next(trace[i], events[i])
    requires Calm(events[i]) && T.Ranged(trace[i]) && StepPause(trace[next].status.pause).Some?
    ensures PausedFrom(trace, events, q, next)
  {
    hide T.Next, StepPause, AtPauseStep, KeepsIndex, T.Ranged;
    if events[i].Reconcile? {
      PauseKeepsIndex(trace[i], events[i].env);
    } else {
      UserStartsNoPause(trace[i], events[i]);
    }
  }

  lemma {:induction false} StartsUnpaused(s: PauseStatus)
    ensures s.conditions == [] ==> StepPause(s).None?
  {
  }

  lemma {:induction false} UserStartsNoPause(t: T.Traced, e: T.Event)
    requires !e.Reconcile?
    ensures var before, after := StepPause(t.status.pause), StepPause(T.Next(t, e).status.pause); after.None? || after == before
  {
  }

  // Without a skip the index is the one at which the pause began.
  lemma {:induction false} IndexIsKept(trace: seq<T.Traced>, events: seq<T.Event>, q: nat, i: nat)
    requires IsCalmTrace(trace, events) && PausedFrom(trace, events, q, i) && trace[q].status.stepIndex.Some?
    requires forall x :: q <= x < i ==> !events[x].UserSkipsStep?
    ensures trace[i].status.stepIndex == trace[q].status.stepIndex
  {
    hide Reconciled, StepPause, T.LogAfter, AtPauseStep;
    assert trace[i] == T.Next(trace[i - 1], events[i - 1]);
    if i > q + 1 {
      IndexIsKept(trace, events, q, i - 1);
    }
  }

  /******* What ends a pause step *******/

  // The pause that the controller began in the q-th event has lasted for the step's duration; and unless a user has
  // skipped a step since, it has been at this step all the time.
  ghost predicate LastedSince(trace: seq<T.Traced>, events: seq<T.Event>, q: nat, m: nat, duration: Option<int>)
    requires m < |events|
  {
    && PausedFrom(trace, events, q, m) && events[m].Reconcile?
    && duration.Some? && events[m].env.now > events[q].env.now + duration.value
    && ((forall x :: q <= x < m ==> !events[x].UserSkipsStep?) && trace[q].status.stepIndex.Some? ==>
          trace[m].status.stepIndex == trace[q].status.stepIndex)
  }

  // In a run without inconclusive analyses the controller completes a pause step only when a user has resumed the
  // rollout since the last reconcile, or when the step has a duration and the pause has lasted for it.
  lemma {:induction false} PauseStepLasts(trace: seq<T.Traced>, events: seq<T.Event>, m: nat)
    requires IsCalmTrace(trace, events) && m < |events| && events[m].Reconcile? && AtPauseStep(trace[m])
    requires T.Outcome(trace[m], events[m].env).StepDone?
    ensures var duration := trace[m].spec.steps[IndexOf(trace[m])].pause.value.duration;
            Resumed(events, m) || exists q :: 0 <= q < m && LastedSince(trace, events, q, m, duration)
  {
    hide Reconciled, Resumed, HasReason, T.LogAfter, RequestsAtSync, ShouldPromote, Changed, IsAborted, PausedFrom;
    var t, env := trace[m], events[m].env;
    var s, duration := t.status.pause, t.spec.steps[IndexOf(t)].pause.value.duration;
    ReachablePauses(trace, events, m);
    T.StepDoneIsCompleted(t, env);
    assert CompletedCanaryPauseStep(s, duration, env.now);
    if !Resumed(events, m) {
      FoundIffPresent(s.conditions, CanaryPauseStep);
      NoReasonNoCondition(s.conditions);
      PauseHasOrigin(trace, events, m);
      var q :| 0 <= q < m && PausedFrom(trace, events, q, m);
      PauseSince(trace, events, q, m);
      if (forall x :: q <= x < m ==> !events[x].UserSkipsStep?) && trace[q].status.stepIndex.Some? {
        IndexIsKept(trace, events, q, m);
      }
      assert LastedSince(trace, events, q, m, duration);
    }
  }

  lemma {:induction false} PauseSince(trace: seq<T.Traced>, events: seq<T.Event>, q: nat, m: nat)
    requires PausedFrom(trace, events, q, m)
    ensures GetPauseCondition(trace[m].status.pause.conditions, CanaryPauseStep) ==
            Some(PauseCondition(CanaryPauseStep, events[q].env.now))
  {
  }

  // At a step whose pause is listed the controller goes by that pause alone, whichever step it began at: the step is
  // completed exactly when it has a duration and the listed pause is older.
  lemma {:induction false} ListedPauseDecides(t: T.Traced, env: Env)
    requires OfAnalysis(env.analysis) && AtPauseStep(t) && StepPause(t.status.pause).Some?
    requires Unchanging(t, env) && env.stableRS.Some? && !t.spec.paused && !t.status.promoteFull
    requires !t.status.pause.abort && !env.analysis.addAbort
    ensures var duration := t.spec.steps[IndexOf(t)].pause.value.duration;
            T.Next(t, T.Reconcile(env)).status.stepIndex ==
            Some(IndexOf(t) + if duration.Some? && env.now > StepPause(t.status.pause).value.startTime + duration.value then 1 else 0)
  {
    hide Calculated, T.LogAfter, AtDesiredReplicaCounts;
  }

  // All that makes the index leave a pause step: a user skips it, the rollout is reset, aborted or promoted, or the
  // controller completes the step.
  lemma {:induction false} PauseStepIsLeft(trace: seq<T.Traced>, events: seq<T.Event>, m: nat)
    requires IsCalmTrace(trace, events) && m < |events| && AtPauseStep(trace[m])
    requires trace[m].status.stepIndex.Some? && trace[m + 1].status.stepIndex != trace[m].status.stepIndex
    ensures || events[m].UserSkipsStep?
            || (events[m].Reconcile? &&
                (|| T.Outcome(trace[m], events[m].env).Reset? || T.Outcome(trace[m], events[m].env).Aborted?
                 || T.Outcome(trace[m], events[m].env).Promoted? || trace[m].status.promoteFull
                 || Resumed(events, m)
                 || exists q :: 0 <= q < m && LastedSince(trace, events, q, m, trace[m].spec.steps[IndexOf(trace[m])].pause.value.duration)))
  {
    hide Resumed, LastedSince, StepCompleted, Changed, ShouldPromote, IsAborted, Calculated, T.LogAfter, RequestsAtSync;
    assert trace[m + 1] == T.Next(trace[m], events[m]);
    if events[m].Reconcile? && T.Outcome(trace[m], events[m].env).StepDone? {
      PauseStepLasts(trace, events, m);
    }
  }

  /******* A pause that is inherited *******/

  function TwoPauses(templateHash: string): Spec {
    var step := CanaryStep(None, Some(RolloutPause(Some(60))), None, false, false);
    Spec(Some(1), [step, step], false, templateHash, false, None, None)
  }

  function Seeing(newHash: string, stable: Option<ReplicaSet>, now: int): T.Event {
    T.Reconcile(Env(Some(T.UpSet(newHash)), stable, [], None, false, false, NO_REQUESTS, false, false, now))
  }

  const FIRST_PAUSE := PauseStatus(false, None, true, [PauseCondition(CanaryPauseStep, 0)])

  // Version a is deployed; version b comes and is paused at the first step, which the user skips after 50 seconds.
  function Skipping(): seq<T.Event> {
    var stable := Some(T.UpSet("a"));
    [Seeing("a", None, 0), Seeing("a", None, 0), T.UserEdits(TwoPauses("b")), Seeing("b", stable, 0), Seeing("b", stable, 0),
     Seeing("b", stable, 50), T.UserSkipsStep, Seeing("b", stable, 61)]
  }

  function Skipped(): seq<T.Traced> {
    var a, b, steps := TwoPauses("a"), TwoPauses("b"), Some(TwoPauses("a").steps);
    var s2 := Status("a", "a", steps, Some(2), false, NEVER_PAUSED);
    var s4 := Status("a", "b", steps, Some(0), false, NEVER_PAUSED);
    var s5 := s4.(pause := FIRST_PAUSE);
    [T.Traced(a, Status("", "", None, None, false, NEVER_PAUSED), [], ""),
     T.Traced(a, Status("", "a", steps, Some(0), false, NEVER_PAUSED), [], "a"),
     T.Traced(a, s2, [], "a"), T.Traced(b, s2, [], "a"), T.Traced(b, s4, [], "b"), T.Traced(b, s5, [], "b"),
     T.Traced(b, s5, [], "b"), T.Traced(b, s5.(stepIndex := Some(1)), [T.Entry(0, true)], "b"),
     T.Traced(b, s4.(stepIndex := Some(2)), [T.Entry(0, true), T.Entry(1, false)], "b")]
  }

  lemma {:induction false} SkippingPauses(req: Requests, now: int)
    ensures (req.add == [] || req.clear) && !req.addAbort ==> Calculated(NEVER_PAUSED, req, now) == NEVER_PAUSED
    ensures Calculated(NEVER_PAUSED, NO_REQUESTS.(add := [CanaryPauseStep]), 0) == FIRST_PAUSE
    ensures Calculated(FIRST_PAUSE, NO_REQUESTS, now) == FIRST_PAUSE
    ensures Calculated(FIRST_PAUSE, NO_REQUESTS.(remove := [CanaryPauseStep]), now) == NEVER_PAUSED
  {
    var conditions := FIRST_PAUSE.conditions;
    assert Kept([], req.remove, 0) == [] && Added([], [], now, 0) == [] && Kept([], [], 0) == [];
    assert Added([], [CanaryPauseStep], 0, 1) == Added([], [CanaryPauseStep], 0, 0) + conditions;
    assert Kept(conditions, [], 1) == Kept(conditions, [], 0) + conditions;
    assert Kept(conditions, [CanaryPauseStep], 1) == Kept(conditions, [CanaryPauseStep], 0) + [];
    assert Added(conditions, [], now, 0) == [];
  }

  lemma {:induction false} BeforeFirstPause(i: nat)
    requires i < 4
    ensures T.Next(Skipped()[i], Skipping()[i]) == Skipped()[i + 1]
  {
    hide AtDesiredReplicaCounts, Calculated, CompletedCanaryPauseStep, StepCompleted, GetPauseCondition;
    if i != 2 {
      var t, env := Skipped()[i], Skipping()[i].env;
      SkippingPauses(RequestsAtSync(t.spec, t.status, env).(clear := true, removeAbort := true), env.now);
      assert T.Outcome(t, env) == if i == 1 then Promoted else Reset;
    }
  }

  lemma {:induction false} FirstPauseStep(i: nat)
    requires i == 4 || i == 5
    ensures T.Next(Skipped()[i], Skipping()[i]) == Skipped()[i + 1]
  {
    hide AtDesiredReplicaCounts, Calculated;
    var t, env := Skipped()[i], Skipping()[i].env;
    SkippingPauses(NO_REQUESTS, env.now);
    assert RequestsAtSync(t.spec, t.status, env) == if i == 4 then NO_REQUESTS.(add := [CanaryPauseStep]) else NO_REQUESTS;
    assert T.Outcome(t, env) == Unchanged;
  }

  lemma {:induction false} SecondPauseStep()
    ensures T.Next(Skipped()[7], Skipping()[7]) == Skipped()[8]
  {
    hide AtDesiredReplicaCounts, Calculated;
    var t, env := Skipped()[7], Skipping()[7].env;
    SkippingPauses(NO_REQUESTS, env.now);
    assert RequestsAtSync(t.spec, t.status, env) == NO_REQUESTS;
    assert T.Outcome(t, env) == StepDone;
    assert [] + [CanaryPauseStep] == [CanaryPauseStep];
  }

  lemma {:induction false} SkippingStep(i: nat)
    requires i < 8
    ensures |Skipping()| == 8 && |Skipped()| == 9
    ensures T.Sensible(Skipped()[i], Skipping()[i]) && Calm(Skipping()[i]) && T.Next(Skipped()[i], Skipping()[i]) == Skipped()[i + 1]
  {
    hide Reconciled, T.LogAfter;
    if i < 4 { BeforeFirstPause(i); }
    if i == 4 || i == 5 { FirstPauseStep(i); }
    if i == 7 { SecondPauseStep(); }
  }

  // That a pause step lasts for its duration is false when a user skips the pause step before it: the second step of 60
  // seconds, reached after 50, is over after 61.
  lemma {:induction false} PauseIsInherited()
    ensures IsCalmTrace(Skipped(), Skipping())
    ensures Skipped()[6].status.stepIndex == Some(0) && Skipping()[5].env.now == 50
    ensures Skipped()[7].status.stepIndex == Some(1) && Skipped()[8].status.stepIndex == Some(2) && Skipping()[7].env.now == 61
    ensures Skipped()[7].spec.steps[1].pause == Some(RolloutPause(Some(60)))
  {
    hide T.Next, T.Sensible, Calm;
    forall i | 0 <= i < 8
      ensures T.Sensible(Skipped()[i], Skipping()[i]) && Calm(Skipping()[i]) && T.Next(Skipped()[i], Skipping()[i]) == Skipped()[i + 1]
    {
      SkippingStep(i);
    }
  }
}
