// Which steps a canary has taken before its ReplicaSet becomes the stable one, over whole runs.
module CanaryTrace {
  import opened Wrappers
  import opened ReplicaSets
  import opened CanaryPlanner
  import opened Pause
  import opened CanaryStatus

  // A step that is behind the rollout: completed by the controller, or skipped by a user.
  datatype Entry = Entry(index: int, byUser: bool)

  // A rollout with the steps taken since its last reset or abort and the hash that reset was for.
  datatype Traced = Traced(spec: Spec, status: Status, log: seq<Entry>, since: string)

  datatype Event =
    | Reconcile(env: Env)
    | ReconcileFails
    | UserEdits(spec: Spec)
    | UserResumes
    | UserAborts
    | UserRetries
    | UserSkipsStep
    | UserPromotesFull

  function Outcome(t: Traced, env: Env): CanaryStatus.Outcome {
    OutcomeOf(t.spec, t.status, env, RequestsAtSync(t.spec, t.status, env))
  }

  function Index(t: Traced): Option<int> { CurrentStepIndex(RolloutOf(t.spec, t.status)) }

  function LogAfter(t: Traced, env: Env): seq<Entry> {
    match Outcome(t, env)
    case Reset => []
    case Aborted => []
    case StepDone => t.log + (if Index(t).Some? then [Entry(Index(t).value, false)] else [])
    case _ => t.log
  }

  function Next(t: Traced, e: Event): Traced {
    match e
    case Reconcile(env) =>
      Traced(t.spec, Reconciled(t.spec, t.status, env), LogAfter(t, env),
             if Outcome(t, env).Reset? then NewHash(t.spec, env) else t.since)
    case ReconcileFails => t
    case UserEdits(spec) => t.(spec := spec)
    case UserResumes => t.(status := t.status.(pause := Pause.Next(t.status.pause, Pause.UserResumes)))
    case UserAborts => t.(status := t.status.(pause := Pause.Next(t.status.pause, Pause.UserAborts)))
    case UserRetries => t.(status := t.status.(pause := Pause.Next(t.status.pause, Pause.UserRetries)))
    case UserSkipsStep =>
      if Index(t).Some? && Index(t).value < |t.spec.steps|
      then t.(status := t.status.(stepIndex := Some(Index(t).value + 1)), log := t.log + [Entry(Index(t).value, true)])
      else t
    case UserPromotesFull => t.(status := t.status.(promoteFull := true))
  }

  // Sets carry hashes, the stable set is there once it is known, and users skip steps that the controller has seen.
  predicate Sensible(t: Traced, e: Event) {
    match e
    case Reconcile(env) => NewHash(t.spec, env) != "" && (t.status.stableHash != "" ==> env.stableRS.Some?)
    case UserSkipsStep => t.status.stepHash == Some(t.spec.steps)
    case _ => true
  }

  predicate InOrder(log: seq<Entry>) { forall j :: 0 <= j < |log| ==> log[j].index == j }

  // The index stays within the steps that the controller last saw, and the log lists the steps before it, unless
  // the rollout is at its stable hash.
  predicate Tracked(t: Traced) {
    t.status.stepHash.Some? ==>
      var steps := t.status.stepHash.value;
      && (steps == [] ==> t.status.stepIndex.None?)
      && (steps != [] ==> t.status.stepIndex.Some? && 0 <= t.status.stepIndex.value <= |steps|)
      && t.status.currentPodHash != "" && t.since == t.status.currentPodHash
      && (|| t.status.stableHash == t.status.currentPodHash
          || (InOrder(t.log) && |t.log| == if steps == [] then 0 else t.status.stepIndex.value))
  }

  // A rollout as a user created it.
  predicate Initial(t: Traced) {
    t.status == Status("", "", None, None, false, NEVER_PAUSED) && t.log == [] && t.since == ""
  }

  ghost predicate IsTrace(trace: seq<Traced>, events: seq<Event>) {
    && |trace| == |events| + 1 && Initial(trace[0])
    && forall i :: 0 <= i < |events| ==> Sensible(trace[i], events[i]) && trace[i + 1] == Next(trace[i], events[i])
  }

  // Without a full promotion the index stays within the steps and moves by at most one, except at a reset,
  // an abort or a promotion.
  lemma {:induction false} IndexMovesByOne(t: Traced, env: Env)
    requires Tracked(t) && Sensible(t, Reconcile(env)) && !t.status.promoteFull
    requires Outcome(t, env).StepDone? || Outcome(t, env).Unchanged?
    ensures var before, after := Index(t), Next(t, Reconcile(env)).status.stepIndex;
            if Outcome(t, env).StepDone? then StepCompleted(t.spec, t.status, env) && before.Some? && before.value < |t.spec.steps| && after == Some(before.value + 1)
            else after == before
  {
    hide AtDesiredReplicaCounts, ShouldPromote, Calculated, RequestsAtSync;
  }

  lemma {:induction false} ReconcileIsTracked(t: Traced, env: Env)
    requires Tracked(t) && Sensible(t, Reconcile(env)) && !t.status.promoteFull
    ensures Tracked(Next(t, Reconcile(env)))
  {
    hide StepCompleted, ShouldPromote, Calculated, RequestsAtSync, CurrentStep;
    if Outcome(t, env).StepDone? {
      IndexMovesByOne(t, env);
    }
  }

  lemma {:induction false} ReachableIsTracked(trace: seq<Traced>, events: seq<Event>, i: nat)
    requires IsTrace(trace, events) && i < |trace|
    requires forall j :: 0 <= j < i ==> !events[j].UserPromotesFull?
    ensures Tracked(trace[i]) && !trace[i].status.promoteFull
  {
    hide Reconciled, Tracked;
    if i == 0 {
      InitialIsTracked(trace[0]);
    } else {
      ReachableIsTracked(trace, events, i - 1);
      StepIsTracked(trace[i - 1], events[i - 1]);
    }
  }

  lemma {:induction false} InitialIsTracked(t: Traced)
    requires Initial(t)
    ensures Tracked(t) && !t.status.promoteFull
  {
  }

  lemma {:induction false} StepIsTracked(t: Traced, e: Event)
    requires Tracked(t) && Sensible(t, e) && !t.status.promoteFull && !e.UserPromotesFull?
    ensures Tracked(Next(t, e)) && !Next(t, e).status.promoteFull
  {
    hide StepCompleted, ShouldPromote, Calculated, RequestsAtSync, CurrentStep;
    if e.Reconcile? {
      ReconcileIsTracked(t, e.env);
    }
  }

  // The stable hash moves from one hash to another only in a reconcile that finds the new set fully available
  // and the rollout not aborted, after all steps, from the first to the last, were taken since the reset that
  // introduced the new hash.
  lemma {:induction false} StableMovesAfterAllSteps(trace: seq<Traced>, events: seq<Event>, i: nat)
    requires IsTrace(trace, events) && i < |events|
    requires forall j :: 0 <= j <= i ==> !events[j].UserPromotesFull?
    requires trace[i].status.stableHash != "" && trace[i + 1].status.stableHash != trace[i].status.stableHash
    ensures events[i].Reconcile?
    ensures var t, env, stable := trace[i], events[i].env, trace[i + 1].status.stableHash;
            && env.newRS.Some? && env.newRS.value.hash == stable == t.since
            && env.newRS.value.available == ReplicasOrDefault(RolloutOf(t.spec, t.status))
            && InOrder(t.log) && |t.log| == |t.spec.steps|
            && !IsAborted(t.status.pause, RequestsAtSync(t.spec, t.status, env))
  {
    hide StepCompleted, Calculated, RequestsAtSync, CurrentStep;
    ReachableIsTracked(trace, events, i);
    assert trace[i + 1] == Next(trace[i], events[i]);
  }

  // In the k-th event the controller completed the step: it was the current one and its own condition held.
  predicate EarnedAt(trace: seq<Traced>, events: seq<Event>, k: nat, index: int)
    requires k < |events| && |trace| == |events| + 1
  {
    && events[k].Reconcile? && Outcome(trace[k], events[k].env).StepDone?
    && Index(trace[k]) == Some(index) && StepCompleted(trace[k].spec, trace[k].status, events[k].env)
  }

  predicate TakenAt(trace: seq<Traced>, events: seq<Event>, k: nat, entry: Entry)
    requires k < |events| && |trace| == |events| + 1
  {
    if entry.byUser then events[k].UserSkipsStep? && Index(trace[k]) == Some(entry.index)
    else EarnedAt(trace, events, k, entry.index)
  }

  predicate NoRestart(trace: seq<Traced>, events: seq<Event>, k: nat, i: nat)
    requires i <= |events| && |trace| == |events| + 1
  {
    forall m :: k < m < i && events[m].Reconcile? ==> !Outcome(trace[m], events[m].env).Reset? && !Outcome(trace[m], events[m].env).Aborted?
  }

  // The events at which the entries of the log in the i-th state were taken: in the order of the log, and with no
  // reset or abort since.
  ghost predicate IsSchedule(trace: seq<Traced>, events: seq<Event>, i: nat, ks: seq<nat>)
    requires i < |trace| == |events| + 1
  {
    && |ks| == |trace[i].log|
    && (forall j :: 0 <= j < |ks| ==> ks[j] < i && TakenAt(trace, events, ks[j], trace[i].log[j]) && NoRestart(trace, events, ks[j], i))
    && forall j, l :: 0 <= j < l < |ks| ==> ks[j] < ks[l]
  }

  // Every entry of the log was earned or skipped by a user, in the order of the steps.
  lemma {:induction false} EntriesAreEarned(trace: seq<Traced>, events: seq<Event>, i: nat)
    requires IsTrace(trace, events) && i < |trace|
    ensures exists ks: seq<nat> :: IsSchedule(trace, events, i, ks)
  {
    hide Reconciled, StepCompleted, RequestsAtSync, Changed, ShouldPromote, IsAborted;
    if i == 0 {
      assert IsSchedule(trace, events, i, []);
    } else {
      EntriesAreEarned(trace, events, i - 1);
      var ks :| IsSchedule(trace, events, i - 1, ks);
      ScheduleStep(trace, events, i - 1, i, ks);
    }
  }

  lemma {:induction false} ScheduleStep(trace: seq<Traced>, events: seq<Event>, i: nat, next: nat, ks: seq<nat>)
    requires i < |events| && next == i + 1 && |trace| == |events| + 1 && trace[i + 1] == Next(trace[i], events[i])
    requires IsSchedule(trace, events, i, ks)
    ensures exists ks': seq<nat> :: IsSchedule(trace, events, next, ks')
  {
    hide Reconciled, StepCompleted, Outcome, Index;
    var t, e, log := trace[i], events[i], trace[i + 1].log;
    if e.Reconcile? && (Outcome(t, e.env).Reset? || Outcome(t, e.env).Aborted?) {
      assert IsSchedule(trace, events, next, []);
    } else {
      assert forall j :: 0 <= j < |ks| ==> NoRestart(trace, events, ks[j], i + 1);
      if log == t.log {
        assert IsSchedule(trace, events, next, ks);
      } else {
        if e.Reconcile? { StepDoneIsCompleted(t, e.env); }
        assert |log| == |t.log| + 1 && log[..|t.log|] == t.log && TakenAt(trace, events, i, log[|t.log|]);
        assert NoRestart(trace, events, i, i + 1);
        assert IsSchedule(trace, events, next, ks + [i]);
      }
    }
  }

  lemma {:induction false} StepDoneIsCompleted(t: Traced, env: Env)
    ensures Outcome(t, env).StepDone? ==> StepCompleted(t.spec, t.status, env)
  {
    hide StepCompleted, Changed, ShouldPromote, IsAborted;
  }

  /******* Requested full promotions *******/

  // With full promotions in play the index can be one more than the number of steps, but only while one is requested.
  predicate Ranged(t: Traced) {
    t.status.stepHash.Some? ==>
      var steps := t.status.stepHash.value;
      && (steps == [] ==> t.status.stepIndex.None?)
      && (steps != [] ==> t.status.stepIndex.Some? && 0 <= t.status.stepIndex.value <= |steps| + (if t.status.promoteFull then 1 else 0))
      && t.status.currentPodHash != ""
  }

  predicate Overrun(t: Traced) {
    t.status.stepHash.Some? && t.status.stepIndex.Some? && t.status.stepIndex.value > |t.status.stepHash.value|
  }

  lemma {:induction false} ReconcileIsRanged(t: Traced, env: Env)
    requires Ranged(t) && Sensible(t, Reconcile(env))
    ensures Ranged(Next(t, Reconcile(env)))
    ensures Overrun(t) ==> t.status.promoteFull && !Overrun(Next(t, Reconcile(env)))
  {
    hide AtDesiredReplicaCounts, ShouldPromote, Calculated, RequestsAtSync, LogAfter, IsAborted, StepCompleted, NewHash;
    if StepCompleted(t.spec, t.status, env) {
      CompletedStepIsInRange(t, env);
    }
  }

  lemma {:induction false} CompletedStepIsInRange(t: Traced, env: Env)
    requires StepCompleted(t.spec, t.status, env)
    ensures CurrentStepIndex(RolloutOf(t.spec, t.status)).Some?
    ensures 0 <= CurrentStepIndex(RolloutOf(t.spec, t.status)).value < |t.spec.steps|
  {
    hide AtDesiredReplicaCounts, CompletedCanaryPauseStep;
  }

  lemma {:induction false} ReachableIsRanged(trace: seq<Traced>, events: seq<Event>, i: nat)
    requires IsTrace(trace, events) && i < |trace|
    ensures Ranged(trace[i])
  {
    hide Reconciled, LogAfter, Outcome;
    if i > 0 {
      ReachableIsRanged(trace, events, i - 1);
      assert trace[i] == Next(trace[i - 1], events[i - 1]);
      if events[i - 1].Reconcile? {
        ReconcileIsRanged(trace[i - 1], events[i - 1].env);
      }
    }
  }

  // In every run, full promotions included, an index past the steps is put back by the next reconcile.
  lemma {:induction false} OverrunIsPutBack(trace: seq<Traced>, events: seq<Event>, i: nat)
    requires IsTrace(trace, events) && i < |events| && events[i].Reconcile? && Overrun(trace[i])
    ensures trace[i].status.promoteFull && trace[i].status.stepIndex.value == |trace[i].status.stepHash.value| + 1
    ensures !Overrun(trace[i + 1])
  {
    hide Reconciled, LogAfter, Outcome;
    ReachableIsRanged(trace, events, i);
    ReconcileIsRanged(trace[i], events[i].env);
  }

  // The index leaves 0..stepCount exactly when a full promotion is requested of a rollout whose template and steps
  // have not changed and whose new set is not fully available, while its current step happens to be complete.
  lemma {:induction false} IndexOverrunsExactlyWhen(t: Traced, env: Env)
    requires Ranged(t) && Sensible(t, Reconcile(env)) && t.spec.steps != []
    ensures var after := Next(t, Reconcile(env)).status.stepIndex;
            && after.Some? && 0 <= after.value <= |t.spec.steps| + 1
            && (after.value == |t.spec.steps| + 1 <==>
                  && t.status.promoteFull && !Changed(t.spec, t.status, env) && env.stableRS.Some?
                  && !(env.newRS.Some? && env.newRS.value.available == ReplicasOrDefault(RolloutOf(t.spec, t.status)))
                  && StepCompleted(t.spec, t.status, env))
  {
    hide AtDesiredReplicaCounts, Calculated, RequestsAtSync, LogAfter;
  }

  // Such a reconcile exists: a full promotion is requested at the last step, an analysis that has succeeded,
  // while the new set is not yet fully available.
  lemma {:induction false} IndexCanOverrun(newRS: ReplicaSet, stableRS: ReplicaSet)
    requires newRS.hash == "new" && stableRS.hash == "stable" && newRS.available == 0
    ensures var spec := Spec(Some(1), [CanaryStep(None, None, None, false, true)], false, "new", false, None, None);
            var status := Status("stable", "new", Some(spec.steps), Some(0), true, NEVER_PAUSED);
            var env := Env(Some(newRS), Some(stableRS), [], None, false, true, NO_REQUESTS, false, false, 0);
            Reconciled(spec, status, env).stepIndex == Some(2)
  {
  }

  /******* A pause step that no user ends *******/

  function OnePause(templateHash: string): Spec {
    Spec(Some(1), [CanaryStep(None, Some(RolloutPause(None)), None, false, false)], false, templateHash, false, None, None)
  }

  function UpSet(hash: string): ReplicaSet { ReplicaSet(hash, hash, 0, 1, 1, None, NoDeadline) }

  function Finding(newHash: string, stable: Option<ReplicaSet>, requests: Requests): Env {
    Env(Some(UpSet(newHash)), stable, [], None, false, false, requests, false, false, 0)
  }

  // Version a is deployed; version b comes, and an analysis pauses the rollout as it arrives at its pause step.
  function Arriving(): seq<Event> {
    var stable, inconclusive := Some(UpSet("a")), NO_REQUESTS.(add := [InconclusiveAnalysis]);
    [Reconcile(Finding("a", None, NO_REQUESTS)), Reconcile(Finding("a", None, NO_REQUESTS)), UserEdits(OnePause("b")),
     Reconcile(Finding("b", stable, NO_REQUESTS)), Reconcile(Finding("b", stable, inconclusive)),
     Reconcile(Finding("b", stable, NO_REQUESTS))]
  }

  const BY_ANALYSIS := PauseStatus(false, None, true, [PauseCondition(InconclusiveAnalysis, 0)])

  function Arrival(): seq<Traced> {
    var steps := Some(OnePause("a").steps);
    var s0 := Status("", "", None, None, false, NEVER_PAUSED);
    var s1 := Status("", "a", steps, Some(0), false, NEVER_PAUSED);
    var s2 := Status("a", "a", steps, Some(1), false, NEVER_PAUSED);
    var s4 := Status("a", "b", steps, Some(0), false, NEVER_PAUSED);
    var s5 := s4.(pause := BY_ANALYSIS);
    [Traced(OnePause("a"), s0, [], ""), Traced(OnePause("a"), s1, [], "a"), Traced(OnePause("a"), s2, [], "a"),
     Traced(OnePause("b"), s2, [], "a"), Traced(OnePause("b"), s4, [], "b"), Traced(OnePause("b"), s5, [], "b"),
     Traced(OnePause("b"), s5.(stepIndex := Some(1)), [Entry(0, false)], "b")]
  }

  lemma {:induction false} ArrivalPauses(req: Requests)
    ensures (req.add == [] || req.clear) && !req.addAbort ==> Calculated(NEVER_PAUSED, req, 0) == NEVER_PAUSED
    ensures Calculated(NEVER_PAUSED, NO_REQUESTS.(add := [InconclusiveAnalysis]), 0) == BY_ANALYSIS
    ensures Calculated(BY_ANALYSIS, NO_REQUESTS.(remove := [CanaryPauseStep]), 0) == BY_ANALYSIS
  {
    var conditions := BY_ANALYSIS.conditions;
    assert Kept([], req.remove, 0) == [] && Added([], [], 0, 0) == [] && Kept([], [], 0) == [];
    assert Added([], [InconclusiveAnalysis], 0, 1) == Added([], [InconclusiveAnalysis], 0, 0) + conditions;
    assert Kept(conditions, [CanaryPauseStep], 1) == Kept(conditions, [CanaryPauseStep], 0) + conditions;
    assert Added(conditions, [], 0, 0) == [];
  }

  lemma {:induction false} BeforeArrival(i: nat)
    requires i < 4
    ensures Next(Arrival()[i], Arriving()[i]) == Arrival()[i + 1]
  {
    hide AtDesiredReplicaCounts, Calculated, CompletedCanaryPauseStep, StepCompleted, GetPauseCondition;
    if i != 2 {
      var t, env := Arrival()[i], Arriving()[i].env;
      var req := RequestsAtSync(t.spec, t.status, env);
      ArrivalPauses(req.(clear := true, removeAbort := true));
      assert Outcome(t, env) == if i == 1 then Promoted else Reset;
    }
  }

  lemma {:induction false} AnalysisPauses()
    ensures Next(Arrival()[4], Arriving()[4]) == Arrival()[5]
  {
    hide AtDesiredReplicaCounts, Calculated;
    var t, env := Arrival()[4], Arriving()[4].env;
    ArrivalPauses(NO_REQUESTS);
    assert Outcome(t, env) == Unchanged;
  }

  lemma {:induction false} StepIsPassed()
    ensures Next(Arrival()[5], Arriving()[5]) == Arrival()[6]
  {
    hide AtDesiredReplicaCounts, Calculated;
    var t, env := Arrival()[5], Arriving()[5].env;
    ArrivalPauses(NO_REQUESTS);
    assert RequestsAtSync(t.spec, t.status, env) == NO_REQUESTS;
    assert Outcome(t, env) == StepDone;
    assert [] + [CanaryPauseStep] == [CanaryPauseStep];
  }

  lemma {:induction false} ArrivalStep(i: nat)
    requires i < 6
    ensures |Arriving()| == 6 && |Arrival()| == 7
    ensures Sensible(Arrival()[i], Arriving()[i]) && Next(Arrival()[i], Arriving()[i]) == Arrival()[i + 1]
  {
    hide Next;
    if i < 4 { BeforeArrival(i); }
    if i == 4 { AnalysisPauses(); }
    if i == 5 { StepIsPassed(); }
  }

  // The controller moves past an indefinite pause step in a run in which no user has done anything but change the
  // template.
  lemma {:induction false} PauseStepIsPassed()
    ensures IsTrace(Arrival(), Arriving())
    ensures forall i :: 0 <= i < |Arriving()| ==> Arriving()[i].Reconcile? || Arriving()[i].UserEdits?
    ensures Arrival()[5].status.stepIndex == Some(0) && Arrival()[5].spec.steps[0].pause == Some(RolloutPause(None))
    ensures Arrival()[6].status.stepIndex == Some(1)
  {
    hide Next, Sensible;
    forall i | 0 <= i < 6
      ensures Sensible(Arrival()[i], Arriving()[i]) && Next(Arrival()[i], Arriving()[i]) == Arrival()[i + 1]
    {
      ArrivalStep(i);
    }
  }
}
