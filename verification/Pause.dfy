// The pause and abort part of a rollout's status (rollout/pause.go).
module Pause {
  import opened Wrappers

  datatype Reason = BlueGreenPause | CanaryPauseStep | InconclusiveAnalysis

  datatype PauseCondition = PauseCondition(reason: Reason, startTime: int)

  datatype PauseStatus = PauseStatus(abort: bool, abortedAt: Option<int>, controllerPause: bool,
                                     conditions: seq<PauseCondition>)

  // What a reconcile asked of its pauseContext.
  datatype Requests = Requests(add: seq<Reason>, remove: seq<Reason>, clear: bool, addAbort: bool, removeAbort: bool)

  const NO_REQUESTS := Requests([], [], false, false, false)

  function GetPauseCondition(conditions: seq<PauseCondition>, reason: Reason): Option<PauseCondition> {
    if conditions == [] then None
    else if conditions[0].reason == reason then Some(conditions[0])
    else GetPauseCondition(conditions[1..], reason)
  }

  predicate HasReason(conditions: seq<PauseCondition>, reason: Reason) {
    exists i :: 0 <= i < |conditions| && conditions[i].reason == reason
  }

  lemma {:induction false} FoundIffPresent(conditions: seq<PauseCondition>, reason: Reason)
    ensures GetPauseCondition(conditions, reason).Some? <==> HasReason(conditions, reason)
    ensures GetPauseCondition(conditions, reason).Some? ==>
              GetPauseCondition(conditions, reason).value.reason == reason && GetPauseCondition(conditions, reason).value in conditions
  {
    if conditions != [] {
      FoundIffPresent(conditions[1..], reason);
      assert forall i :: 0 < i < |conditions| ==> conditions[i] == conditions[1..][i - 1];
      if HasReason(conditions[1..], reason) {
        var i :| 0 <= i < |conditions[1..]| && conditions[1..][i].reason == reason;
        assert conditions[i + 1].reason == reason;
      }
    }
  }

  predicate IsAborted(status: PauseStatus, req: Requests) { !req.removeAbort && (req.addAbort || status.abort) }

  /******* CalculatePauseStatus *******/

  // The conditions among the first n that are not to be removed.
  function Kept(conditions: seq<PauseCondition>, remove: seq<Reason>, n: nat): seq<PauseCondition>
    requires n <= |conditions|
  {
    if n == 0 then []
    else Kept(conditions, remove, n - 1) + if conditions[n - 1].reason in remove then [] else [conditions[n - 1]]
  }

  // A condition for each of the first n reasons that no condition had before, removed ones included.
  function Added(conditions: seq<PauseCondition>, add: seq<Reason>, now: int, n: nat): seq<PauseCondition>
    requires n <= |add|
  {
    if n == 0 then []
    else Added(conditions, add, now, n - 1) + if HasReason(conditions, add[n - 1]) then [] else [PauseCondition(add[n - 1], now)]
  }

  function Calculated(status: PauseStatus, req: Requests, now: int): PauseStatus {
    if req.addAbort || (!req.removeAbort && status.abort) then
      PauseStatus(true, if status.abortedAt.None? then Some(now) else status.abortedAt, false, [])
    else
      var kept := Kept(status.conditions, req.remove, |status.conditions|);
      var added := Added(status.conditions, req.add, now, |req.add|);
      if req.clear || kept + added == [] then PauseStatus(false, None, false, [])
      else PauseStatus(false, None, status.controllerPause || added != [], kept + added)
  }

  class PauseContext {
    const status: PauseStatus
    var addPauseReasons: seq<Reason>
    var removePauseReasons: seq<Reason>
    var clearPauseConditions: bool
    var addAbort: bool
    var removeAbort: bool

    function Value(): Requests
      reads this
    {
      Requests(addPauseReasons, removePauseReasons, clearPauseConditions, addAbort, removeAbort)
    }

    constructor (status: PauseStatus)
      ensures this.status == status && Value() == NO_REQUESTS
    {
      this.status := status;
      addPauseReasons, removePauseReasons, clearPauseConditions, addAbort, removeAbort := [], [], false, false, false;
    }

    method RemoveAbort()
      modifies this
      ensures Value() == old(Value()).(removeAbort := true)
    {
      removeAbort := true;
    }

    method AddPauseCondition(reason: Reason)
      modifies this
      ensures Value() == old(Value()).(add := old(addPauseReasons) + [reason])
    {
      addPauseReasons := addPauseReasons + [reason];
    }

    method RemovePauseCondition(reason: Reason)
      modifies this
      ensures Value() == old(Value()).(remove := old(removePauseReasons) + [reason])
    {
      removePauseReasons := removePauseReasons + [reason];
    }

    method ClearPauseConditions()
      modifies this
      ensures Value() == old(Value()).(clear := true)
    {
      clearPauseConditions := true;
    }

    method CalculatePauseStatus(now: int) returns (newStatus: PauseStatus)
      ensures newStatus == Calculated(status, Value(), now)
    {
      newStatus := PauseStatus(false, None, false, []);
      var newAbortedAt := status.abortedAt;
      if newAbortedAt.None? { newAbortedAt := Some(now); }
      if addAbort {
        return newStatus.(abort := true, abortedAt := newAbortedAt);
      }
      if !removeAbort && status.abort {
        return newStatus.(abort := true, abortedAt := newAbortedAt);
      }
      if clearPauseConditions { return; }

      hide HasReason;
      var controllerPause := status.controllerPause;
      var newPauseConditions, pauseAlreadyExists := RemainingConditions();
      ghost var kept := newPauseConditions;
      for i := 0 to |addPauseReasons|
        invariant newPauseConditions == kept + Added(status.conditions, addPauseReasons, now, i)
        invariant controllerPause == (status.controllerPause || Added(status.conditions, addPauseReasons, now, i) != [])
      {
        var reason := addPauseReasons[i];
        if reason !in pauseAlreadyExists {
          newPauseConditions := newPauseConditions + [PauseCondition(reason, now)];
          controllerPause := true;
        }
      }
      if |newPauseConditions| == 0 { return; }
      newStatus := newStatus.(controllerPause := controllerPause, conditions := newPauseConditions);
    }

    // The conditions that stay, and the reasons of all that were there.
    method RemainingConditions() returns (newPauseConditions: seq<PauseCondition>, pauseAlreadyExists: set<Reason>)
      ensures newPauseConditions == Kept(status.conditions, removePauseReasons, |status.conditions|)
      ensures forall r :: r in pauseAlreadyExists <==> HasReason(status.conditions, r)
    {
      var statusToRemove: set<Reason> := {};
      for i := 0 to |removePauseReasons|
        invariant forall r :: r in statusToRemove <==> r in removePauseReasons[..i]
      {
        statusToRemove := statusToRemove + {removePauseReasons[i]};
      }
      assert removePauseReasons[..|removePauseReasons|] == removePauseReasons;
      newPauseConditions, pauseAlreadyExists := [], {};
      for i := 0 to |status.conditions|
        invariant newPauseConditions == Kept(status.conditions, removePauseReasons, i)
        invariant forall r :: r in pauseAlreadyExists <==> exists k :: 0 <= k < i && status.conditions[k].reason == r
      {
        var cond := status.conditions[i];
        if cond.reason !in statusToRemove {
          newPauseConditions := newPauseConditions + [cond];
        }
        pauseAlreadyExists := pauseAlreadyExists + {cond.reason};
      }
    }
  }

  /******* What a written status says *******/

  // Every condition there is was set by the controller.
  predicate Coherent(s: PauseStatus) { s.conditions != [] ==> s.controllerPause }

  // What holds of a status between the controller's writing it and the next change by a user.
  predicate ControllerWritten(s: PauseStatus) {
    && (s.controllerPause <==> s.conditions != [])
    && (s.abort ==> s.conditions == [])
    && (s.abort <==> s.abortedAt.Some?)
  }

  // Users resume a rollout by clearing its conditions, abort it and retry it.
  datatype Event = Written(req: Requests, now: int) | UserResumes | UserAborts | UserRetries

  function Next(s: PauseStatus, e: Event): PauseStatus {
    match e
    case Written(req, now) => Calculated(s, req, now)
    case UserResumes => s.(conditions := [])
    case UserAborts => s.(abort := true)
    case UserRetries => s.(abort := false)
  }

  function Run(s: PauseStatus, events: seq<Event>): PauseStatus {
    if events == [] then s else Next(Run(s, events[..|events| - 1]), events[|events| - 1])
  }

  const NEVER_PAUSED := PauseStatus(false, None, false, [])

  lemma {:induction false} RunIsCoherent(events: seq<Event>)
    ensures Coherent(Run(NEVER_PAUSED, events))
  {
    if events != [] {
      RunIsCoherent(events[..|events| - 1]);
      var s := Run(NEVER_PAUSED, events[..|events| - 1]);
      var e := events[|events| - 1];
      if e.Written? {
        WrittenExactly(s, e.req, e.now);
      }
    }
  }

  // The controller keeps ControllerPause and the list of conditions together.
  lemma {:induction false} WrittenExactly(s: PauseStatus, req: Requests, now: int)
    requires Coherent(s)
    ensures ControllerWritten(Calculated(s, req, now))
  {
    if s.conditions == [] {
      assert Kept(s.conditions, req.remove, |s.conditions|) == [];
    }
  }

  // Whatever users did before, a status that the controller has just written has ControllerPause exactly when
  // it lists a condition; so ControllerPause without a condition means that a user has resumed the rollout.
  lemma {:induction false} PausedExactlyWhenListed(events: seq<Event>, req: Requests, now: int)
    ensures ControllerWritten(Run(NEVER_PAUSED, events + [Written(req, now)]))
  {
    assert (events + [Written(req, now)])[..|events|] == events;
    RunIsCoherent(events);
    WrittenExactly(Run(NEVER_PAUSED, events), req, now);
  }

  // Writing a written status again changes nothing as long as nothing is asked for, or the rollout stays aborted; the
  // time of an abort is kept, which is what keeps the controller from reconciling its own writes for ever.
  lemma {:induction false} RewritingIsQuiet(s: PauseStatus, req: Requests, now: int)
    requires ControllerWritten(s)
    requires req == NO_REQUESTS || (s.abort && !req.removeAbort)
    ensures Calculated(s, req, now) == s
  {
    if !s.abort {
      KeptAll(s.conditions, |s.conditions|);
      assert s.conditions[..|s.conditions|] + [] == s.conditions;
    }
  }

  lemma {:induction false} KeptAll(conditions: seq<PauseCondition>, n: nat)
    requires n <= |conditions|
    ensures Kept(conditions, [], n) == conditions[..n]
  {
    if n > 0 {
      KeptAll(conditions, n - 1);
    }
  }

  // Which reasons a written status lists.
  lemma {:induction false} KeptReasons(conditions: seq<PauseCondition>, remove: seq<Reason>, n: nat, r: Reason)
    requires n <= |conditions|
    ensures HasReason(Kept(conditions, remove, n), r) <==> r !in remove && exists i :: 0 <= i < n && conditions[i].reason == r
  {
    if n > 0 {
      KeptReasons(conditions, remove, n - 1, r);
      HasReasonAppend(Kept(conditions, remove, n - 1), if conditions[n - 1].reason in remove then [] else [conditions[n - 1]], r);
      HasReasonOne(conditions[n - 1], r);
    }
  }

  lemma {:induction false} AddedReasons(conditions: seq<PauseCondition>, add: seq<Reason>, now: int, n: nat, r: Reason)
    requires n <= |add|
    ensures HasReason(Added(conditions, add, now, n), r) <==> r in add[..n] && !HasReason(conditions, r)
  {
    if n > 0 {
      AddedReasons(conditions, add, now, n - 1, r);
      HasReasonAppend(Added(conditions, add, now, n - 1), if HasReason(conditions, add[n - 1]) then [] else [PauseCondition(add[n - 1], now)], r);
      HasReasonOne(PauseCondition(add[n - 1], now), r);
      assert add[..n] == add[..n - 1] + [add[n - 1]];
    }
  }

  lemma {:induction false} HasReasonOne(c: PauseCondition, r: Reason)
    ensures HasReason([c], r) <==> c.reason == r
    ensures !HasReason([], r)
  {
    assert [c][0] == c;
  }

  lemma {:induction false} HasReasonAppend(a: seq<PauseCondition>, b: seq<PauseCondition>, r: Reason)
    ensures HasReason(a + b, r) <==> HasReason(a, r) || HasReason(b, r)
  {
    if HasReason(a, r) {
      var i :| 0 <= i < |a| && a[i].reason == r;
      assert (a + b)[i].reason == r;
    }
    if HasReason(b, r) {
      var i :| 0 <= i < |b| && b[i].reason == r;
      assert (a + b)[|a| + i].reason == r;
    }
  }

  // Unless the status is aborted or cleared, a reason is listed exactly when it was and is not removed, or is
  // added and was not there. A reason that is both removed and added while present is gone afterwards.
  lemma {:induction false} ListedReasons(s: PauseStatus, req: Requests, now: int, r: Reason)
    ensures HasReason(Calculated(s, req, now).conditions, r) <==>
            && !req.addAbort && !(s.abort && !req.removeAbort) && !req.clear
            && ((HasReason(s.conditions, r) && r !in req.remove) || (!HasReason(s.conditions, r) && r in req.add))
  {
    KeptReasons(s.conditions, req.remove, |s.conditions|, r);
    AddedReasons(s.conditions, req.add, now, |req.add|, r);
    assert req.add[..|req.add|] == req.add;
    HasReasonAppend(Kept(s.conditions, req.remove, |s.conditions|), Added(s.conditions, req.add, now, |req.add|), r);
  }

  // A user's abort lasts through writes that do not take it back; a retry ends it with the next write.
  lemma {:induction false} RetryEndsAbort(s: PauseStatus, req: Requests, now: int)
    requires !req.addAbort && !req.removeAbort
    ensures Calculated(Next(s, UserAborts), req, now).abort && Calculated(Next(s, UserAborts), req, now).abortedAt.Some?
    ensures !Calculated(Next(s, UserRetries), req, now).abort && Calculated(Next(s, UserRetries), req, now).abortedAt.None?
  {
    hide Kept, Added;
  }

  // When the conditions of a written status began: one that stays keeps its time, one that is new begins now, and there
  // are no others.
  lemma {:induction false} ConditionTimes(s: PauseStatus, req: Requests, now: int, c: PauseCondition)
    ensures c in Calculated(s, req, now).conditions <==>
            && !req.addAbort && !(s.abort && !req.removeAbort) && !req.clear
            && (|| (c in s.conditions && c.reason !in req.remove)
                || (c.startTime == now && c.reason in req.add && !HasReason(s.conditions, c.reason)))
  {
    hide HasReason;
    KeptConditions(s.conditions, req.remove, |s.conditions|, c);
    AddedConditions(s.conditions, req.add, now, |req.add|, c);
    assert s.conditions[..|s.conditions|] == s.conditions && req.add[..|req.add|] == req.add;
  }

  lemma {:induction false} KeptConditions(conditions: seq<PauseCondition>, remove: seq<Reason>, n: nat,
                                          c: PauseCondition)
    requires n <= |conditions|
    ensures c in Kept(conditions, remove, n) <==> c in conditions[..n] && c.reason !in remove
  {
    if n > 0 {
      KeptConditions(conditions, remove, n - 1, c);
      assert conditions[..n] == conditions[..n - 1] + [conditions[n - 1]];
    }
  }

  lemma {:induction false} AddedConditions(conditions: seq<PauseCondition>, add: seq<Reason>, now: int, n: nat,
                                           c: PauseCondition)
    requires n <= |add|
    ensures c in Added(conditions, add, now, n) <==> c.startTime == now && c.reason in add[..n] && !HasReason(conditions, c.reason)
  {
    hide HasReason;
    if n > 0 {
      AddedConditions(conditions, add, now, n - 1, c);
      assert add[..n] == add[..n - 1] + [add[n - 1]];
      assert c == PauseCondition(c.reason, c.startTime);
    }
  }

  /******* Completed pauses *******/

  // CompletedCanaryPauseStep; `duration` is the step's pause in seconds, None for an indefinite one.
  function CompletedCanaryPauseStep(s: PauseStatus, duration: Option<int>, now: int): bool {
    var cond := GetPauseCondition(s.conditions, CanaryPauseStep);
    if s.controllerPause && cond.None? then true
    else duration.Some? && cond.Some? && now > cond.value.startTime + duration.value
  }

  // The step's own pause has begun and lasted for its duration.
  predicate OwnPauseExpired(s: PauseStatus, duration: Option<int>, now: int) {
    var cond := GetPauseCondition(s.conditions, CanaryPauseStep);
    duration.Some? && cond.Some? && now > cond.value.startTime + duration.value
  }

  // Between controller writes and without a user, a pause step, indefinite or timed, is over before its own pause has
  // expired exactly when the rollout is paused for some other reason and the step's own pause has not begun.
  lemma {:induction false} PauseStepEndedByOtherReason(s: PauseStatus, duration: Option<int>, now: int)
    requires ControllerWritten(s)
    ensures CompletedCanaryPauseStep(s, duration, now) && !OwnPauseExpired(s, duration, now) <==>
            !HasReason(s.conditions, CanaryPauseStep) && (HasReason(s.conditions, BlueGreenPause) || HasReason(s.conditions, InconclusiveAnalysis))
    ensures OwnPauseExpired(s, duration, now) ==> CompletedCanaryPauseStep(s, duration, now)
  {
    FoundIffPresent(s.conditions, CanaryPauseStep);
    if s.conditions != [] {
      assert s.conditions[0].reason.CanaryPauseStep? || s.conditions[0].reason.BlueGreenPause? || s.conditions[0].reason.InconclusiveAnalysis?;
    }
  }

  // So an inconclusive analysis that pauses the rollout as it reaches a pause step ends that step at once, without any
  // user having resumed it.
  lemma {:induction false} InconclusiveAnalysisSkipsPauseStep(duration: Option<int>, now: int)
    ensures var s := Calculated(NEVER_PAUSED, NO_REQUESTS.(add := [InconclusiveAnalysis]), now);
            ControllerWritten(s) && CompletedCanaryPauseStep(s, duration, now) && !OwnPauseExpired(s, duration, now)
  {
    var s := Calculated(NEVER_PAUSED, NO_REQUESTS.(add := [InconclusiveAnalysis]), now);
    assert Added([], [InconclusiveAnalysis], now, 1) == [PauseCondition(InconclusiveAnalysis, now)];
    assert Kept([], [], 0) == [];
    assert s.conditions == [PauseCondition(InconclusiveAnalysis, now)];
  }

  // With pause steps as the only reason to pause, one ends only when its time is up or a user resumes the rollout.
  lemma {:induction false} PauseStepNeedsUser(s: PauseStatus, duration: Option<int>, now: int)
    requires ControllerWritten(s) && forall r :: HasReason(s.conditions, r) ==> r == CanaryPauseStep
    ensures CompletedCanaryPauseStep(s, duration, now) <==> OwnPauseExpired(s, duration, now)
    ensures HasReason(s.conditions, CanaryPauseStep) ==> CompletedCanaryPauseStep(Next(s, UserResumes), duration, now)
  {
    FoundIffPresent(s.conditions, CanaryPauseStep);
    if s.conditions != [] {
      assert HasReason(s.conditions, s.conditions[0].reason);
    }
  }
}
