// What an experiment makes of the AnalysisRuns that it finds.
module ExperimentOutcomes {
  import opened Wrappers
  import Analysis
  import opened Experiments
  import opened ExperimentRuns

  /******* Analyses *******/

  // The k-th analysis has an AnalysisRun that is not known to be completed, and the reconcile finds it.
  predicate Finds(s: State, e: Event, k: nat, phase: Phase)
    requires k < |s.spec.analyses|
  {
    var name := s.spec.analyses[k].name;
    && e.Reconcile? && RunBefore(s.status, name).analysisRun != "" && !PhaseOf(s.status, name).Completed()
    && e.env.runs(name).found.Some? && e.env.runs(name).found.value.0 == phase
  }

  // Unless the experiment is terminating, the phase of an AnalysisRun that is found is what is recorded.
  lemma {:induction false} FoundPhaseIsRecorded(trace: seq<State>, events: seq<Event>, i: nat, k: nat, phase: Phase)
    requires IsTrace(trace, events) && i < |events| && k < |trace[i].spec.analyses|
    requires Finds(trace[i], events[i], k, phase) && !IsTerminating(trace[i].spec, trace[i].status)
    ensures PhaseOf(trace[i + 1].status, trace[i].spec.analyses[k].name) == phase
  {
    hide Get, IsTerminating, WorstTemplate, NextPhase, TemplatesUpTo;
    ReachableInOrder(trace, events, i);
    RunUpdated(trace[i].spec, trace[i].status, events[i].env, |trace[i].spec.analyses|, k);
  }

  // A terminating experiment leaves the phase as it was recorded, unless terminating the AnalysisRun fails; and an
  // AnalysisRun that is gone is an error.
  lemma {:induction false} UnfinishedRunStays(trace: seq<State>, events: seq<Event>, i: nat, k: nat)
    requires IsTrace(trace, events) && i < |events| && k < |trace[i].spec.analyses| && events[i].Reconcile?
    requires var name := trace[i].spec.analyses[k].name;
             RunBefore(trace[i].status, name).analysisRun != "" && !PhaseOf(trace[i].status, name).Completed()
    ensures var s, name := trace[i], trace[i].spec.analyses[k].name;
            var found, after := events[i].env.runs(name).found, PhaseOf(trace[i + 1].status, name);
            && (found.None? ==> after == Analysis.Error)
            && (found.Some? && IsTerminating(s.spec, s.status) ==>
                  after == if events[i].env.runs(name).terminates || found.value.1 || found.value.0.Completed()
                           then PhaseOf(s.status, name) else Analysis.Error)
  {
    hide Get, IsTerminating, WorstTemplate, NextPhase, TemplatesUpTo;
    ReachableInOrder(trace, events, i);
    RunUpdated(trace[i].spec, trace[i].status, events[i].env, |trace[i].spec.analyses|, k);
  }

  // Before the experiment is available an analysis is in error exactly when it was, or its template is missing; and an
  // AnalysisRun that cannot be created is an error too.
  lemma {:induction false} UncreatedRunPhase(trace: seq<State>, events: seq<Event>, i: nat, k: nat)
    requires IsTrace(trace, events) && i < |events| && k < |trace[i].spec.analyses| && events[i].Reconcile?
    requires RunBefore(trace[i].status, trace[i].spec.analyses[k].name).analysisRun == ""
    ensures var s, name := trace[i], trace[i].spec.analyses[k].name;
            PhaseOf(trace[i + 1].status, name) ==
            if s.status.availableAt.None? then
              if events[i].env.runs(name).templateFound then PhaseOf(s.status, name) else Analysis.Error
            else if IsTerminating(s.spec, s.status) then PhaseOf(s.status, name)
            else if events[i].env.runs(name).created.Some? then Analysis.Pending else Analysis.Error
  {
    hide Get, IsTerminating, WorstTemplate, NextPhase, TemplatesUpTo;
    RunUpdated(trace[i].spec, trace[i].status, events[i].env, |trace[i].spec.analyses|, k) by { ReachableInOrder(trace, events, i); }
  }

  // So an experiment that is under way ends in a bad phase in the very reconcile in which it finds a failed, erroneous
  // or
  // inconclusive AnalysisRun.
  lemma {:induction false} BadRunEndsExperiment(trace: seq<State>, events: seq<Event>, i: nat, k: nat, phase: Phase)
    requires IsTrace(trace, events) && i < |events| && k < |trace[i].spec.analyses| && events[i].Reconcile?
    requires trace[i].status.phase in {Analysis.Pending, Analysis.Running} && !IsTerminating(trace[i].spec, trace[i].status)
    requires Finds(trace[i], events[i], k, phase) && phase in {Analysis.Failed, Analysis.Error, Analysis.Inconclusive}
    ensures trace[i + 1].status.phase in {Analysis.Failed, Analysis.Error, Analysis.Inconclusive}
  {
    hide Get, IsTerminating, WorstTemplate, TemplatesUpTo, RunsUpTo, RunsPhase, Concluded, Finds, RunBefore;
    var s, env := trace[i], events[i].env;
    FoundPhaseIsRecorded(trace, events, i, k, phase);
    var updated := Updated(s.spec, s.status, env);
    SamePhases(trace, events, i, k);
    VerdictIsDeserved(s.spec, updated);
    assert PhaseOf(updated, s.spec.analyses[k].name).Bad();
  }

  // Calculating the experiment's phase changes no recorded one.
  lemma {:induction false} SamePhases(trace: seq<State>, events: seq<Event>, i: nat, k: nat)
    requires IsTrace(trace, events) && i < |events| && k < |trace[i].spec.analyses| && events[i].Reconcile?
    ensures var s := trace[i];
            PhaseOf(Updated(s.spec, s.status, events[i].env), s.spec.analyses[k].name) == PhaseOf(trace[i + 1].status, s.spec.analyses[k].name)
    ensures trace[i + 1].status ==
            Calculated(trace[i].spec, Updated(trace[i].spec, trace[i].status, events[i].env), events[i].env.now)
  {
    hide Get, WorstTemplate, NextPhase, TemplatesUpTo, RunsUpTo;
  }

  /******* Required analyses *******/

  // The i-th event found the AnalysisRun of the k-th analysis successful and recorded it.
  predicate FoundSuccessful(s: State, e: Event, k: nat)
    requires k < |s.spec.analyses|
  {
    Finds(s, e, k, Analysis.Successful) && !IsTerminating(s.spec, s.status)
  }

  // A recorded success was found at some reconcile.
  lemma {:induction false} SuccessWasFound(trace: seq<State>, events: seq<Event>, i: nat, k: nat)
    requires IsTrace(trace, events) && i < |trace| && k < |trace[0].spec.analyses|
    requires PhaseOf(trace[i].status, trace[0].spec.analyses[k].name) == Analysis.Successful
    ensures exists j :: 0 <= j < i && k < |trace[j].spec.analyses| && FoundSuccessful(trace[j], events[j], k)
  {
    hide Reconciled, IsTerminating, PhaseOf, FoundSuccessful, RunsInOrder;
    NoPhaseYet(trace[0].status, trace[0].spec.analyses[k].name);
    assert i > 0;
    ReachableInOrder(trace, events, i - 1);
    var s, e, name := trace[i - 1], events[i - 1], trace[0].spec.analyses[k].name;
    if PhaseOf(s.status, name) == Analysis.Successful {
      SuccessWasFound(trace, events, i - 1, k);
    } else {
      SuccessIsFoundNow(trace, events, i - 1, k);
    }
  }

  lemma {:induction false} NoPhaseYet(status: Status, name: string)
    ensures status.runs == [] ==> PhaseOf(status, name) == Analysis.Unset
  {
  }

  lemma {:induction false} SuccessIsFoundNow(trace: seq<State>, events: seq<Event>, i: nat, k: nat)
    requires IsTrace(trace, events) && i < |events| && k < |trace[i].spec.analyses|
    requires PhaseOf(trace[i].status, trace[i].spec.analyses[k].name) != Analysis.Successful
    requires PhaseOf(trace[i + 1].status, trace[i].spec.analyses[k].name) == Analysis.Successful
    ensures FoundSuccessful(trace[i], events[i], k)
  {
    hide Get, IsTerminating, WorstTemplate, NextPhase, TemplatesUpTo;
    ReachableInOrder(trace, events, i);
    if events[i].Reconcile? {
      RunUpdated(trace[i].spec, trace[i].status, events[i].env, |trace[i].spec.analyses|, k);
    }
  }

  // That an experiment with required analyses becomes successful only if each of their AnalysisRuns was found
  // successful is
  // false. At the reconcile in which it becomes successful, a required AnalysisRun was found successful at some
  // reconcile
  // exactly when a phase is recorded for it; it is not when it never started, or was last found before it had a phase.
  lemma {:induction false} RequiredSucceededExactlyWhen(trace: seq<State>, events: seq<Event>, i: nat, k: nat)
    requires IsTrace(trace, events) && i < |events| && k < |trace[0].spec.analyses| && trace[0].spec.analyses[k].required
    requires !trace[i].status.phase.Completed() && trace[i + 1].status.phase == Analysis.Successful
    ensures PhaseOf(trace[i + 1].status, trace[0].spec.analyses[k].name) in {Analysis.Successful, Analysis.Unset}
    ensures (exists j :: 0 <= j <= i && k < |trace[j].spec.analyses| && FoundSuccessful(trace[j], events[j], k)) <==>
            PhaseOf(trace[i + 1].status, trace[0].spec.analyses[k].name) != Analysis.Unset
  {
    hide Reconciled, IsTerminating, PhaseOf, FoundSuccessful, RunsInOrder;
    var name := trace[0].spec.analyses[k].name;
    ReachableInOrder(trace, events, i);
    SuccessLeavesNoneOpen(trace, events, i, k);
    if j :| 0 <= j <= i && k < |trace[j].spec.analyses| && FoundSuccessful(trace[j], events[j], k) {
      FoundStaysSuccessful(trace, events, j, i + 1, k);
    }
    if PhaseOf(trace[i + 1].status, name) == Analysis.Successful {
      SuccessWasFound(trace, events, i + 1, k);
    }
  }

  lemma {:induction false} FoundStaysSuccessful(trace: seq<State>, events: seq<Event>, j: nat, i: nat, k: nat)
    requires IsTrace(trace, events) && j < i < |trace| && k < |trace[0].spec.analyses|
    requires k < |trace[j].spec.analyses| && FoundSuccessful(trace[j], events[j], k)
    ensures PhaseOf(trace[i].status, trace[0].spec.analyses[k].name) == Analysis.Successful
  {
    hide Reconciled, IsTerminating, RunBefore, TemplateBefore, RunsInOrder;
    ReachableInOrder(trace, events, j);
    FoundPhaseIsRecorded(trace, events, j, k, Analysis.Successful);
    CompletedForever(trace, events, j + 1, i);
  }

  // With a required analysis, an experiment becomes successful only when no analysis is pending, running or bad.
  lemma {:induction false} SuccessLeavesNoneOpen(trace: seq<State>, events: seq<Event>, i: nat, k: nat)
    requires IsTrace(trace, events) && i < |events| && k < |trace[i].spec.analyses| && trace[i].spec.analyses[k].required
    requires !trace[i].status.phase.Completed() && trace[i + 1].status.phase == Analysis.Successful
    ensures PhaseOf(trace[i + 1].status, trace[i].spec.analyses[k].name) in {Analysis.Successful, Analysis.Unset}
  {
    hide Get, IsTerminating, WorstTemplate, TemplatesUpTo, RunsUpTo, RunsPhase, Concluded, RunBefore,
         RequiredSucceeded, AnyTemplate;
    var s := trace[i];
    if events[i].Reconcile? {
      SamePhases(trace, events, i, k);
      PhaseIsVerdict(s.spec, Updated(s.spec, s.status, events[i].env));
      assert HasRequired(s.spec);
    }
  }

  // The other case exists, without anyone terminating the experiment: the duration has passed at a reconcile that finds
  // the AnalysisRun before it has a phase.
  const ONE_ANALYSIS := Spec([Template("t", None)], [AnalysisRef("a", true)], false, Analysis.Seconds(10), None)

  function Looking(existing: Option<TemplateRS>, run: RunEnv, now: int): Event {
    Reconcile(Env(_ => TemplateEnv(existing, CreatedRS(TemplateRS(1, 1, 1, 1))), _ => run, now))
  }

  const FINDS_NO_PHASE := RunEnv(true, Some("run"), Some((Analysis.Unset, false)), true)

  function Hasty(): seq<Event> {
    var rs := Some(TemplateRS(1, 1, 1, 1));
    [Looking(None, FINDS_NO_PHASE, 0), Looking(rs, FINDS_NO_PHASE, 1), Looking(rs, FINDS_NO_PHASE, 2), Looking(rs, FINDS_NO_PHASE, 20)]
  }

  function HastyStatus(phase: Phase, availableAt: Option<int>, code: TemplateCode, run: RunStatus): State {
    State(ONE_ANALYSIS, Status(phase, availableAt, [Named("t", TemplateStatus(code, 1, 1, 1, Some(0)))], [Named("a", run)]))
  }

  function HastyStates(): seq<State> {
    [State(ONE_ANALYSIS, Status(Analysis.Unset, None, [], [])),
     HastyStatus(Analysis.Pending, None, Running, RunStatus("", Analysis.Unset)),
     HastyStatus(Analysis.Running, Some(1), Running, RunStatus("", Analysis.Unset)),
     HastyStatus(Analysis.Running, Some(1), Running, RunStatus("run", Analysis.Pending)),
     HastyStatus(Analysis.Successful, Some(1), Successful, RunStatus("run", Analysis.Unset))]
  }

  lemma {:induction false} HastyStart()
    ensures Next(HastyStates()[0], Hasty()[0]) == HastyStates()[1]
  {
  }

  lemma {:induction false} HastyAvailable()
    ensures Next(HastyStates()[1], Hasty()[1]) == HastyStates()[2]
  {
  }

  lemma {:induction false} HastyCreation()
    ensures Next(HastyStates()[2], Hasty()[2]) == HastyStates()[3]
  {
  }

  lemma {:induction false} HastyEnd()
    ensures Next(HastyStates()[3], Hasty()[3]) == HastyStates()[4]
  {
  }

  lemma {:induction false} RequiredRunIsPassedOver()
    ensures IsTrace(HastyStates(), Hasty()) && HastyStates()[4].status.phase == Analysis.Successful
    ensures HastyStates()[4].spec.analyses == [AnalysisRef("a", true)] && !HastyStates()[4].spec.terminate
    ensures forall j :: 0 <= j < 4 ==> Hasty()[j].env.runs("a").found == Some((Analysis.Unset, false))
  {
    hide Reconciled;
    HastyStart();
    HastyAvailable();
    HastyCreation();
    HastyEnd();
    forall i | 0 <= i < 4
      ensures HastyStates()[i + 1] == Next(HastyStates()[i], Hasty()[i])
      ensures NamesRuns(HastyStates()[i].spec, Hasty()[i].env)
    {
      assert i == 0 || i == 1 || i == 2 || i == 3;
    }
  }
}
