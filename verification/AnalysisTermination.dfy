// When a run completes, and what a run that is terminating still does.
module AnalysisTermination {
  import opened Wrappers
  import opened Analysis
  import opened AnalysisEngine
  import opened AnalysisMetrics
  import opened AnalysisHistory

  predicate InFlight(result: Option<MetricResult>) {
    LastMeasurement(result).Some? && !LastMeasurement(result).value.phase.Completed()
  }

  // p is the phase of a result, no result is worse, and all are done.
  predicate WorstOfResults(run: Run, p: Phase) {
    && (exists k :: 0 <= k < |run.metrics| && ResultOf(run, k).Some? && ResultOf(run, k).value.phase == p)
    && forall k :: 0 <= k < |run.metrics| && ResultOf(run, k).Some? ==> Rank(ResultOf(run, k).value.phase) <= Rank(p)
  }

  predicate HasResults(run: Run) { exists k :: 0 <= k < |run.metrics| && ResultOf(run, k).Some? }

  predicate AllDone(run: Run) {
    forall k :: 0 <= k < |run.metrics| && ResultOf(run, k).Some? ==> ResultOf(run, k).value.phase.Completed()
  }

  // The phases after a reconcile are the statuses that the assessment computed.
  lemma {:induction false} PhasesAreStatuses(run: Run, inp: Inputs, k: nat)
    requires k < |run.metrics| && DistinctNames(run.metrics) && Proceeds(run, inp)
    ensures var after := ResultOf(Reconciled(run, inp), k);
            StatusAt(run.metrics, IsTerminating(run), MeasuredRun(run, inp).results, k) ==
            if after.None? then None else Some(after.value.phase)
  {
    hide AssessMetric, TaskFor, Measure, GetResult, SetResult, IsTerminating;
    ReconciledResult(run, inp, k);
    MeasuredUpTo(run, inp, |run.metrics|);
  }

  // A run completes in a reconcile exactly when every metric that has a result is done and there is a result,
  // or none is needed because the run is terminating. Its phase is then the worst of those results.
  lemma {:induction false} CompletesExactlyWhen(run: Run, inp: Inputs)
    requires DistinctNames(run.metrics) && Proceeds(run, inp)
    ensures var run' := Reconciled(run, inp);
            && (run'.phase.Completed() <==> AllDone(run') && (HasResults(run') || IsTerminating(run)))
            && (run'.phase.Completed() && HasResults(run') ==> WorstOfResults(run', run'.phase))
            && (run'.phase.Completed() && !HasResults(run') ==> run'.phase == Successful)
            && (!run'.phase.Completed() ==> run'.phase == Running)
  {
    hide AssessMetric, TaskFor, Measure, GetResult, SetResult, IsTerminating, Rank, AssessUpTo, StatusAt;
    var run', t, measured := Reconciled(run, inp), IsTerminating(run), MeasuredRun(run, inp);
    var n := |run.metrics|;
    SameTermination(run, inp);
    HeldOpenBy(run.metrics, t, measured.results, n);
    WorstIsWorst(run.metrics, t, measured.results, n);
    forall k | 0 <= k < n
      ensures StatusAt(run.metrics, t, measured.results, k) ==
              if ResultOf(run', k).None? then None else Some(ResultOf(run', k).value.phase)
    {
      PhasesAreStatuses(run, inp, k);
    }
    var a := AssessUpTo(run.metrics, t, measured.results, n);
    assert run'.phase == RunPhase(a, t);
    assert a.allCompleted <==> AllDone(run');
    if AllDone(run') && HasResults(run') {
      assert WorstOfResults(run', a.worst);
    }
  }

  predicate AnyIs(run: Run, p: Phase) {
    exists k :: 0 <= k < |run.metrics| && ResultOf(run, k).Some? && ResultOf(run, k).value.phase == p
  }

  // So a completed run has failed if a metric has; else it is in error or inconclusive if a metric is; else successful.
  lemma {:induction false} CompletedPhase(run: Run, inp: Inputs)
    requires DistinctNames(run.metrics) && Proceeds(run, inp) && Reconciled(run, inp).phase.Completed()
    ensures var run' := Reconciled(run, inp);
            run'.phase == if AnyIs(run', Failed) then Failed else if AnyIs(run', Error) then Error
                          else if AnyIs(run', Inconclusive) then Inconclusive else Successful
  {
    hide Reconciled, GetResult, IsTerminating;
    CompletesExactlyWhen(run, inp);
  }

  // A metric without a result gets none in this reconcile: the run is terminating, or its initial delay has not passed
  // yet, which cannot be before the run has recorded when it started, or cannot be parsed.
  predicate LeftOut(run: Run, inp: Inputs, k: nat)
    requires k < |run.metrics|
  {
    && ResultOf(run, k).None?
    && (|| IsTerminating(run)
        || run.metrics[k].initialDelay.Unparseable?
        || (run.metrics[k].initialDelay.Seconds?
            && (run.startedAt.None? || run.startedAt.value + run.metrics[k].initialDelay.s > inp.now)))
  }

  lemma {:induction false} UnmeasuredExactlyWhen(run: Run, inp: Inputs, k: nat)
    requires k < |run.metrics| && DistinctNames(run.metrics) && Proceeds(run, inp)
    ensures ResultOf(Reconciled(run, inp), k).None? <==> LeftOut(run, inp, k)
  {
    hide AssessMetric, Measure, GetResult, IsTerminating;
    ReconciledResult(run, inp, k);
  }

  // What the reconcile makes of metric k, from its result before: it is measured if it is due, and that decides it.
  predicate Decided(run: Run, inp: Inputs, k: nat)
    requires k < |run.metrics|
  {
    var t := IsTerminating(run);
    var measured := MeasuredOf(run.metrics[k], ResultOf(run, k), t, run.startedAt, inp);
    measured.Some? && AssessMetric(run.metrics[k], measured.value, t).Completed()
  }

  lemma {:induction false} DecidedIsDone(run: Run, inp: Inputs, k: nat)
    requires k < |run.metrics| && DistinctNames(run.metrics) && Proceeds(run, inp)
    ensures Decided(run, inp, k) <==>
            ResultOf(Reconciled(run, inp), k).Some? && ResultOf(Reconciled(run, inp), k).value.phase.Completed()
  {
    hide AssessMetric, MeasuredOf, GetResult, IsTerminating;
    ReconciledResult(run, inp, k);
  }

  // That every metric is measured before a run completes is false. A reconcile completes the run over a metric that has
  // never been measured exactly when some metric is left out, all others are decided, and there is one of these unless
  // the run is terminating.
  lemma {:induction false} CompletesUnmeasuredExactlyWhen(run: Run, inp: Inputs)
    requires DistinctNames(run.metrics) && Proceeds(run, inp)
    ensures && Reconciled(run, inp).phase.Completed()
            && (exists k :: 0 <= k < |run.metrics| && ResultOf(Reconciled(run, inp), k).None?)
       <==> && (exists k :: 0 <= k < |run.metrics| && LeftOut(run, inp, k))
            && (forall k :: 0 <= k < |run.metrics| ==> LeftOut(run, inp, k) || Decided(run, inp, k))
            && (IsTerminating(run) || exists k :: 0 <= k < |run.metrics| && Decided(run, inp, k))
  {
    hide Reconciled, LeftOut, Decided, GetResult, IsTerminating, WorstOfResults;
    CompletesExactlyWhen(run, inp);
    ReconcileKeepsMetrics(run, inp);
    forall k | 0 <= k < |run.metrics|
      ensures ResultOf(Reconciled(run, inp), k).None? <==> LeftOut(run, inp, k)
      ensures Decided(run, inp, k) <==>
              ResultOf(Reconciled(run, inp), k).Some? && ResultOf(Reconciled(run, inp), k).value.phase.Completed()
    {
      UnmeasuredExactlyWhen(run, inp, k);
      DecidedIsDone(run, inp, k);
    }
  }

  // The first reconcile of a run whose second metric has a delay: the first metric alone completes it.
  lemma {:induction false} UnmeasuredMetricIsPassedOver(second: Metric, reply: Measurement)
    requires second.name != "first" && second.initialDelay == Seconds(60) && ValidMetric(second)
    requires reply.phase.Successful?
    ensures var first := Metric("first", Absent, Absent, None, None, None, None, 1);
            var run := Run([first, second], false, [], Unset, None);
            var inp := Inputs(1, true, _ => Reply(true, reply, reply, reply), _ => Collected);
            && Initial(Traced(run, [[], []], false))
            && Reconciled(run, inp).phase == Successful && GetResult(Reconciled(run, inp).results, second.name).None?
  {
    hide Reconciled;
    var first := Metric("first", Absent, Absent, None, None, None, None, 1);
    var run := Run([first, second], false, [], Unset, None);
    var inp := Inputs(1, true, _ => Reply(true, reply, reply, reply), _ => Collected);
    assert run.metrics[0] == first && run.metrics[1] == second;
    assert Proceeds(run, inp);
    FirstSucceeds(first, reply, inp);
    UnmeasuredExactlyWhen(run, inp, 1);
    ReconciledResult(run, inp, 0);
    CompletesExactlyWhen(run, inp);
    ReconcileKeepsMetrics(run, inp);
    assert ResultOf(Reconciled(run, inp), 0).value.phase == Successful;
  }

  lemma {:induction false} FirstSucceeds(first: Metric, reply: Measurement, inp: Inputs)
    requires first == Metric("first", Absent, Absent, None, None, None, None, 1) && reply.phase.Successful?
    requires inp.replies("first") == Reply(true, reply, reply, reply)
    ensures var r := AssessedOf(first, MeasuredOf(first, None, false, None, inp), false); r.Some? && r.value.phase == Successful
  {
  }

  /******* Terminating runs *******/

  // A terminating run starts no measurement: all it still does is bring those in flight to an end.
  lemma {:induction false} NothingNewIsStarted(run: Run, now: int, n: nat)
    requires IsTerminating(run) && n <= |run.metrics|
    ensures forall i :: 0 <= i < |TasksUpTo(run, now, n)| ==> TasksUpTo(run, now, n)[i].incomplete.Some?
  {
    hide IsTerminating, GetResult;
    if n > 0 {
      NothingNewIsStarted(run, now, n - 1);
    }
  }

  lemma {:induction false} StoppedMetricIsDone(metric: Metric, h: seq<Measurement>)
    requires h != [] && h[|h| - 1].phase.Completed()
    ensures Verdict(metric, h, true).Completed()
  {
  }

  // The first reconcile of a terminating run that leaves no measurement in flight completes the run.
  lemma {:induction false} TerminatingRunCompletes(t: Traced, inp: Inputs)
    requires Consistent(t) && SoundEvent(t.run, Reconcile(inp)) && Proceeds(t.run, inp) && IsTerminating(t.run)
    requires forall k :: 0 <= k < |t.run.metrics| ==> !InFlight(ResultOf(Reconciled(t.run, inp), k))
    ensures Reconciled(t.run, inp).phase.Completed()
    ensures HasResults(Reconciled(t.run, inp)) ==> WorstOfResults(Reconciled(t.run, inp), Reconciled(t.run, inp).phase)
  {
    hide CountOf, ErrorStreak, IsTerminating, Verdict, GetResult, Reconciled, HistoriesAfter, CountersAgree;
    var run', t' := Reconciled(t.run, inp), Next(t, Reconcile(inp));
    ReconcileIsConsistent(t, inp);
    CompletesExactlyWhen(t.run, inp);
    ReconcileKeepsMetrics(t.run, inp);
    forall k | 0 <= k < |run'.metrics| && ResultOf(run', k).Some? ensures ResultOf(run', k).value.phase.Completed() {
      var h := t'.histories[k];
      assert Refines(run'.metrics[k], ResultOf(run', k), h);
      assert LastMeasurement(ResultOf(run', k)) == Some(h[|h| - 1]);
      StoppedMetricIsDone(run'.metrics[k], h);
    }
  }

  // Over whole runs: a run that is terminating stays so, starts no measurement, and once completed never changes.
  lemma {:induction false} TerminatingForever(trace: seq<Traced>, events: seq<Event>, i: nat, j: nat)
    requires IsTrace(trace, events) && i <= j < |trace| && IsTerminating(trace[i].run)
    ensures IsTerminating(trace[j].run)
    decreases j - i
  {
    hide Reconciled, IsTerminating;
    if i < j {
      TerminatingForever(trace, events, i, j - 1);
      var e := events[j - 1];
      if e.Reconcile? {
        TerminationPersists(trace[j - 1].run, e.inp);
      } else {
        TerminatingIfBad(trace[j].run);
      }
    }
  }

  lemma {:induction false} CompletedForever(trace: seq<Traced>, events: seq<Event>, i: nat, j: nat)
    requires IsTrace(trace, events) && i <= j < |trace| && trace[i].run.phase.Completed()
    ensures trace[j].run.phase == trace[i].run.phase && trace[j].run.results == trace[i].run.results
    decreases j - i
  {
    if i < j {
      CompletedForever(trace, events, i, j - 1);
    }
  }
}
