// The counters and the verdict of a metric agree with its whole history of measurements, although the
// run itself only keeps the latest ones.
module AnalysisHistory {
  import opened Wrappers
  import opened Analysis
  import opened AnalysisEngine
  import opened AnalysisMetrics

  /******* What a history says *******/

  function CountOf(h: seq<Measurement>, p: Phase): nat {
    if h == [] then 0 else CountOf(h[..|h| - 1], p) + if h[|h| - 1].phase == p then 1 else 0
  }

  // How many errors the history ends with; a measurement in flight is not looked at.
  function ErrorStreak(h: seq<Measurement>): nat {
    if h == [] then 0
    else if h[|h| - 1].phase.Error? then ErrorStreak(h[..|h| - 1]) + 1
    else if h[|h| - 1].phase.Completed() then 0
    else ErrorStreak(h[..|h| - 1])
  }

  // Measurements that count towards the metric's count: all but errors.
  function Counts(h: seq<Measurement>): nat { CountOf(h, Successful) + CountOf(h, Failed) + CountOf(h, Inconclusive) }

  // The verdict on a metric with this history in a run that is, or is not, to be stopped.
  function Verdict(metric: Metric, h: seq<Measurement>, stopped: bool): Phase {
    if h == [] then if stopped then Successful else Pending
    else if !h[|h| - 1].phase.Completed() then Running
    else if ErrorStreak(h) > metric.ErrorLimit() then Error
    else if CountOf(h, Inconclusive) > metric.InconclusiveLimit() then Inconclusive
    else if CountOf(h, Failed) > metric.FailureLimit() then Failed
    else if metric.EffectiveCount().Some? && Counts(h) >= metric.EffectiveCount().value then Successful
    else if stopped then Successful
    else Running
  }

  // Providers set finishedAt only on a completed measurement.
  predicate Sound(m: Measurement) { m.finishedAt.Some? ==> m.phase.Completed() }

  predicate SoundReply(reply: Reply) { Sound(reply.run) && Sound(reply.resume) && Sound(reply.terminate) }

  predicate Closed(m: Measurement) { m.phase.Completed() && m.finishedAt.Some? }

  // Only the last measurement may be in flight.
  predicate WellFormedHistory(h: seq<Measurement>) {
    && (forall i :: 0 <= i < |h| - 1 ==> Closed(h[i]))
    && (h != [] ==> h[|h| - 1].phase.Completed() == h[|h| - 1].finishedAt.Some?)
  }

  predicate CountersAgree(r: MetricResult, h: seq<Measurement>) {
    && r.successful == CountOf(h, Successful)
    && r.failed == CountOf(h, Failed)
    && r.inconclusive == CountOf(h, Inconclusive)
    && r.error == CountOf(h, Error)
    && r.count == Counts(h)
    && r.consecutiveError == ErrorStreak(h)
  }

  // The run keeps the end of the history, at least the last HISTORY_LIMIT measurements of it.
  predicate Remembers(r: MetricResult, h: seq<Measurement>) {
    && Min(|h|, HISTORY_LIMIT) <= |r.measurements| <= |h|
    && r.measurements == h[|h| - |r.measurements|..]
  }

  predicate Refines(metric: Metric, result: Option<MetricResult>, h: seq<Measurement>) {
    && WellFormedHistory(h)
    && (result.None? <==> h == [])
    && (result.Some? ==> CountersAgree(result.value, h) && Remembers(result.value, h))
  }

  /******* One metric, one reconcile *******/

  // The history after a reconcile: a task appends its measurement, or replaces the one in flight.
  function HistoryAfter(h: seq<Measurement>, metric: Metric, result: Option<MetricResult>, terminating: bool,
                        startedAt: Option<int>, inp: Inputs): seq<Measurement> {
    match TaskFor(metric, result, terminating, startedAt, inp.now)
    case None => h
    case Some(task) => Recorded(h, task.incomplete, Measured(task.incomplete, terminating, inp.replies(metric.name), inp.now))
  }

  lemma {:induction false} Appended(h: seq<Measurement>, m: Measurement)
    ensures forall p :: CountOf(h + [m], p) == CountOf(h, p) + if m.phase == p then 1 else 0
    ensures ErrorStreak(h + [m]) == if m.phase.Error? then ErrorStreak(h) + 1 else if m.phase.Completed() then 0 else ErrorStreak(h)
  {
    assert (h + [m])[..|h|] == h;
  }

  // A measurement in flight contributes nothing, so replacing it is appending to what came before.
  lemma {:induction false} InFlightContributesNothing(h: seq<Measurement>)
    requires h != [] && !h[|h| - 1].phase.Completed()
    ensures forall p: Phase :: p.Completed() ==> CountOf(h, p) == CountOf(h[..|h| - 1], p)
    ensures ErrorStreak(h) == ErrorStreak(h[..|h| - 1])
  {
  }

  lemma {:induction false} CountedAgrees(r: MetricResult, h: seq<Measurement>, m: Measurement)
    requires CountersAgree(r, h)
    ensures CountersAgree(Counted(r, m.phase), h + [m])
  {
    Appended(h, m);
  }

  // Measuring keeps counters and history together.
  lemma {:induction false} MeasuringRefines(metric: Metric, result: Option<MetricResult>, h: seq<Measurement>,
                                            terminating: bool, startedAt: Option<int>, inp: Inputs)
    requires Refines(metric, result, h) && SoundReply(inp.replies(metric.name))
    ensures Refines(metric, MeasuredOf(metric, result, terminating, startedAt, inp), HistoryAfter(h, metric, result, terminating, startedAt, inp))
  {
    hide Counted, CountersAgree, Remembers, WellFormedHistory;
    var task := TaskFor(metric, result, terminating, startedAt, inp.now);
    if task.Some? {
      var m := Measured(task.value.incomplete, terminating, inp.replies(metric.name), inp.now);
      var r := if result.Some? then result.value else NewResult(metric.name);
      TaskMatchesHistory(metric, result, h, terminating, startedAt, inp.now);
      MeasuredIsSound(task.value.incomplete, terminating, inp.replies(metric.name), inp.now);
      CountingKeepsMeasurements(r, m.phase);
      if task.value.incomplete.Some? {
        ReplacingRefines(r, h, m);
      } else {
        NewResultAgrees(metric.name);
        AppendingRefines(r, h, m);
      }
    }
  }

  lemma {:induction false} NewResultAgrees(name: string)
    ensures CountersAgree(NewResult(name), [])
  {
  }

  lemma {:induction false} MeasuredIsSound(incomplete: Option<Measurement>, terminating: bool, reply: Reply, now: int)
    requires SoundReply(reply)
    requires incomplete.Some? ==> incomplete.value.finishedAt.None?
    ensures var m := Measured(incomplete, terminating, reply, now); m.phase.Completed() == m.finishedAt.Some?
  {
  }

  // A task resumes exactly the history's last measurement when that is in flight, and otherwise starts a new one.
  lemma {:induction false} TaskMatchesHistory(metric: Metric, result: Option<MetricResult>, h: seq<Measurement>,
                                              terminating: bool, startedAt: Option<int>, now: int)
    requires Refines(metric, result, h) && TaskFor(metric, result, terminating, startedAt, now).Some?
    ensures var t := TaskFor(metric, result, terminating, startedAt, now).value;
            && (t.incomplete.Some? ==> h != [] && t.incomplete.value == h[|h| - 1] && t.incomplete.value.finishedAt.None?)
            && (t.incomplete.None? ==> forall i :: 0 <= i < |h| ==> Closed(h[i]))
  {
    if h != [] {
      assert LastMeasurement(result) == Some(h[|h| - 1]);
    }
  }

  lemma {:induction false} AppendingRefines(r: MetricResult, h: seq<Measurement>, m: Measurement)
    requires forall i :: 0 <= i < |h| ==> Closed(h[i])
    requires m.phase.Completed() == m.finishedAt.Some?
    requires if h == [] then CountersAgree(r, []) && r.measurements == [] else CountersAgree(r, h) && Remembers(r, h)
    ensures WellFormedHistory(h + [m])
    ensures CountersAgree(Counted(r, m.phase).(measurements := r.measurements + [m]), h + [m])
    ensures Remembers(Counted(r, m.phase).(measurements := r.measurements + [m]), h + [m])
  {
    hide Counted, CountOf, ErrorStreak;
    CountedAgrees(r, h, m);
  }

  lemma {:induction false} ReplacingRefines(r: MetricResult, h: seq<Measurement>, m: Measurement)
    requires WellFormedHistory(h) && h != [] && h[|h| - 1].finishedAt.None? && CountersAgree(r, h) && Remembers(r, h)
    requires m.phase.Completed() == m.finishedAt.Some?
    ensures r.measurements != []
    ensures WellFormedHistory(h[|h| - 1 := m])
    ensures var r' := Counted(r, m.phase).(measurements := r.measurements[|r.measurements| - 1 := m]);
            CountersAgree(r', h[|h| - 1 := m]) && Remembers(r', h[|h| - 1 := m])
  {
    hide Counted, CountOf, ErrorStreak;
    var init := h[..|h| - 1];
    InFlightContributesNothing(h);
    assert CountersAgree(r, init);
    CountedAgrees(r, init, m);
    assert init + [m] == h[|h| - 1 := m];
  }

  // The verdict of a result that agrees with its history is the verdict on the history.
  lemma {:induction false} AssessingIsVerdict(metric: Metric, r: MetricResult, h: seq<Measurement>, stopped: bool)
    requires h != [] && CountersAgree(r, h) && Remembers(r, h) && !r.phase.Completed()
    ensures AssessMetric(metric, r, stopped) == Verdict(metric, h, stopped)
  {
    hide CountOf, ErrorStreak;
    assert r.measurements[|r.measurements| - 1] == h[|h| - 1];
  }

  // A metric that is done stays done with the same verdict, also when the run is stopped later.
  lemma {:induction false} VerdictIsStable(metric: Metric, h: seq<Measurement>, stopped: bool, stopped': bool)
    requires Verdict(metric, h, stopped).Completed() && (stopped ==> stopped')
    ensures Verdict(metric, h, stopped') == Verdict(metric, h, stopped)
  {
  }

  // The result after a reconcile, before it is trimmed: in agreement with the new history and assessed accordingly.
  lemma {:induction false} MetricStep(metric: Metric, result: Option<MetricResult>, h: seq<Measurement>,
                                      stopped: bool, terminating: bool, startedAt: Option<int>, inp: Inputs)
    requires Refines(metric, result, h) && SoundReply(inp.replies(metric.name))
    requires result.Some? ==> result.value.phase == Verdict(metric, h, stopped)
    requires stopped ==> terminating
    ensures var h' := HistoryAfter(h, metric, result, terminating, startedAt, inp);
            var after := AssessedOf(metric, MeasuredOf(metric, result, terminating, startedAt, inp), terminating);
            Refines(metric, after, h') && (after.Some? ==> after.value.phase == Verdict(metric, h', terminating))
  {
    hide Counted, Measured, Verdict, AssessMetric, CountersAgree, Remembers, WellFormedHistory, TaskFor, MeasuredOf;
    var h' := HistoryAfter(h, metric, result, terminating, startedAt, inp);
    var measured := MeasuredOf(metric, result, terminating, startedAt, inp);
    MeasuringRefines(metric, result, h, terminating, startedAt, inp);
    if measured.Some? {
      PhaseDoesNotMatter(metric, measured.value, h', AssessMetric(metric, measured.value, terminating));
      MeasuredPhase(metric, result, terminating, startedAt, inp);
      if measured.value.phase.Completed() {
        VerdictIsStable(metric, h, stopped, terminating);
        CompletedStaysAsAssessed(metric, measured.value, terminating);
      } else {
        AssessingIsVerdict(metric, measured.value, h', terminating);
      }
    }
  }

  lemma {:induction false} PhaseDoesNotMatter(metric: Metric, r: MetricResult, h: seq<Measurement>, p: Phase)
    requires Refines(metric, Some(r), h)
    ensures Refines(metric, Some(r.(phase := p)), h)
  {
    hide CountOf, ErrorStreak;
  }

  lemma {:induction false} CompletedStaysAsAssessed(metric: Metric, r: MetricResult, terminating: bool)
    requires r.phase.Completed()
    ensures AssessMetric(metric, r, terminating) == r.phase
  {
  }

  // Measuring changes no phase, and does not touch a metric that is done.
  lemma {:induction false} MeasuredPhase(metric: Metric, result: Option<MetricResult>, terminating: bool,
                                         startedAt: Option<int>, inp: Inputs)
    ensures var measured := MeasuredOf(metric, result, terminating, startedAt, inp);
            && (result.Some? ==> measured.Some? && measured.value.phase == result.value.phase)
            && (MetricCompleted(result) ==> measured == result && TaskFor(metric, result, terminating, startedAt, inp.now).None?)
            && (result.None? && measured.Some? ==> !measured.value.phase.Completed())
  {
    hide Measured, Counted;
    var task := TaskFor(metric, result, terminating, startedAt, inp.now);
    if task.Some? {
      CountingKeepsMeasurements(if result.Some? then result.value else NewResult(metric.name),
                                Measured(task.value.incomplete, terminating, inp.replies(metric.name), inp.now).phase);
    }
  }

  lemma {:induction false} TrimmingRefines(metric: Metric, r: MetricResult, r': MetricResult, h: seq<Measurement>)
    requires Refines(metric, Some(r), h) && TrimmedTo(r, r', HISTORY_LIMIT)
    ensures Refines(metric, Some(r'), h) && r'.phase == r.phase
  {
    hide CountOf, ErrorStreak;
    if r' != r {
      assert r'.measurements == h[|h| - HISTORY_LIMIT..];
    }
  }

  /******* Runs *******/

  datatype Event = Reconcile(inp: Inputs) | RequestTermination

  // A run with the whole history of each metric, and whether the last assessment was made while stopping.
  datatype Traced = Traced(run: Run, histories: seq<seq<Measurement>>, stopped: bool)

  function ResultOf(run: Run, k: nat): Option<MetricResult>
    requires k < |run.metrics|
  {
    GetResult(run.results, run.metrics[k].name)
  }

  function HistoriesAfter(t: Traced, inp: Inputs): seq<seq<Measurement>>
    requires |t.histories| == |t.run.metrics|
  {
    seq(|t.histories|, k requires 0 <= k < |t.histories| =>
      HistoryAfter(t.histories[k], t.run.metrics[k], ResultOf(t.run, k), IsTerminating(t.run), t.run.startedAt, inp))
  }

  function Next(t: Traced, e: Event): Traced
    requires |t.histories| == |t.run.metrics|
  {
    match e
    case RequestTermination => t.(run := t.run.(terminate := true))
    case Reconcile(inp) =>
      var run' := Reconciled(t.run, inp);
      if Proceeds(t.run, inp) then Traced(run', HistoriesAfter(t, inp), IsTerminating(t.run)) else t.(run := run')
  }

  // Counters, stored measurements and verdicts of all metrics agree with the histories.
  predicate Consistent(t: Traced) {
    && DistinctNames(t.run.metrics)
    && |t.histories| == |t.run.metrics|
    && (t.stopped ==> IsTerminating(t.run))
    && forall k :: 0 <= k < |t.run.metrics| ==>
         && Refines(t.run.metrics[k], ResultOf(t.run, k), t.histories[k])
         && (ResultOf(t.run, k).Some? ==> ResultOf(t.run, k).value.phase == Verdict(t.run.metrics[k], t.histories[k], t.stopped))
  }

  predicate SoundEvent(run: Run, e: Event) {
    e.Reconcile? ==> forall k :: 0 <= k < |run.metrics| ==> SoundReply(e.inp.replies(run.metrics[k].name))
  }

  lemma {:induction false} ReconcileIsConsistent(t: Traced, inp: Inputs)
    requires Consistent(t) && SoundEvent(t.run, Reconcile(inp)) && Proceeds(t.run, inp)
    ensures Consistent(Next(t, Reconcile(inp)))
  {
    hide AssessMetric, TaskFor, Measured, GetResult, IsTerminating, Refines, Verdict;
    var t' := Next(t, Reconcile(inp));
    var terminating := IsTerminating(t.run);
    forall k | 0 <= k < |t.run.metrics|
      ensures Refines(t'.run.metrics[k], ResultOf(t'.run, k), t'.histories[k])
      ensures ResultOf(t'.run, k).Some? ==> ResultOf(t'.run, k).value.phase == Verdict(t'.run.metrics[k], t'.histories[k], t'.stopped)
    {
      var metric, result, h := t.run.metrics[k], ResultOf(t.run, k), t.histories[k];
      MetricStep(metric, result, h, t.stopped, terminating, t.run.startedAt, inp);
      ReconciledResult(t.run, inp, k);
      var assessed := AssessedOf(metric, MeasuredOf(metric, result, terminating, t.run.startedAt, inp), terminating);
      if assessed.Some? {
        TrimmingRefines(metric, assessed.value, ResultOf(t'.run, k).value, t'.histories[k]);
      }
    }
    if terminating {
      TerminationPersists(t.run, inp);
    }
  }

  // Once a run is terminating it stays so.
  lemma {:induction false} TerminationPersists(run: Run, inp: Inputs)
    requires IsTerminating(run)
    ensures IsTerminating(Reconciled(run, inp))
  {
    hide AssessMetric, TaskFor, Measured, GetResult, SetResult, IsTerminating;
    if Proceeds(run, inp) {
      SameTermination(run, inp);
      var measured := MeasuredRun(run, inp);
      AssessingKeepsBad(run.metrics, IsTerminating(run), measured.results, |run.metrics|);
      var assessed := AssessedRun(measured, inp.now);
      TerminatingIfBad(measured);
      TerminatingIfBad(assessed);
      TerminatingIfBad(Reconciled(run, inp));
      if AnyBad(assessed.results) {
        var i :| 0 <= i < |assessed.results| && assessed.results[i].phase.Bad();
        assert Reconciled(run, inp).results[i].phase.Bad();
      }
    } else {
      TerminatingIfBad(run);
      TerminatingIfBad(Reconciled(run, inp));
    }
  }

  lemma {:induction false} TerminatingIfBad(run: Run)
    ensures IsTerminating(run) <==> run.terminate || AnyBad(run.results)
  {
  }

  // Assessing leaves a phase that ends the run as it is.
  lemma {:induction false} AssessingKeepsBad(metrics: seq<Metric>, terminating: bool, results: seq<MetricResult>,
                                             n: nat)
    requires n <= |metrics|
    ensures AnyBad(results) ==> AnyBad(AssessUpTo(metrics, terminating, results, n).results)
  {
    hide AssessMetric, SetResult, GetResult, Rank;
    if n > 0 {
      AssessingKeepsBad(metrics, terminating, results, n - 1);
      var a := AssessUpTo(metrics, terminating, results, n - 1);
      var found := GetResult(a.results, metrics[n - 1].name);
      if found.Some? {
        var r := found.value;
        var status := AssessMetric(metrics[n - 1], r, terminating);
        GetResultIsListed(a.results, metrics[n - 1].name);
        if r.phase != status {
          if r.phase.Bad() { CompletedStaysAsAssessed(metrics[n - 1], r, terminating); }
          assert r.name == metrics[n - 1].name && !r.phase.Bad();
          SetKeepsBad(a.results, r.(phase := status));
        }
      }
    }
  }

  lemma {:induction false} SetKeepsBad(results: seq<MetricResult>, r: MetricResult)
    requires GetResult(results, r.name).Some? ==> !GetResult(results, r.name).value.phase.Bad()
    ensures AnyBad(results) ==> AnyBad(SetResult(results, r))
  {
    if results != [] {
      var rest := results[1..];
      AnyBadOfCons(results[0], rest);
      assert [results[0]] + rest == results;
      if results[0].name == r.name {
        AnyBadOfCons(r, rest);
      } else {
        SetKeepsBad(rest, r);
        AnyBadOfCons(results[0], SetResult(rest, r));
      }
    }
  }

  lemma {:induction false} StepIsConsistent(t: Traced, e: Event)
    requires Consistent(t) && SoundEvent(t.run, e)
    ensures Consistent(Next(t, e))
  {
    hide Refines, Verdict, GetResult;
    if e.Reconcile? && Proceeds(t.run, e.inp) {
      ReconcileIsConsistent(t, e.inp);
    } else {
      assert Next(t, e).run.results == t.run.results;
    }
  }

  // A run as it was created.
  predicate Initial(t: Traced) {
    && t.run.results == [] && t.run.phase == Unset && t.run.startedAt.None? && DistinctNames(t.run.metrics) && !t.stopped
    && |t.histories| == |t.run.metrics| && forall k :: 0 <= k < |t.histories| ==> t.histories[k] == []
  }

  ghost predicate IsTrace(trace: seq<Traced>, events: seq<Event>) {
    && |trace| == |events| + 1
    && (forall i :: 0 <= i < |trace| ==> |trace[i].histories| == |trace[i].run.metrics|)
    && forall i :: 0 <= i < |events| ==> SoundEvent(trace[i].run, events[i]) && trace[i + 1] == Next(trace[i], events[i])
  }

  // In every reachable state the counters are the folds over the whole history, ConsecutiveError is its
  // trailing error streak, and every verdict is the verdict on that history.
  lemma {:induction false} HistoriesRefined(trace: seq<Traced>, events: seq<Event>, i: nat)
    requires IsTrace(trace, events) && Initial(trace[0]) && i < |trace|
    ensures Consistent(trace[i])
  {
    if i > 0 {
      HistoriesRefined(trace, events, i - 1);
      StepIsConsistent(trace[i - 1], events[i - 1]);
    }
  }
}
