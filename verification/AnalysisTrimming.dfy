// How much of a metric's history a run stores, when it is measured, and when the run asks to be reconciled again.
module AnalysisTrimming {
  import opened Wrappers
  import opened Analysis
  import opened AnalysisEngine
  import opened AnalysisMetrics
  import opened AnalysisHistory
  import AnalysisReplies
  import AnalysisLimits

  // The provider of every metric can be created, and collects its garbage.
  predicate AllCollected(run: Run, inp: Inputs) {
    forall k :: 0 <= k < |run.metrics| ==> inp.collections(run.metrics[k].name).Collected?
  }

  // A reconcile in which no collection fails stores at most the last ten measurements of each metric.
  lemma {:induction false} LimitIsKept(run: Run, inp: Inputs, k: nat)
    requires k < |run.metrics| && Proceeds(run, inp) && AllCollected(run, inp)
    ensures var r := GetResult(Reconciled(run, inp).results, run.metrics[k].name); r.Some? ==> |r.value.measurements| <= 10
  {
    hide GetResult, TaskFor, Measure, IsTerminating, AssessUpTo, TasksUpTo, RunTasks;
    var assessed, after := AssessedRun(MeasuredRun(run, inp), inp.now).results, Reconciled(run, inp).results;
    GetResultIsListed(after, run.metrics[k].name);
    if GetResult(after, run.metrics[k].name).Some? {
      var i :| 0 <= i < |after| && after[i] == GetResult(after, run.metrics[k].name).value;
      NothingBlocks(run, inp, assessed, i);
      assert HasMetric(run.metrics, assessed[i].name);
    }
  }

  lemma {:induction false} NothingBlocks(run: Run, inp: Inputs, results: seq<MetricResult>, i: nat)
    requires AllCollected(run, inp) && i <= |results|
    ensures !Blocked(run.metrics, results, HISTORY_LIMIT, inp.collections, i)
  {
  }

  // So after it a run stores exactly the last ten measurements of the whole history of each metric, or all if there are
  // fewer.
  lemma {:induction false} LastTenAreStored(trace: seq<Traced>, events: seq<Event>, i: nat, k: nat)
    requires IsTrace(trace, events) && Initial(trace[0]) && i < |events| && k < |trace[i].run.metrics|
    requires events[i].Reconcile? && Proceeds(trace[i].run, events[i].inp) && AllCollected(trace[i].run, events[i].inp)
    ensures k < |trace[i + 1].run.metrics|
    ensures var h, r := trace[i + 1].histories[k], ResultOf(trace[i + 1].run, k);
            && (r.None? <==> h == [])
            && (r.Some? ==> r.value.measurements == if |h| <= 10 then h else h[|h| - 10..])
  {
    hide Reconciled, GetResult, CountersAgree, WellFormedHistory, Verdict, Proceeds, AllCollected, HistoriesAfter;
    HistoriesRefined(trace, events, i + 1);
    ReconcileKeepsMetrics(trace[i].run, events[i].inp);
    LimitIsKept(trace[i].run, events[i].inp, k);
    assert Refines(trace[i + 1].run.metrics[k], ResultOf(trace[i + 1].run, k), trace[i + 1].histories[k]);
  }

  // More than ten measurements of one of the metrics are stored.
  predicate IsLong(run: Run, r: MetricResult) {
    |r.measurements| > 10 && exists k :: 0 <= k < |run.metrics| && run.metrics[k].name == r.name
  }

  // In general a result is cut to its last ten measurements exactly when it has more, its provider collects, and no
  // collection has failed before.
  lemma {:induction false} CutExactlyWhen(run: Run, inp: Inputs, i: nat)
    requires Proceeds(run, inp) && i < |AssessedRun(MeasuredRun(run, inp), inp.now).results|
    ensures var before, after := AssessedRun(MeasuredRun(run, inp), inp.now).results, Reconciled(run, inp).results;
            && i < |after|
            && after[i] == if && IsLong(run, before[i]) && inp.collections(before[i].name).Collected?
                              && forall j :: 0 <= j < i && IsLong(run, before[j]) ==> !inp.collections(before[j].name).CollectFailed?
                           then before[i].(measurements := before[i].measurements[|before[i].measurements| - 10..])
                           else before[i]
  {
    hide AssessedRun, MeasuredRun, HasMetric;
    var before := AssessedRun(MeasuredRun(run, inp), inp.now).results;
    forall j | 0 <= j <= i ensures HasMetric(run.metrics, before[j].name) <==> exists k :: 0 <= k < |run.metrics| && run.metrics[k].name == before[j].name {
      HasMetricExactly(run.metrics, before[j].name);
    }
  }

  lemma {:induction false} HasMetricExactly(metrics: seq<Metric>, name: string)
    ensures HasMetric(metrics, name) <==> exists k :: 0 <= k < |metrics| && metrics[k].name == name
  {
  }

  // A provider that cannot be created, or does not collect, costs no measurement.
  lemma {:induction false} UncollectedKeepsAll(run: Run, inp: Inputs, k: nat)
    requires k < |run.metrics| && DistinctNames(run.metrics) && Proceeds(run, inp)
    requires !inp.collections(run.metrics[k].name).Collected?
    ensures var before, after := ResultOf(run, k), ResultOf(Reconciled(run, inp), k);
            var kept := AnalysisReplies.MeasurementsOf(before);
            if AnalysisReplies.HasTask(run, k, inp.now)
            then |AnalysisReplies.MeasurementsOf(after)| == if AnalysisReplies.InFlight(before).Some? then |kept| else |kept| + 1
            else AnalysisReplies.MeasurementsOf(after) == kept
  {
    hide AssessedOf, MeasuredOf, TaskFor, GetResult, IsTerminating, AnalysisReplies.IsMeasurement, Proceeds, Reconciled;
    var metric, before, t := run.metrics[k], ResultOf(run, k), IsTerminating(run);
    ReconcileKeepsMetrics(run, inp);
    ReconciledResult(run, inp, k);
    if AnalysisReplies.HasTask(run, k, inp.now) {
      AnalysisReplies.AssessedMeasurements(metric, before, t, run.startedAt, inp);
    } else {
      AnalysisReplies.UnaskedMeasurements(metric, before, t, run.startedAt, inp);
    }
  }

  // A run starts with its first reconcile.
  lemma {:induction false} StartIsRecorded(run: Run, inp: Inputs)
    requires Proceeds(run, inp)
    ensures Reconciled(run, inp).startedAt == if run.startedAt.None? then Some(inp.now) else run.startedAt
  {
  }

  predicate StartIsDue(metric: Metric, startedAt: Option<int>, now: int) {
    match metric.initialDelay
    case Absent => true
    case Seconds(s) => startedAt.Some? && startedAt.value + s <= now
    case Unparseable => false
  }

  // After an error, and without an interval, ten seconds have to pass.
  predicate RetryIsDue(metric: Metric, last: Measurement, now: int)
    requires last.finishedAt.Some?
  {
    if last.phase == Error || metric.interval.Absent? then now > last.finishedAt.value + 10
    else metric.interval.Seconds? && now > last.finishedAt.value + metric.interval.s
  }

  // What is in flight is taken up again when it is to be; a first or a further measurement is taken when it is due,
  // unless
  // the run is terminating or the metric has been measured as often as it says.
  predicate IsDue(metric: Metric, h: seq<Measurement>, terminating: bool, startedAt: Option<int>, times: Option<int>,
                  now: int) {
    if h == [] then !terminating && StartIsDue(metric, startedAt, now)
    else
      var last := h[|h| - 1];
      if last.finishedAt.None? then last.resumeAt.None? || last.resumeAt.value <= now
      else !terminating && (times.Some? ==> Counts(h) < times.value) && RetryIsDue(metric, last, now)
  }

  // In every reachable state a metric has something to do exactly when it is undecided and due by its whole history.
  lemma {:induction false} MeasuredExactlyWhen(trace: seq<Traced>, events: seq<Event>, i: nat, k: nat, now: int,
                                               times: Option<int>)
    requires IsTrace(trace, events) && Initial(trace[0]) && i < |trace| && k < |trace[i].run.metrics|
    requires AnalysisLimits.IsMeasured(trace[i].run.metrics[k], times)
    ensures var run, result := trace[i].run, ResultOf(trace[i].run, k);
            AnalysisReplies.HasTask(run, k, now) <==>
            && !(result.Some? && result.value.phase in {Successful, Failed, Error, Inconclusive})
            && IsDue(run.metrics[k], trace[i].histories[k], IsTerminating(run), run.startedAt, times, now)
  {
    hide Next, Verdict, CountOf, ErrorStreak, GetResult, IsTerminating;
    HistoriesRefined(trace, events, i);
    assert Refines(trace[i].run.metrics[k], ResultOf(trace[i].run, k), trace[i].histories[k]);
  }

  lemma {:induction false} FinishedOneCounts(h: seq<Measurement>)
    requires h != [] && h[|h| - 1].phase in {Successful, Failed, Inconclusive}
    ensures Counts(h) >= 1
  {
  }

  // In a run that has started, a valid metric that has nothing to do now but will have later asks for a time up to
  // then.
  lemma {:induction false} LaterTaskIsAskedFor(trace: seq<Traced>, events: seq<Event>, i: nat, k: nat, now: int,
                                               later: int)
    requires IsTrace(trace, events) && Initial(trace[0]) && i < |trace| && k < |trace[i].run.metrics|
    requires ValidMetric(trace[i].run.metrics[k]) && trace[i].run.startedAt.Some?
    requires var metric, result, startedAt := trace[i].run.metrics[k], ResultOf(trace[i].run, k), trace[i].run.startedAt;
             TaskFor(metric, result, false, startedAt, now).None? && TaskFor(metric, result, false, startedAt, later).Some?
    ensures DueTimeOf(trace[i].run, k, now).Some? && DueTimeOf(trace[i].run, k, now).value <= later
  {
    hide Next, Verdict, CountOf, ErrorStreak, GetResult;
    HistoriesRefined(trace, events, i);
    var h, result := trace[i].histories[k], ResultOf(trace[i].run, k);
    assert Refines(trace[i].run.metrics[k], result, h);
    if h != [] && h[|h| - 1].phase in {Successful, Failed, Inconclusive} {
      FinishedOneCounts(h);
    }
  }

  // So if a run asks for no time, no metric that has nothing to do now will have anything later.
  lemma {:induction false} NoTimeMeansNoWork(trace: seq<Traced>, events: seq<Event>, i: nat, k: nat, now: int,
                                             later: int)
    requires IsTrace(trace, events) && Initial(trace[0]) && i < |trace| && k < |trace[i].run.metrics|
    requires ValidMetric(trace[i].run.metrics[k]) && trace[i].run.startedAt.Some?
    requires IsEarliest(trace[i].run, now, |trace[i].run.metrics|, None)
    requires TaskFor(trace[i].run.metrics[k], ResultOf(trace[i].run, k), false, trace[i].run.startedAt, now).None?
    ensures TaskFor(trace[i].run.metrics[k], ResultOf(trace[i].run, k), false, trace[i].run.startedAt, later).None?
  {
    hide Next, TaskFor, GetResult, DueTime;
    if TaskFor(trace[i].run.metrics[k], ResultOf(trace[i].run, k), false, trace[i].run.startedAt, later).Some? {
      LaterTaskIsAskedFor(trace, events, i, k, now, later);
    }
  }
}
