// Which of the provider's answers a measurement is.
module AnalysisReplies {
  import opened Wrappers
  import opened Analysis
  import opened AnalysisEngine
  import opened AnalysisMetrics
  import opened AnalysisHistory

  // The measurement that a reconcile takes up again, if the last one of a metric is in flight.
  function InFlight(result: Option<MetricResult>): Option<Measurement> {
    var last := LastMeasurement(result);
    if last.Some? && last.value.finishedAt.None? then last else None
  }

  // m is the answer, with the time at which it arrived unless it brings its own or is not final.
  predicate IsAnswer(m: Measurement, answer: Measurement, now: int) {
    && m.phase == answer.phase && m.resumeAt == answer.resumeAt
    && m.finishedAt == if answer.finishedAt.None? && answer.phase in {Successful, Failed, Error, Inconclusive} then Some(now) else answer.finishedAt
  }

  // What the provider of a metric has been asked: to start, or to resume or terminate what is in flight. Without a
  // provider the measurement is an error, and one in flight keeps the time at which it was to be resumed.
  predicate IsMeasurement(m: Measurement, inFlight: Option<Measurement>, terminating: bool, reply: Reply, now: int) {
    if !reply.available then
      m.phase == Error && m.resumeAt == (if inFlight.Some? then inFlight.value.resumeAt else None) && m.finishedAt == Some(now)
    else IsAnswer(m, if inFlight.None? then reply.run else if terminating then reply.terminate else reply.resume, now)
  }

  // Before with m in place of the measurement in flight, or behind it.
  function Taken(before: seq<Measurement>, inFlight: bool, m: Measurement): seq<Measurement> {
    if inFlight && before != [] then before[..|before| - 1] + [m] else before + [m]
  }

  // The measurements are all that are there, or the latest ten of more.
  predicate IsEndOf(after: seq<Measurement>, all: seq<Measurement>) {
    after == all || (|all| > HISTORY_LIMIT && after == all[|all| - HISTORY_LIMIT..])
  }

  function MeasurementsOf(result: Option<MetricResult>): seq<Measurement> {
    if result.Some? then result.value.measurements else []
  }

  lemma {:induction false} OneMeasurement(metric: Metric, result: Option<MetricResult>, task: MetricTask,
                                          terminating: bool,
                                          reply: Reply, now: int)
    requires task == MetricTask(metric, InFlight(result))
    ensures var r := Measure(result, task, terminating, reply, now);
            && r.measurements != []
            && var m := r.measurements[|r.measurements| - 1];
               IsMeasurement(m, InFlight(result), terminating, reply, now)
               && r.measurements == Taken(MeasurementsOf(result), InFlight(result).Some?, m)
  {
    hide Counted;
    var m := Measured(task.incomplete, terminating, reply, now);
    CountingKeepsMeasurements(if result.Some? then result.value else NewResult(metric.name), m.phase);
  }

  lemma {:induction false} TaskResumesInFlight(metric: Metric, result: Option<MetricResult>, terminating: bool,
                                               startedAt: Option<int>, now: int)
    requires TaskFor(metric, result, terminating, startedAt, now).Some?
    ensures TaskFor(metric, result, terminating, startedAt, now).value == MetricTask(metric, InFlight(result))
  {
  }

  // Metric k has something to do in the reconcile.
  predicate HasTask(run: Run, k: nat, now: int)
    requires k < |run.metrics|
  {
    TaskFor(run.metrics[k], ResultOf(run, k), IsTerminating(run), run.startedAt, now).Some?
  }

  // What one metric's goroutine and the assessment leave.
  lemma {:induction false} AssessedMeasurements(metric: Metric, before: Option<MetricResult>, t: bool,
                                                startedAt: Option<int>, inp: Inputs)
    requires TaskFor(metric, before, t, startedAt, inp.now).Some?
    ensures var r := AssessedOf(metric, MeasuredOf(metric, before, t, startedAt, inp), t);
            && r.Some? && r.value.measurements != []
            && var m := r.value.measurements[|r.value.measurements| - 1];
               IsMeasurement(m, InFlight(before), t, inp.replies(metric.name), inp.now)
               && r.value.measurements == Taken(MeasurementsOf(before), InFlight(before).Some?, m)
  {
    hide AssessMetric, TaskFor, Measure, IsMeasurement, Taken, InFlight;
    TaskResumesInFlight(metric, before, t, startedAt, inp.now);
    OneMeasurement(metric, before, MetricTask(metric, InFlight(before)), t, inp.replies(metric.name), inp.now);
  }

  lemma {:induction false} UnaskedMeasurements(metric: Metric, before: Option<MetricResult>, t: bool,
                                               startedAt: Option<int>, inp: Inputs)
    requires TaskFor(metric, before, t, startedAt, inp.now).None?
    ensures MeasurementsOf(AssessedOf(metric, MeasuredOf(metric, before, t, startedAt, inp), t)) ==
            MeasurementsOf(before)
  {
    hide AssessMetric, TaskFor;
  }

  lemma {:induction false} TrimmedIsEnd(r: Option<MetricResult>, r': Option<MetricResult>)
    requires r.Some? == r'.Some? && (r.Some? ==> TrimmedTo(r.value, r'.value, HISTORY_LIMIT))
    ensures IsEndOf(MeasurementsOf(r'), MeasurementsOf(r))
    ensures MeasurementsOf(r) != [] ==> LastMeasurement(r') == Some(MeasurementsOf(r)[|MeasurementsOf(r)| - 1])
  {
  }

  // In a reconcile that measures, a metric with something to do ends up with one more measurement, or with the one in
  // flight replaced, and that is the provider's answer to what it was asked: to start a measurement when none is in
  // flight, to terminate the one in flight when the run is terminating, and to resume it otherwise. All other metrics
  // keep their measurements.
  lemma {:induction false} LastMeasurementIsAnswer(run: Run, inp: Inputs, k: nat)
    requires k < |run.metrics| && DistinctNames(run.metrics) && Proceeds(run, inp)
    ensures var before, after := ResultOf(run, k), ResultOf(Reconciled(run, inp), k);
            if HasTask(run, k, inp.now) then
              && LastMeasurement(after).Some?
              && var m := LastMeasurement(after).value;
                 IsMeasurement(m, InFlight(before), IsTerminating(run), inp.replies(run.metrics[k].name), inp.now)
                 && IsEndOf(MeasurementsOf(after), Taken(MeasurementsOf(before), InFlight(before).Some?, m))
            else IsEndOf(MeasurementsOf(after), MeasurementsOf(before))
  {
    hide AssessedOf, MeasuredOf, TaskFor, GetResult, IsTerminating, IsMeasurement, InFlight, IsEndOf, Taken, TrimmedTo;
    var metric, before, t := run.metrics[k], ResultOf(run, k), IsTerminating(run);
    var assessed := AssessedOf(metric, MeasuredOf(metric, before, t, run.startedAt, inp), t);
    ReconcileKeepsMetrics(run, inp);
    ReconciledResult(run, inp, k);
    TrimmedIsEnd(assessed, ResultOf(Reconciled(run, inp), k));
    if HasTask(run, k, inp.now) {
      AssessedMeasurements(metric, before, t, run.startedAt, inp);
    } else {
      UnaskedMeasurements(metric, before, t, run.startedAt, inp);
    }
  }

  /******* Runs *******/

  // Two environments that differ at most in what terminating a measurement gives.
  ghost predicate SameButTerminate(e: Event, e': Event) {
    match (e, e')
    case (Reconcile(inp), Reconcile(inp')) =>
      && inp.now == inp'.now && inp.argsResolved == inp'.argsResolved && inp.collections == inp'.collections
      && forall name :: inp'.replies(name) == inp.replies(name).(terminate := inp'.replies(name).terminate)
    case _ => e == e'
  }

  // As long as a run is not terminating, nothing of it depends on what terminating a measurement would give: no
  // measurement in its history is the answer to a termination.
  lemma {:induction false} TerminateIsNotAsked(trace: seq<Traced>, events: seq<Event>, trace': seq<Traced>,
                                               events': seq<Event>, i: nat)
    requires IsTrace(trace, events) && IsTrace(trace', events') && trace[0] == trace'[0]
    requires |events| == |events'| && i < |trace|
    requires forall j :: 0 <= j < i ==> SameButTerminate(events[j], events'[j]) && !IsTerminating(trace[j].run)
    ensures trace'[i] == trace[i]
  {
    hide Next;
    if i > 0 {
      TerminateIsNotAsked(trace, events, trace', events', i - 1);
      StepWithoutTerminate(trace[i - 1], events[i - 1], events'[i - 1]);
    }
  }

  lemma {:induction false} StepWithoutTerminate(t: Traced, e: Event, e': Event)
    requires |t.histories| == |t.run.metrics| && SameButTerminate(e, e') && !IsTerminating(t.run)
    ensures Next(t, e') == Next(t, e)
  {
    hide IsTerminating, TaskFor, GetResult, AssessedRun, RunTasks, GarbageCollected;
    if e.Reconcile? {
      var tasks := Tasks(t.run, e.inp.now);
      SameTasksRun(t.run.results, tasks, |tasks|, e.inp, e'.inp);
      forall k | 0 <= k < |t.histories| ensures HistoriesAfter(t, e'.inp)[k] == HistoriesAfter(t, e.inp)[k] {
      }
      assert HistoriesAfter(t, e'.inp) == HistoriesAfter(t, e.inp);
    }
  }

  lemma {:induction false} SameTasksRun(results: seq<MetricResult>, tasks: seq<MetricTask>, n: nat, inp: Inputs,
                                        inp': Inputs)
    requires n <= |tasks| && inp.now == inp'.now
    requires forall name :: inp'.replies(name) == inp.replies(name).(terminate := inp'.replies(name).terminate)
    ensures RunTasks(results, tasks, n, false, inp'.replies, inp.now) ==
            RunTasks(results, tasks, n, false, inp.replies, inp.now)
  {
    hide SetResult, GetResult, Counted;
    if n > 0 {
      SameTasksRun(results, tasks, n - 1, inp, inp');
    }
  }
}
