// The time at which a run asks to be reconciled again agrees with the times at which measurements are taken.
module AnalysisSchedule {
  import opened Wrappers
  import opened Analysis
  import opened AnalysisEngine

  // A metric that has asked for a time gets its task exactly then: a retry strictly after it, a resumption or a
  // first measurement from that time on.
  lemma {:induction false} DueExactly(metric: Metric, result: Option<MetricResult>, startedAt: Option<int>, now: int)
    requires startedAt.Some? && DueTime(metric, result, startedAt, now).Some?
    ensures var due := DueTime(metric, result, startedAt, now).value;
            TaskFor(metric, result, false, startedAt, now).Some? <==>
            if LastMeasurement(result).Some? && LastMeasurement(result).value.finishedAt.Some? then now > due else now >= due
  {
  }

  lemma {:induction false} EveryTaskIsListed(run: Run, now: int, n: nat, k: nat)
    requires k < n <= |run.metrics|
    requires TaskFor(run.metrics[k], GetResult(run.results, run.metrics[k].name), IsTerminating(run), run.startedAt, now).Some?
    ensures TasksUpTo(run, now, n) != []
  {
    hide TaskFor, IsTerminating, GetResult;
    if k < n - 1 {
      EveryTaskIsListed(run, now, n - 1, k);
    }
  }

  lemma {:induction false} EveryTaskHasMetric(run: Run, now: int, n: nat, i: nat) returns (k: nat)
    requires n <= |run.metrics| && i < |TasksUpTo(run, now, n)|
    ensures k < n && TaskFor(run.metrics[k], GetResult(run.results, run.metrics[k].name), IsTerminating(run), run.startedAt, now)
                     == Some(TasksUpTo(run, now, n)[i])
  {
    hide TaskFor, IsTerminating, GetResult;
    if i < |TasksUpTo(run, now, n - 1)| {
      k := EveryTaskHasMetric(run, now, n - 1, i);
    } else {
      k := n - 1;
    }
  }

  // Nothing is scheduled before its recorded due time.
  lemma {:induction false} NothingIsEarly(run: Run, now: int, i: nat)
    requires run.startedAt.Some? && !IsTerminating(run) && i < |Tasks(run, now)|
    ensures exists k :: 0 <= k < |run.metrics| && run.metrics[k] == Tasks(run, now)[i].metric
                        && (DueTimeOf(run, k, now).Some? ==> DueTimeOf(run, k, now).value <= now)
  {
    hide TaskFor, GetResult, DueTime, IsTerminating;
    var k := EveryTaskHasMetric(run, now, |run.metrics|, i);
    var metric, result := run.metrics[k], GetResult(run.results, run.metrics[k].name);
    TaskKeepsMetric(metric, result, run.startedAt, now);
    if DueTimeOf(run, k, now).Some? {
      DueExactly(metric, result, run.startedAt, now);
    }
  }

  lemma {:induction false} TaskKeepsMetric(metric: Metric, result: Option<MetricResult>, startedAt: Option<int>,
                                           now: int)
    ensures TaskFor(metric, result, false, startedAt, now).Some? ==> TaskFor(metric, result, false, startedAt, now).value.metric == metric
  {
  }

  // Once a run has started, due times no longer depend on when they are computed.
  lemma {:induction false} DueTimesAreFixed(run: Run, k: nat, now: int, now': int)
    requires run.startedAt.Some? && k < |run.metrics|
    ensures DueTimeOf(run, k, now) == DueTimeOf(run, k, now')
  {
  }

  // Strictly after the time that calculateNextReconcileTime returned, the next reconcile has something to do.
  lemma {:induction false} NextReconcileHasWork(run: Run, then': int, t: int, now: int)
    requires run.startedAt.Some? && !IsTerminating(run)
    requires IsEarliest(run, then', |run.metrics|, Some(t)) && now > t
    ensures Tasks(run, now) != []
  {
    hide TaskFor, GetResult, DueTime, IsTerminating;
    var k :| 0 <= k < |run.metrics| && DueTimeOf(run, k, then') == Some(t);
    DueTimesAreFixed(run, k, then', now);
    DueExactly(run.metrics[k], GetResult(run.results, run.metrics[k].name), run.startedAt, now);
    EveryTaskIsListed(run, now, |run.metrics|, k);
  }

  // Before that time no metric that recorded a due time is scheduled.
  lemma {:induction false} NothingBeforeNextReconcile(run: Run, then': int, t: int, now: int, k: nat)
    requires run.startedAt.Some? && !IsTerminating(run) && k < |run.metrics|
    requires IsEarliest(run, then', |run.metrics|, Some(t)) && now < t && DueTimeOf(run, k, then').Some?
    ensures TaskFor(run.metrics[k], GetResult(run.results, run.metrics[k].name), false, run.startedAt, now).None?
  {
    hide TaskFor, GetResult, DueTime, IsTerminating;
    DueTimesAreFixed(run, k, then', now);
    DueExactly(run.metrics[k], GetResult(run.results, run.metrics[k].name), run.startedAt, now);
  }
}
