// Limits, counts and their defaults, written out: which metrics are valid, when one fails, and what ends a run early.
module AnalysisLimits {
  import opened Wrappers
  import opened Analysis
  import opened AnalysisEngine
  import opened AnalysisMetrics
  import opened AnalysisHistory
  import opened AnalysisBounds

  // The limits in force: failures and inconclusive measurements are not tolerated by default, four consecutive errors
  // are.
  predicate HasLimits(m: Metric, failed: int, inconclusive: int, errors: int) {
    && failed == (if m.failureLimit.Some? then m.failureLimit.value else 0)
    && inconclusive == (if m.inconclusiveLimit.Some? then m.inconclusiveLimit.value else 0)
    && errors == (if m.consecutiveErrorLimit.Some? then m.consecutiveErrorLimit.value else 4)
  }

  // How often the metric is measured: as often as it says, once without an interval, and otherwise without end.
  predicate IsMeasured(m: Metric, times: Option<int>) {
    if m.count.Some? && m.count.value != 0 then times == m.count
    else if m.interval.Absent? then times == Some(1) else times.None?
  }

  lemma {:induction false} ValidExactlyWhen(m: Metric, failed: int, inconclusive: int, errors: int)
    requires HasLimits(m, failed, inconclusive, errors)
    ensures ValidMetric(m) <==>
            && m.providers == 1 && failed >= 0 && inconclusive >= 0 && errors >= 0
            && !m.interval.Unparseable? && !m.initialDelay.Unparseable?
            && (m.count.Some? && m.count.value > 0 ==> failed <= m.count.value && inconclusive <= m.count.value)
            && (m.count.Some? && m.count.value > 1 ==> m.interval.Seconds?)
  {
  }

  // What validation admits is what the bounds on measurements need, but for a negative count.
  lemma {:induction false} ValidIsBounded(m: Metric)
    requires ValidMetric(m) && (m.count.Some? ==> m.count.value >= 0)
    ensures Bounded(m)
  {
  }

  predicate Invalid(metrics: seq<Metric>) {
    || metrics == []
    || (exists j, k :: 0 <= j < k < |metrics| && metrics[j].name == metrics[k].name)
    || exists k :: 0 <= k < |metrics| && !ValidMetric(metrics[k])
  }

  // A run with an invalid metric, or two of one name, or none, ends in an error at its first reconcile, and so does one
  // whose arguments cannot be resolved; nothing is measured.
  lemma {:induction false} InvalidRunMeasuresNothing(run: Run, inp: Inputs)
    requires !run.phase.Completed() && ((run.results == [] && Invalid(run.metrics)) || !inp.argsResolved)
    ensures Reconciled(run, inp) == run.(phase := Error)
  {
  }

  // The verdict on a metric with the whole history h.
  predicate IsVerdict(p: Phase, h: seq<Measurement>, stopped: bool, failed: int, inconclusive: int, errors: int,
                      times: Option<int>) {
    if h == [] then p == if stopped then Successful else Pending
    else if h[|h| - 1].phase !in {Successful, Failed, Error, Inconclusive} then p == Running
    else if ErrorStreak(h) > errors then p == Error
    else if CountOf(h, Inconclusive) > inconclusive then p == Inconclusive
    else if CountOf(h, Failed) > failed then p == Failed
    else if stopped || (times.Some? && CountOf(h, Successful) + CountOf(h, Failed) + CountOf(h, Inconclusive) >= times.value)
    then p == Successful
    else p == Running
  }

  lemma {:induction false} VerdictByLimits(m: Metric, h: seq<Measurement>, stopped: bool, failed: int,
                                           inconclusive: int, errors: int,
                                           times: Option<int>)
    requires HasLimits(m, failed, inconclusive, errors) && IsMeasured(m, times)
    ensures IsVerdict(Verdict(m, h, stopped), h, stopped, failed, inconclusive, errors, times)
  {
    hide CountOf, ErrorStreak;
  }

  // In every reachable state the phase of a metric is that verdict on all its measurements.
  lemma {:induction false} ReachableVerdicts(trace: seq<Traced>, events: seq<Event>, i: nat, k: nat, failed: int,
                                             inconclusive: int,
                                             errors: int, times: Option<int>)
    requires IsTrace(trace, events) && Initial(trace[0]) && i < |trace|
    requires k < |trace[i].run.metrics| && ResultOf(trace[i].run, k).Some?
    requires HasLimits(trace[i].run.metrics[k], failed, inconclusive, errors) && IsMeasured(trace[i].run.metrics[k], times)
    ensures IsVerdict(ResultOf(trace[i].run, k).value.phase, trace[i].histories[k], trace[i].stopped, failed, inconclusive, errors, times)
  {
    hide Verdict, IsVerdict, GetResult, Refines;
    HistoriesRefined(trace, events, i);
    VerdictByLimits(trace[i].run.metrics[k], trace[i].histories[k], trace[i].stopped, failed, inconclusive, errors, times);
  }

  // A run ends early when that is asked for, or when a metric has failed, is in error or is inconclusive.
  lemma {:induction false} TerminatesExactlyWhen(run: Run)
    ensures IsTerminating(run) <==>
            || run.terminate
            || exists i :: 0 <= i < |run.results| && run.results[i].phase in {Failed, Error, Inconclusive}
  {
  }

  // A result without a measurement is pending, and successful once the run is to end.
  lemma {:induction false} EmptyResultPhase(metric: Metric, r: MetricResult, terminating: bool)
    requires r.measurements == [] && !r.phase.Completed()
    ensures AssessMetric(metric, r, terminating) in {Pending, Successful}
    ensures AssessMetric(metric, r, terminating) == Successful <==> terminating
  {
  }
}
