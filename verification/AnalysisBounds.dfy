// Bounds that follow from the agreement of results and histories: how many measurements a metric takes, by
// how much a limit can be exceeded, and the names of the jobs it starts.
module AnalysisBounds {
  import opened Wrappers
  import opened Analysis
  import opened AnalysisEngine
  import opened AnalysisMetrics
  import opened AnalysisHistory

  // No verdict is due after these measurements.
  predicate Live(metric: Metric, h: seq<Measurement>) {
    && CountOf(h, Failed) <= metric.FailureLimit()
    && CountOf(h, Inconclusive) <= metric.InconclusiveLimit()
    && ErrorStreak(h) <= metric.ErrorLimit()
    && (metric.EffectiveCount().Some? ==> Counts(h) < metric.EffectiveCount().value)
  }

  // Every measurement was started while no verdict was due.
  predicate LiveThroughout(metric: Metric, h: seq<Measurement>) {
    forall i :: 0 <= i < |h| ==> Live(metric, h[..i])
  }

  // Limits that ValidateMetric accepts, and an effective count of at least one if there is one.
  predicate Bounded(metric: Metric) {
    && metric.FailureLimit() >= 0 && metric.InconclusiveLimit() >= 0 && metric.ErrorLimit() >= 0
    && (metric.EffectiveCount().Some? ==> metric.EffectiveCount().value >= 1)
  }

  predicate AllLive(t: Traced) {
    |t.histories| == |t.run.metrics| && forall k :: 0 <= k < |t.histories| ==> LiveThroughout(t.run.metrics[k], t.histories[k])
  }

  lemma {:induction false} MetricStaysLive(metric: Metric, result: Option<MetricResult>, h: seq<Measurement>,
                                           stopped: bool, terminating: bool, startedAt: Option<int>, inp: Inputs)
    requires Bounded(metric) && Refines(metric, result, h) && LiveThroughout(metric, h)
    requires result.Some? ==> result.value.phase == Verdict(metric, h, stopped)
    ensures LiveThroughout(metric, HistoryAfter(h, metric, result, terminating, startedAt, inp))
  {
    hide CountOf, ErrorStreak, Measured;
    var h' := HistoryAfter(h, metric, result, terminating, startedAt, inp);
    if h' != h {
      TaskMatchesHistory(metric, result, h, terminating, startedAt, inp.now);
      var task := TaskFor(metric, result, terminating, startedAt, inp.now).value;
      if task.incomplete.None? {
        StartedWhileLive(metric, result, h, stopped, terminating, startedAt, inp.now);
        assert forall i :: 0 <= i < |h| ==> h'[..i] == h[..i];
        assert h'[..|h|] == h;
      } else {
        assert forall i :: 0 <= i < |h| ==> h'[..i] == h[..i];
      }
    }
  }

  lemma {:induction false} StartedWhileLive(metric: Metric, result: Option<MetricResult>, h: seq<Measurement>,
                                            stopped: bool, terminating: bool, startedAt: Option<int>, now: int)
    requires Bounded(metric) && Refines(metric, result, h)
    requires result.Some? ==> result.value.phase == Verdict(metric, h, stopped)
    requires TaskFor(metric, result, terminating, startedAt, now).Some?
    requires TaskFor(metric, result, terminating, startedAt, now).value.incomplete.None?
    ensures Live(metric, h)
  {
    TaskMatchesHistory(metric, result, h, terminating, startedAt, now);
    if h != [] {
      assert Closed(h[|h| - 1]);
    }
  }

  lemma {:induction false} StepStaysLive(t: Traced, e: Event)
    requires Consistent(t) && AllLive(t) && forall k :: 0 <= k < |t.run.metrics| ==> Bounded(t.run.metrics[k])
    ensures AllLive(Next(t, e))
  {
    hide Refines, Verdict, GetResult, LiveThroughout, IsTerminating, HistoryAfter;
    var t' := Next(t, e);
    if e.Reconcile? && Proceeds(t.run, e.inp) {
      forall k | 0 <= k < |t'.histories| ensures LiveThroughout(t'.run.metrics[k], t'.histories[k]) {
        MetricStaysLive(t.run.metrics[k], ResultOf(t.run, k), t.histories[k], t.stopped, IsTerminating(t.run), t.run.startedAt, e.inp);
      }
    }
  }

  lemma {:induction false} ReachableIsLive(trace: seq<Traced>, events: seq<Event>, i: nat)
    requires IsTrace(trace, events) && Initial(trace[0]) && i < |trace|
    requires forall k :: 0 <= k < |trace[0].run.metrics| ==> Bounded(trace[0].run.metrics[k])
    ensures trace[i].run.metrics == trace[0].run.metrics && AllLive(trace[i])
  {
    if i > 0 {
      ReachableIsLive(trace, events, i - 1);
      HistoriesRefined(trace, events, i - 1);
      StepStaysLive(trace[i - 1], events[i - 1]);
    }
  }

  /******* Counting *******/

  // Between two measurements that count there are at most ErrorLimit() errors.
  lemma {:induction false} ErrorsBetweenCounts(metric: Metric, h: seq<Measurement>)
    requires metric.ErrorLimit() >= 0 && LiveThroughout(metric, h) && forall i :: 0 <= i < |h| ==> Closed(h[i])
    ensures |h| == Counts(h) + CountOf(h, Error)
    ensures CountOf(h, Error) <= Counts(h) * metric.ErrorLimit() + ErrorStreak(h)
    ensures ErrorStreak(h) <= metric.ErrorLimit() + 1
  {
    if h != [] {
      var p, limit := h[..|h| - 1], metric.ErrorLimit();
      assert forall i :: 0 <= i < |p| ==> p[..i] == h[..i];
      ErrorsBetweenCounts(metric, p);
      assert Live(metric, p);
      assert Closed(h[|h| - 1]);
      assert (Counts(p) + 1) * limit == Counts(p) * limit + limit;
    }
  }

  // A metric with effective count n is done after at most n * (ErrorLimit() + 1) measurements, in flight or not.
  lemma {:induction false} MeasurementBound(metric: Metric, h: seq<Measurement>)
    requires Bounded(metric) && metric.EffectiveCount().Some? && LiveThroughout(metric, h) && WellFormedHistory(h)
    ensures |h| <= metric.EffectiveCount().value * (metric.ErrorLimit() + 1)
  {
    hide CountOf, ErrorStreak;
    var n, limit := metric.EffectiveCount().value, metric.ErrorLimit();
    if h == [] {
      assert n * (limit + 1) >= 0;
    } else {
      var p := h[..|h| - 1];
      assert forall i :: 0 <= i < |p| ==> p[..i] == h[..i];
      ErrorsBetweenCounts(metric, p);
      assert Live(metric, p);
      ProductBound(Counts(p), n, limit);
    }
  }

  lemma {:induction false} ProductBound(c: nat, n: int, limit: nat)
    requires c < n
    ensures c + c * limit + limit + 1 <= n * (limit + 1)
  {
    assert c * limit + limit == (c + 1) * limit;
    assert (c + 1) * (limit + 1) <= n * (limit + 1);
    assert (c + 1) * (limit + 1) == (c + 1) * limit + c + 1;
  }

  // At most one limit is exceeded, and by exactly one: the order in which the verdict checks them is never seen.
  lemma {:induction false} OneLimitExceededByOne(metric: Metric, h: seq<Measurement>)
    requires Bounded(metric) && LiveThroughout(metric, h) && WellFormedHistory(h)
    ensures CountOf(h, Failed) <= metric.FailureLimit() + 1
    ensures CountOf(h, Inconclusive) <= metric.InconclusiveLimit() + 1
    ensures ErrorStreak(h) <= metric.ErrorLimit() + 1
    ensures CountOf(h, Failed) > metric.FailureLimit() ==>
              CountOf(h, Inconclusive) <= metric.InconclusiveLimit() && ErrorStreak(h) <= metric.ErrorLimit()
    ensures CountOf(h, Inconclusive) > metric.InconclusiveLimit() ==> ErrorStreak(h) <= metric.ErrorLimit()
  {
    if h != [] {
      var p := h[..|h| - 1];
      assert Live(metric, p);
    }
  }

  lemma {:induction false} CountedAreMeasurements(h: seq<Measurement>)
    ensures Counts(h) + CountOf(h, Error) <= |h|
    ensures (forall i :: 0 <= i < |h| ==> Closed(h[i])) ==> Counts(h) + CountOf(h, Error) == |h|
  {
    if h != [] {
      CountedAreMeasurements(h[..|h| - 1]);
    }
  }

  // And the bound is where a metric ends: after that many finished measurements there is a verdict.
  lemma {:induction false} BoundGivesVerdict(metric: Metric, h: seq<Measurement>, stopped: bool)
    requires Bounded(metric) && metric.EffectiveCount().Some? && LiveThroughout(metric, h)
    requires forall i :: 0 <= i < |h| ==> Closed(h[i])
    requires |h| >= metric.EffectiveCount().value * (metric.ErrorLimit() + 1)
    ensures Verdict(metric, h, stopped).Completed()
  {
    hide CountOf, ErrorStreak;
    var n, limit := metric.EffectiveCount().value, metric.ErrorLimit();
    assert n * (limit + 1) >= 1;
    ErrorsBetweenCounts(metric, h);
    if Live(metric, h) {
      ProductBound(Counts(h), n, limit);
      assert false;
    }
  }

  // Both bounds in every reachable state.
  lemma {:induction false} ReachableBounds(trace: seq<Traced>, events: seq<Event>, i: nat, k: nat)
    requires IsTrace(trace, events) && Initial(trace[0]) && i < |trace|
    requires forall j :: 0 <= j < |trace[0].run.metrics| ==> Bounded(trace[0].run.metrics[j])
    requires k < |trace[i].run.metrics| && ResultOf(trace[i].run, k).Some?
    ensures var metric, r := trace[i].run.metrics[k], ResultOf(trace[i].run, k).value;
            && (metric.EffectiveCount().Some? ==> r.count + r.error <= metric.EffectiveCount().value * (metric.ErrorLimit() + 1))
            && r.failed <= metric.FailureLimit() + 1
            && r.inconclusive <= metric.InconclusiveLimit() + 1
            && r.consecutiveError <= metric.ErrorLimit() + 1
            && !(r.failed > metric.FailureLimit() && r.inconclusive > metric.InconclusiveLimit())
            && !(r.failed > metric.FailureLimit() && r.consecutiveError > metric.ErrorLimit())
            && !(r.inconclusive > metric.InconclusiveLimit() && r.consecutiveError > metric.ErrorLimit())
  {
    hide CountOf, ErrorStreak, GetResult;
    ReachableIsLive(trace, events, i);
    HistoriesRefined(trace, events, i);
    var metric, h := trace[i].run.metrics[k], trace[i].histories[k];
    assert Refines(metric, ResultOf(trace[i].run, k), h);
    assert LiveThroughout(metric, h);
    OneLimitExceededByOne(metric, h);
    if metric.EffectiveCount().Some? {
      MeasurementBound(metric, h);
    }
    CountedAreMeasurements(h);
  }

  // In every reachable state a metric that has n * (ErrorLimit() + 1) finished measurements has ended.
  lemma {:induction false} BoundEndsMetric(trace: seq<Traced>, events: seq<Event>, i: nat, k: nat)
    requires IsTrace(trace, events) && Initial(trace[0]) && i < |trace|
    requires forall j :: 0 <= j < |trace[0].run.metrics| ==> Bounded(trace[0].run.metrics[j])
    requires k < |trace[i].run.metrics| && ResultOf(trace[i].run, k).Some? && trace[i].run.metrics[k].EffectiveCount().Some?
    requires var metric, r := trace[i].run.metrics[k], ResultOf(trace[i].run, k).value;
             r.count + r.error >= metric.EffectiveCount().value * (metric.ErrorLimit() + 1)
    ensures ResultOf(trace[i].run, k).value.phase.Completed()
  {
    hide CountOf, ErrorStreak, GetResult, Verdict, LiveThroughout;
    ReachableIsLive(trace, events, i);
    HistoriesRefined(trace, events, i);
    var metric, h := trace[i].run.metrics[k], trace[i].histories[k];
    assert Refines(metric, ResultOf(trace[i].run, k), h);
    MeasurementBound(metric, h);
    CountedAreMeasurements(h);
    AllCountedAreClosed(h);
    BoundGivesVerdict(metric, h, trace[i].stopped);
  }

  // A history whose measurements all count has none in flight.
  lemma {:induction false} AllCountedAreClosed(h: seq<Measurement>)
    requires WellFormedHistory(h) && Counts(h) + CountOf(h, Error) >= |h|
    ensures forall i :: 0 <= i < |h| ==> Closed(h[i])
  {
    if h != [] {
      CountedAreMeasurements(h[..|h| - 1]);
    }
  }

  /******* Job names *******/

  // getJobIDSuffix
  function JobSuffix(result: Option<MetricResult>): int {
    if result.None? then 1 else result.value.count + result.value.error + 1
  }

  // The event is a reconcile that starts a new measurement of metric k.
  predicate Starts(t: Traced, e: Event, k: nat)
    requires k < |t.run.metrics|
  {
    && e.Reconcile? && Proceeds(t.run, e.inp)
    && var task := TaskFor(t.run.metrics[k], ResultOf(t.run, k), IsTerminating(t.run), t.run.startedAt, e.inp.now);
       task.Some? && task.value.incomplete.None?
  }

  // The suffix of a job that is started is one more than the number of measurements ever taken.
  lemma {:induction false} SuffixCountsHistory(t: Traced, e: Event, k: nat)
    requires Consistent(t) && k < |t.run.metrics| && Starts(t, e, k)
    ensures JobSuffix(ResultOf(t.run, k)) == |t.histories[k]| + 1
    ensures |Next(t, e).histories[k]| == |t.histories[k]| + 1
  {
    hide CountOf, ErrorStreak, GetResult, IsTerminating, Measured, Verdict, TaskFor;
    var metric, result, h := t.run.metrics[k], ResultOf(t.run, k), t.histories[k];
    assert Refines(metric, result, h);
    TaskMatchesHistory(metric, result, h, IsTerminating(t.run), t.run.startedAt, e.inp.now);
    CountedAreMeasurements(h);
  }

  lemma {:induction false} HistoryGrows(t: Traced, e: Event, k: nat)
    requires |t.histories| == |t.run.metrics| && k < |t.run.metrics|
    ensures |Next(t, e).histories[k]| >= |t.histories[k]|
  {
    hide Measured, TaskFor, GetResult, IsTerminating;
  }

  lemma {:induction false} HistoryGrowsOverRuns(trace: seq<Traced>, events: seq<Event>, i: nat, j: nat, k: nat)
    requires IsTrace(trace, events) && Initial(trace[0]) && i <= j < |trace| && k < |trace[0].run.metrics|
    ensures forall n :: 0 <= n < |trace| ==> trace[n].run.metrics == trace[0].run.metrics
    ensures |trace[i].histories[k]| <= |trace[j].histories[k]|
    decreases j - i
  {
    MetricsAreFixed(trace, events);
    if i < j {
      HistoryGrowsOverRuns(trace, events, i, j - 1, k);
      HistoryGrows(trace[j - 1], events[j - 1], k);
    }
  }

  lemma {:induction false} MetricsAreFixed(trace: seq<Traced>, events: seq<Event>)
    requires IsTrace(trace, events)
    ensures forall n :: 0 <= n < |trace| ==> trace[n].run.metrics == trace[0].run.metrics
  {
    var n := 1;
    while n < |trace|
      invariant 1 <= n <= |trace| && forall m :: 0 <= m < n ==> trace[m].run.metrics == trace[0].run.metrics
    {
      assert trace[n] == Next(trace[n - 1], events[n - 1]);
      n := n + 1;
    }
  }

  // No two jobs that a metric ever starts have the same suffix.
  lemma {:induction false} SuffixesNeverRepeat(trace: seq<Traced>, events: seq<Event>, i: nat, j: nat, k: nat)
    requires IsTrace(trace, events) && Initial(trace[0]) && i < j < |events| && k < |trace[0].run.metrics|
    requires k < |trace[i].run.metrics| && Starts(trace[i], events[i], k)
    requires k < |trace[j].run.metrics| && Starts(trace[j], events[j], k)
    ensures JobSuffix(ResultOf(trace[i].run, k)) < JobSuffix(ResultOf(trace[j].run, k))
  {
    hide Starts, JobSuffix, Next, GetResult;
    HistoriesRefined(trace, events, i);
    HistoriesRefined(trace, events, j);
    SuffixCountsHistory(trace[i], events[i], k);
    SuffixCountsHistory(trace[j], events[j], k);
    HistoryGrowsOverRuns(trace, events, i + 1, j, k);
  }
}
