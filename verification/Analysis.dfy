// Metrics, measurements and results of an AnalysisRun, and what utils/analysis reads from and writes to them.
module Analysis {
  import opened Wrappers

  // Unset is the empty string.
  datatype Phase = Unset | Pending | Running | Successful | Failed | Error | Inconclusive
  {
    predicate Completed() { Successful? || Failed? || Error? || Inconclusive? }

    // A phase that ends the whole run early.
    predicate Bad() { Failed? || Error? || Inconclusive? }
  }

  // A duration string: empty, parsed to seconds, or not parseable.
  datatype Duration = Absent | Seconds(s: int) | Unparseable

  // Limits and counts are what IntOrString.IntValue() returns; `providers` is the number of providers configured.
  datatype Metric = Metric(name: string, interval: Duration, initialDelay: Duration, count: Option<int>,
                           failureLimit: Option<int>, inconclusiveLimit: Option<int>,
                           consecutiveErrorLimit: Option<int>, providers: nat)
  {
    // nil when the metric runs indefinitely.
    function EffectiveCount(): Option<int> {
      if count.None? || count.value == 0 then
        if interval.Absent? then Some(1) else None
      else count
    }

    function FailureLimit(): int { if failureLimit.Some? then failureLimit.value else 0 }

    function InconclusiveLimit(): int { if inconclusiveLimit.Some? then inconclusiveLimit.value else 0 }

    function ErrorLimit(): int { if consecutiveErrorLimit.Some? then consecutiveErrorLimit.value else 4 }
  }

  datatype Measurement = Measurement(phase: Phase, finishedAt: Option<int>, resumeAt: Option<int>)

  datatype MetricResult = MetricResult(name: string, phase: Phase, measurements: seq<Measurement>, count: int,
                                       successful: int, failed: int, inconclusive: int, error: int,
                                       consecutiveError: int)

  // A run whose metricResults are nil is one whose metricResults are empty.
  datatype Run = Run(metrics: seq<Metric>, terminate: bool, results: seq<MetricResult>, phase: Phase,
                     startedAt: Option<int>)

  /******* helpers.go *******/

  // The position in the list of statuses from best to worst; a status that is not listed counts as the first.
  function Rank(p: Phase): nat {
    match p
    case Unset => 0
    case Successful => 0
    case Running => 1
    case Pending => 2
    case Inconclusive => 3
    case Error => 4
    case Failed => 5
  }

  const STATUS_ORDER := [Successful, Running, Pending, Inconclusive, Error, Failed]

  method IsWorse(current: Phase, new': Phase) returns (worse: bool)
    ensures worse == (Rank(new') > Rank(current))
  {
    var currentIndex, newIndex := 0, 0;
    for i := 0 to |STATUS_ORDER|
      invariant currentIndex == (if Rank(current) < i then Rank(current) else 0)
      invariant newIndex == (if Rank(new') < i then Rank(new') else 0)
    {
      if current == STATUS_ORDER[i] { currentIndex := i; }
      if new' == STATUS_ORDER[i] { newIndex := i; }
    }
    worse := newIndex > currentIndex;
  }

  predicate IsTerminating(run: Run) {
    run.terminate || exists i :: 0 <= i < |run.results| && run.results[i].phase.Bad()
  }

  function GetResult(results: seq<MetricResult>, name: string): Option<MetricResult> {
    if results == [] then None
    else if results[0].name == name then Some(results[0])
    else GetResult(results[1..], name)
  }

  function SetResult(results: seq<MetricResult>, r: MetricResult): seq<MetricResult> {
    if results == [] then [r]
    else if results[0].name == r.name then [r] + results[1..]
    else [results[0]] + SetResult(results[1..], r)
  }

  // What was set is what is found under its name; nothing else changes.
  lemma {:induction false} GetAfterSet(results: seq<MetricResult>, r: MetricResult, name: string)
    ensures GetResult(SetResult(results, r), name) == if name == r.name then Some(r) else GetResult(results, name)
  {
    if results != [] && results[0].name != r.name {
      GetAfterSet(results[1..], r, name);
    }
  }

  lemma {:induction false} GetResultIsListed(results: seq<MetricResult>, name: string)
    ensures GetResult(results, name).Some? ==> GetResult(results, name).value.name == name && GetResult(results, name).value in results
    ensures GetResult(results, name).None? ==> forall i :: 0 <= i < |results| ==> results[i].name != name
  {
    if results != [] {
      GetResultIsListed(results[1..], name);
    }
  }

  predicate MetricCompleted(result: Option<MetricResult>) { result.Some? && result.value.phase.Completed() }

  function LastMeasurement(result: Option<MetricResult>): Option<Measurement> {
    if result.Some? && result.value.measurements != []
    then Some(result.value.measurements[|result.value.measurements| - 1])
    else None
  }

  /******* factory.go *******/

  // What ValidateMetric rejects.
  predicate ValidMetric(m: Metric) {
    var count := if m.count.Some? then m.count.value else 0;
    && (count > 0 ==> count >= m.FailureLimit() && count >= m.InconclusiveLimit())
    && (count > 1 ==> !m.interval.Absent?)
    && !m.interval.Unparseable? && !m.initialDelay.Unparseable?
    && m.FailureLimit() >= 0 && m.InconclusiveLimit() >= 0 && m.ErrorLimit() >= 0
    && m.providers == 1
  }

  predicate DistinctNames(metrics: seq<Metric>) {
    forall j, k :: 0 <= j < k < |metrics| ==> metrics[j].name != metrics[k].name
  }

  predicate ValidMetrics(metrics: seq<Metric>) {
    && metrics != []
    && DistinctNames(metrics)
    && forall k :: 0 <= k < |metrics| ==> ValidMetric(metrics[k])
  }

  // The loop with the set of names seen so far.
  method ValidateMetrics(metrics: seq<Metric>) returns (ok: bool)
    ensures ok <==> ValidMetrics(metrics)
  {
    if |metrics| == 0 { return false; }
    var seen: set<string> := {};
    for i := 0 to |metrics|
      invariant forall name :: name in seen <==> exists k :: 0 <= k < i && metrics[k].name == name
      invariant DistinctNames(metrics[..i])
      invariant forall k :: 0 <= k < i ==> ValidMetric(metrics[k])
    {
      if metrics[i].name in seen {
        ghost var k :| 0 <= k < i && metrics[k].name == metrics[i].name;
        return false;
      }
      seen := seen + {metrics[i].name};
      if !ValidMetric(metrics[i]) { return false; }
    }
    assert metrics[..|metrics|] == metrics;
    return true;
  }
}
