// One reconcile of an AnalysisRun (analysis/analysis.go): schedule, measure, assess, trim.
module AnalysisEngine {
  import opened Wrappers
  import opened Analysis

  const HISTORY_LIMIT: nat := 10
  const ERROR_RETRY_INTERVAL := 10

  datatype MetricTask = MetricTask(metric: Metric, incomplete: Option<Measurement>)

  // What the provider of one metric would answer in this reconcile: the result of Run, Resume or Terminate
  // when there is a provider. The controller chooses the call.
  datatype Reply = Reply(available: bool, run: Measurement, resume: Measurement, terminate: Measurement)

  // What becomes of the provider's garbage collection for one metric.
  datatype Collection = Collected | NoProvider | CollectFailed

  /******* generateMetricTasks *******/

  // The retry interval of a finished measurement; None when the metric's interval cannot be parsed.
  function RetryInterval(metric: Metric, last: Measurement): Option<int> {
    if last.phase.Error? then Some(ERROR_RETRY_INTERVAL)
    else match metric.interval
      case Absent => Some(ERROR_RETRY_INTERVAL)
      case Seconds(s) => Some(s)
      case Unparseable => None
  }

  predicate CountReached(metric: Metric, result: MetricResult) {
    metric.EffectiveCount().Some? && result.count >= metric.EffectiveCount().value
  }

  function TaskFor(metric: Metric, result: Option<MetricResult>, terminating: bool, startedAt: Option<int>,
                   now: int): Option<MetricTask> {
    var last := LastMeasurement(result);
    if MetricCompleted(result) then None
    else if last.Some? && last.value.finishedAt.None? then
      if last.value.resumeAt.Some? && last.value.resumeAt.value > now then None else Some(MetricTask(metric, last))
    else if terminating then None
    else if last.None? then
      match metric.initialDelay
      case Absent => Some(MetricTask(metric, None))
      case Unparseable => None
      case Seconds(s) => if startedAt.None? || startedAt.value + s > now then None else Some(MetricTask(metric, None))
    else if CountReached(metric, result.value) then None
    else
      match RetryInterval(metric, last.value)
      case None => None
      case Some(interval) => if now > last.value.finishedAt.value + interval then Some(MetricTask(metric, None)) else None
  }

  // The measurement tasks of the first n metrics, in the order of the metrics.
  function TasksUpTo(run: Run, now: int, n: nat): seq<MetricTask>
    requires n <= |run.metrics|
  {
    if n == 0 then []
    else
      var metric := run.metrics[n - 1];
      var task := TaskFor(metric, GetResult(run.results, metric.name), IsTerminating(run), run.startedAt, now);
      TasksUpTo(run, now, n - 1) + if task.Some? then [task.value] else []
  }

  function Tasks(run: Run, now: int): seq<MetricTask> { TasksUpTo(run, now, |run.metrics|) }

  /******* runMeasurements *******/

  function Finished(m: Measurement, now: int): Measurement {
    if m.phase.Completed() && m.finishedAt.None? then m.(finishedAt := Some(now)) else m
  }

  // The measurement that a task ends up with.
  function Measured(incomplete: Option<Measurement>, terminating: bool, reply: Reply, now: int): Measurement {
    Finished(
      if !reply.available then
        (if incomplete.Some? then incomplete.value else Measurement(Unset, None, None)).(phase := Error)
      else if incomplete.None? then reply.run
      else if terminating then reply.terminate
      else reply.resume, now)
  }

  // The counters after a measurement; one that is still in flight does not count.
  function Counted(r: MetricResult, p: Phase): MetricResult {
    match p
    case Successful => r.(successful := r.successful + 1, count := r.count + 1, consecutiveError := 0)
    case Failed => r.(failed := r.failed + 1, count := r.count + 1, consecutiveError := 0)
    case Inconclusive => r.(inconclusive := r.inconclusive + 1, count := r.count + 1, consecutiveError := 0)
    case Error => r.(error := r.error + 1, consecutiveError := r.consecutiveError + 1)
    case _ => r
  }

  lemma {:induction false} InFlightDoesNotCount(r: MetricResult, p: Phase)
    requires !p.Completed()
    ensures Counted(r, p) == r
  {
  }

  lemma {:induction false} CountingKeepsMeasurements(r: MetricResult, p: Phase)
    ensures Counted(r, p).measurements == r.measurements && Counted(r, p).name == r.name && Counted(r, p).phase == r.phase
  {
  }

  function NewResult(name: string): MetricResult { MetricResult(name, Running, [], 0, 0, 0, 0, 0, 0) }

  function Recorded(history: seq<Measurement>, incomplete: Option<Measurement>, m: Measurement): seq<Measurement> {
    if incomplete.Some? && history != [] then history[|history| - 1 := m] else history + [m]
  }

  // One goroutine: from the result it was given to the result it sets.
  function Measure(result: Option<MetricResult>, task: MetricTask, terminating: bool, reply: Reply,
                   now: int): MetricResult {
    var r := if result.Some? then result.value else NewResult(task.metric.name);
    var m := Measured(task.incomplete, terminating, reply, now);
    Counted(r, m.phase).(measurements := Recorded(r.measurements, task.incomplete, m))
  }

  function RunTasks(results: seq<MetricResult>, tasks: seq<MetricTask>, n: nat, terminating: bool,
                    replies: string -> Reply, now: int): seq<MetricResult>
    requires n <= |tasks|
  {
    if n == 0 then results
    else
      var before := RunTasks(results, tasks, n - 1, terminating, replies, now);
      var name := tasks[n - 1].metric.name;
      SetResult(before, Measure(GetResult(before, name), tasks[n - 1], terminating, replies(name), now))
  }

  /******* assessRunStatus *******/

  // Failed, Inconclusive or Error when a limit is exceeded; later checks override earlier ones.
  function LimitExceeded(metric: Metric, r: MetricResult): Phase {
    if r.consecutiveError > metric.ErrorLimit() then Error
    else if r.inconclusive > metric.InconclusiveLimit() then Inconclusive
    else if r.failed > metric.FailureLimit() then Failed
    else Unset
  }

  function AssessMetric(metric: Metric, r: MetricResult, terminating: bool): Phase {
    if r.phase.Completed() then r.phase
    else if r.measurements == [] then if terminating then Successful else Pending
    else if !r.measurements[|r.measurements| - 1].phase.Completed() then Running
    else if LimitExceeded(metric, r) != Unset then LimitExceeded(metric, r)
    else if CountReached(metric, r) then Successful
    else if terminating then Successful
    else Running
  }

  datatype Assessment = Assessment(results: seq<MetricResult>, worst: Phase, allCompleted: bool)

  function Worst(left: Phase, right: Phase): Phase { if Rank(right) > Rank(left) then right else left }

  function AssessUpTo(metrics: seq<Metric>, terminating: bool, results: seq<MetricResult>, n: nat): Assessment
    requires n <= |metrics|
  {
    if n == 0 then Assessment(results, Unset, true)
    else
      var a := AssessUpTo(metrics, terminating, results, n - 1);
      match GetResult(a.results, metrics[n - 1].name)
      case None => a
      case Some(r) =>
        var status := AssessMetric(metrics[n - 1], r, terminating);
        var results' := if r.phase != status then SetResult(a.results, r.(phase := status)) else a.results;
        if !status.Completed() then Assessment(results', a.worst, false)
        else Assessment(results', if a.worst.Unset? then status else Worst(a.worst, status), a.allCompleted)
  }

  function RunPhase(a: Assessment, terminating: bool): Phase {
    if !a.allCompleted then Running
    else if a.worst.Unset? then if terminating then Successful else Running
    else a.worst
  }

  /******* garbageCollectMeasurements *******/

  predicate HasMetric(metrics: seq<Metric>, name: string) { exists k :: 0 <= k < |metrics| && metrics[k].name == name }

  // Whether the collection of the results before i came to a failing provider.
  predicate Blocked(metrics: seq<Metric>, results: seq<MetricResult>, limit: nat, collections: string -> Collection,
                    i: nat)
    requires i <= |results|
  {
    exists j :: 0 <= j < i && |results[j].measurements| > limit && HasMetric(metrics, results[j].name)
                && collections(results[j].name).CollectFailed?
  }

  function Trimmed(metrics: seq<Metric>, results: seq<MetricResult>, limit: nat, collections: string -> Collection,
                   i: nat): MetricResult
    requires i < |results|
  {
    var r := results[i];
    if |r.measurements| > limit && HasMetric(metrics, r.name) && collections(r.name).Collected?
       && !Blocked(metrics, results, limit, collections, i)
    then r.(measurements := r.measurements[|r.measurements| - limit..])
    else r
  }

  function GarbageCollected(metrics: seq<Metric>, results: seq<MetricResult>, limit: nat,
                            collections: string -> Collection): seq<MetricResult> {
    seq(|results|, i requires 0 <= i < |results| => Trimmed(metrics, results, limit, collections, i))
  }

  /******* reconcileAnalysisRun *******/

  // What the environment contributes to one reconcile.
  datatype Inputs = Inputs(now: int, argsResolved: bool, replies: string -> Reply, collections: string -> Collection)

  function MeasuredRun(run: Run, inp: Inputs): Run {
    var tasks := Tasks(run, inp.now);
    run.(results := RunTasks(run.results, tasks, |tasks|, IsTerminating(run), inp.replies, inp.now))
  }

  function AssessedRun(run: Run, now: int): Run {
    var a := AssessUpTo(run.metrics, IsTerminating(run), run.results, |run.metrics|);
    run.(results := a.results, phase := RunPhase(a, IsTerminating(run)),
         startedAt := if run.startedAt.None? then Some(now) else run.startedAt)
  }

  function Reconciled(run: Run, inp: Inputs): Run {
    if run.phase.Completed() then run
    else if run.results == [] && !ValidMetrics(run.metrics) then run.(phase := Error)
    else if !inp.argsResolved then run.(phase := Error)
    else
      var assessed := AssessedRun(MeasuredRun(run, inp), inp.now);
      assessed.(results := GarbageCollected(run.metrics, assessed.results, HISTORY_LIMIT, inp.collections))
  }

  /******* calculateNextReconcileTime *******/

  // When a metric wants the next reconcile; None when it does not ask for one.
  function DueTime(metric: Metric, result: Option<MetricResult>, startedAt: Option<int>, now: int): Option<int> {
    var last := LastMeasurement(result);
    if MetricCompleted(result) then None
    else if last.None? then
      match metric.initialDelay
      case Seconds(s) => Some((if startedAt.Some? then startedAt.value else now) + s)
      case _ => None
    else if last.value.finishedAt.None? then last.value.resumeAt
    else if CountReached(metric, result.value) then None
    else if last.value.phase.Error? then Some(last.value.finishedAt.value + ERROR_RETRY_INTERVAL)
    else
      match metric.interval
      case Seconds(s) => Some(last.value.finishedAt.value + s)
      case _ => None
  }

  function DueTimeOf(run: Run, k: nat, now: int): Option<int>
    requires k < |run.metrics|
  {
    DueTime(run.metrics[k], GetResult(run.results, run.metrics[k].name), run.startedAt, now)
  }

  // t is the earliest due time of the first n metrics.
  predicate IsEarliest(run: Run, now: int, n: nat, t: Option<int>)
    requires n <= |run.metrics|
  {
    && (t.None? ==> forall k :: 0 <= k < n ==> DueTimeOf(run, k, now).None?)
    && (t.Some? ==>
      && (exists k :: 0 <= k < n && DueTimeOf(run, k, now) == t)
      && forall k :: 0 <= k < n && DueTimeOf(run, k, now).Some? ==> t.value <= DueTimeOf(run, k, now).value)
  }

  /******* The controller's copy of the run *******/

  class AnalysisRun {
    var metrics: seq<Metric>
    var terminate: bool
    var results: seq<MetricResult>
    var phase: Phase
    var startedAt: Option<int>

    function Value(): Run
      reads this
    {
      Run(metrics, terminate, results, phase, startedAt)
    }

    method GenerateMetricTasks(now: int) returns (tasks: seq<MetricTask>)
      ensures tasks == Tasks(Value(), now)
    {
      tasks := [];
      var terminating := IsTerminating(Value());
      for k := 0 to |metrics|
        invariant tasks == TasksUpTo(Value(), now, k)
      {
        var metric := metrics[k];
        var result := GetResult(results, metric.name);
        if MetricCompleted(result) { continue; }
        var last := LastMeasurement(result);
        if last.Some? && last.value.finishedAt.None? {
          if last.value.resumeAt.Some? && last.value.resumeAt.value > now { continue; }
          tasks := tasks + [MetricTask(metric, last)];
          continue;
        }
        if terminating { continue; }
        if last.None? {
          if !metric.initialDelay.Absent? {
            if startedAt.None? { continue; }
            if metric.initialDelay.Unparseable? { continue; }
            if startedAt.value + metric.initialDelay.s > now { continue; }
          }
          tasks := tasks + [MetricTask(metric, None)];
          continue;
        }
        var effectiveCount := metric.EffectiveCount();
        if effectiveCount.Some? && result.value.count >= effectiveCount.value { continue; }
        var interval := ERROR_RETRY_INTERVAL;
        if last.value.phase.Error? {
          interval := ERROR_RETRY_INTERVAL;
        } else if !metric.interval.Absent? {
          if metric.interval.Unparseable? { continue; }
          interval := metric.interval.s;
        }
        if now > last.value.finishedAt.value + interval {
          tasks := tasks + [MetricTask(metric, None)];
        }
      }
    }

    // The goroutines, one after the other.
    method RunMeasurements(tasks: seq<MetricTask>, replies: string -> Reply, now: int)
      modifies this`results
      ensures results == RunTasks(old(results), tasks, |tasks|, IsTerminating(old(Value())), replies, now)
    {
      hide SetResult, GetResult, IsTerminating, Counted;
      var terminating := IsTerminating(Value());
      for n := 0 to |tasks|
        invariant results == RunTasks(old(results), tasks, n, terminating, replies, now)
      {
        var t := tasks[n];
        var found := GetResult(results, t.metric.name);
        var metricResult := if found.Some? then found.value else NewResult(t.metric.name);
        var reply := replies(t.metric.name);
        var newMeasurement: Measurement;
        if !reply.available {
          newMeasurement := if t.incomplete.Some? then t.incomplete.value else Measurement(Unset, None, None);
          newMeasurement := newMeasurement.(phase := Error);
        } else if t.incomplete.None? {
          newMeasurement := reply.run;
        } else if terminating {
          newMeasurement := reply.terminate;
        } else {
          newMeasurement := reply.resume;
        }
        if newMeasurement.phase.Completed() {
          if newMeasurement.finishedAt.None? { newMeasurement := newMeasurement.(finishedAt := Some(now)); }
          metricResult := Counted(metricResult, newMeasurement.phase);
        } else {
          InFlightDoesNotCount(metricResult, newMeasurement.phase);
        }
        CountingKeepsMeasurements(if found.Some? then found.value else NewResult(t.metric.name), newMeasurement.phase);
        metricResult := metricResult.(measurements := Recorded(metricResult.measurements, t.incomplete, newMeasurement));
        results := SetResult(results, metricResult);
      }
    }

    method AssessRunStatus(now: int) returns (status: Phase)
      modifies this`results, this`startedAt
      ensures Value().(phase := status) == AssessedRun(old(Value()), now)
    {
      hide AssessMetric, SetResult, GetResult, IsTerminating, Rank;
      var worstStatus, everythingCompleted := Unset, true;
      var terminating := IsTerminating(Value());
      if startedAt.None? { startedAt := Some(now); }
      for k := 0 to |metrics|
        invariant startedAt == if old(startedAt).None? then Some(now) else old(startedAt)
        invariant Assessment(results, worstStatus, everythingCompleted) ==
                  AssessUpTo(metrics, terminating, old(results), k)
      {
        var found := GetResult(results, metrics[k].name);
        if found.None? { continue; }
        var result := found.value;
        var metricStatus := AssessMetric(metrics[k], result, terminating);
        if result.phase != metricStatus {
          results := SetResult(results, result.(phase := metricStatus));
        }
        if !metricStatus.Completed() {
          everythingCompleted := false;
        } else {
          var worse := IsWorse(worstStatus, metricStatus);
          if worstStatus.Unset? || worse { worstStatus := metricStatus; }
        }
      }
      if !everythingCompleted { return Running; }
      if worstStatus.Unset? { return if terminating then Successful else Running; }
      return worstStatus;
    }

    method GarbageCollectMeasurements(limit: nat, collections: string -> Collection)
      modifies this`results
      ensures results == GarbageCollected(metrics, old(results), limit, collections)
    {
      ghost var before := results;
      var i := 0;
      while i < |results|
        invariant 0 <= i <= |results| == |before|
        invariant !Blocked(metrics, before, limit, collections, i)
        invariant forall j :: 0 <= j < i ==> results[j] == Trimmed(metrics, before, limit, collections, j)
        invariant forall j :: i <= j < |results| ==> results[j] == before[j]
      {
        var result := results[i];
        var length := |result.measurements|;
        if length > limit && HasMetric(metrics, result.name) {
          match collections(result.name) {
            case NoProvider =>
            case CollectFailed =>
              assert forall j :: i < j < |before| ==> Blocked(metrics, before, limit, collections, j);
              return;
            case Collected =>
              results := results[i := result.(measurements := result.measurements[length - limit..])];
          }
        }
        i := i + 1;
      }
    }

    method Reconcile(inp: Inputs)
      modifies this
      ensures Value() == Reconciled(old(Value()), inp)
    {
      if phase.Completed() { return; }
      if |results| == 0 {
        var ok := ValidateMetrics(metrics);
        if !ok {
          phase := Error;
          return;
        }
      }
      var tasks := GenerateMetricTasks(inp.now);
      if !inp.argsResolved {
        phase := Error;
        return;
      }
      RunMeasurements(tasks, inp.replies, inp.now);
      var newStatus := AssessRunStatus(inp.now);
      phase := newStatus;
      GarbageCollectMeasurements(HISTORY_LIMIT, inp.collections);
    }

    method CalculateNextReconcileTime(now: int) returns (reconcileTime: Option<int>)
      ensures IsEarliest(Value(), now, |metrics|, reconcileTime)
    {
      reconcileTime := None;
      for k := 0 to |metrics|
        invariant IsEarliest(Value(), now, k, reconcileTime)
      {
        var metric := metrics[k];
        var result := GetResult(results, metric.name);
        ghost var due := DueTimeOf(Value(), k, now);
        if MetricCompleted(result) { continue; }
        var last := LastMeasurement(result);
        if last.None? {
          if !metric.initialDelay.Absent? {
            if metric.initialDelay.Unparseable? { continue; }
            var startTime := if startedAt.Some? then startedAt.value else now;
            var endInitialDelay := startTime + metric.initialDelay.s;
            if reconcileTime.None? || reconcileTime.value > endInitialDelay { reconcileTime := Some(endInitialDelay); }
          }
          continue;
        }
        if last.value.finishedAt.None? {
          if last.value.resumeAt.Some? {
            if reconcileTime.None? || reconcileTime.value > last.value.resumeAt.value { reconcileTime := last.value.resumeAt; }
          }
          continue;
        }
        if CountReached(metric, result.value) { continue; }
        var interval;
        if last.value.phase.Error? {
          interval := ERROR_RETRY_INTERVAL;
        } else if !metric.interval.Absent? {
          if metric.interval.Unparseable? { continue; }
          interval := metric.interval.s;
        } else {
          continue;
        }
        var metricReconcileTime := last.value.finishedAt.value + interval;
        if reconcileTime.None? || reconcileTime.value > metricReconcileTime { reconcileTime := Some(metricReconcileTime); }
      }
    }
  }
}
