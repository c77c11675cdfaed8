// A reconcile seen from a single metric: with distinct names, what happens to one result depends on
// that result, its metric and whether the run is terminating, and on no other result.
module AnalysisMetrics {
  import opened Wrappers
  import opened Analysis
  import opened AnalysisEngine

  /******* Measuring *******/

  function MeasuredOf(metric: Metric, result: Option<MetricResult>, terminating: bool, startedAt: Option<int>,
                      inp: Inputs): Option<MetricResult> {
    match TaskFor(metric, result, terminating, startedAt, inp.now)
    case None => result
    case Some(task) => Some(Measure(result, task, terminating, inp.replies(metric.name), inp.now))
  }

  lemma {:induction false} RunPrefix(results: seq<MetricResult>, tasks: seq<MetricTask>, more: seq<MetricTask>,
                                     n: nat, terminating: bool, replies: string -> Reply, now: int)
    requires n <= |tasks|
    ensures RunTasks(results, tasks + more, n, terminating, replies, now) ==
            RunTasks(results, tasks, n, terminating, replies, now)
  {
    hide Measure, GetResult, SetResult;
    if n > 0 {
      RunPrefix(results, tasks, more, n - 1, terminating, replies, now);
      assert (tasks + more)[n - 1] == tasks[n - 1];
    }
  }

  lemma {:induction false} TaskHasMetric(metric: Metric, result: Option<MetricResult>, terminating: bool,
                                         startedAt: Option<int>, now: int)
    ensures var t := TaskFor(metric, result, terminating, startedAt, now); t.Some? ==> t.value.metric == metric
  {
  }

  lemma {:induction false} MeasureKeepsNameAndPhase(result: Option<MetricResult>, task: MetricTask, terminating: bool,
                                                    reply: Reply, now: int)
    requires result.Some? ==> result.value.name == task.metric.name
    ensures var r := Measure(result, task, terminating, reply, now);
            r.name == task.metric.name && r.phase == if result.Some? then result.value.phase else Running
  {
    hide Measured, Counted;
    CountingKeepsMeasurements(if result.Some? then result.value else NewResult(task.metric.name),
                              Measured(task.incomplete, terminating, reply, now).phase);
  }

  lemma {:induction false} MeasuredUpTo(run: Run, inp: Inputs, n: nat)
    requires n <= |run.metrics| && DistinctNames(run.metrics)
    ensures var tasks := TasksUpTo(run, inp.now, n);
            var results := RunTasks(run.results, tasks, |tasks|, IsTerminating(run), inp.replies, inp.now);
            forall k :: 0 <= k < |run.metrics| ==>
              GetResult(results, run.metrics[k].name) ==
              var old' := GetResult(run.results, run.metrics[k].name);
              if k < n then MeasuredOf(run.metrics[k], old', IsTerminating(run), run.startedAt, inp) else old'
  {
    hide TaskFor, Measure, GetResult, SetResult, IsTerminating;
    if n > 0 {
      MeasuredUpTo(run, inp, n - 1);
      var metric, terminating := run.metrics[n - 1], IsTerminating(run);
      var tasks := TasksUpTo(run, inp.now, n - 1);
      var before := RunTasks(run.results, tasks, |tasks|, terminating, inp.replies, inp.now);
      var old' := GetResult(run.results, metric.name);
      var task := TaskFor(metric, old', terminating, run.startedAt, inp.now);
      if task.Some? {
        TaskHasMetric(metric, old', terminating, run.startedAt, inp.now);
        RunPrefix(run.results, tasks, [task.value], |tasks|, terminating, inp.replies, inp.now);
        GetResultIsListed(run.results, metric.name);
        var r := Measure(old', task.value, terminating, inp.replies(metric.name), inp.now);
        MeasureKeepsNameAndPhase(old', task.value, terminating, inp.replies(metric.name), inp.now);
        forall k | 0 <= k < |run.metrics|
          ensures GetResult(SetResult(before, r), run.metrics[k].name) == if k == n - 1 then Some(r) else GetResult(before, run.metrics[k].name)
        {
          GetAfterSet(before, r, run.metrics[k].name);
        }
      } else {
        assert tasks + [] == tasks;
      }
    }
  }

  /******* Assessing *******/

  function StatusOf(metric: Metric, result: Option<MetricResult>, terminating: bool): Option<Phase> {
    if result.None? then None else Some(AssessMetric(metric, result.value, terminating))
  }

  function AssessedOf(metric: Metric, result: Option<MetricResult>, terminating: bool): Option<MetricResult> {
    if result.None? then None else Some(result.value.(phase := AssessMetric(metric, result.value, terminating)))
  }

  function StatusAt(metrics: seq<Metric>, terminating: bool, results: seq<MetricResult>, k: nat): Option<Phase>
    requires k < |metrics|
  {
    StatusOf(metrics[k], GetResult(results, metrics[k].name), terminating)
  }

  lemma {:induction false} AssessedUpTo(metrics: seq<Metric>, terminating: bool, results: seq<MetricResult>, n: nat)
    requires n <= |metrics| && DistinctNames(metrics)
    ensures var a := AssessUpTo(metrics, terminating, results, n);
            forall k :: 0 <= k < |metrics| ==>
              GetResult(a.results, metrics[k].name) ==
              var old' := GetResult(results, metrics[k].name);
              if k < n then AssessedOf(metrics[k], old', terminating) else old'
  {
    hide AssessMetric, GetResult, SetResult;
    if n > 0 {
      AssessedUpTo(metrics, terminating, results, n - 1);
      var a := AssessUpTo(metrics, terminating, results, n - 1);
      var old' := GetResult(results, metrics[n - 1].name);
      if old'.Some? {
        GetResultIsListed(results, metrics[n - 1].name);
        var r := old'.value.(phase := AssessMetric(metrics[n - 1], old'.value, terminating));
        forall k | 0 <= k < |metrics|
          ensures GetResult(SetResult(a.results, r), metrics[k].name) == if k == n - 1 then Some(r) else GetResult(a.results, metrics[k].name)
        {
          GetAfterSet(a.results, r, metrics[k].name);
        }
      }
    }
  }

  // The run is held open by the metrics that have a result and are not done, and by no others.
  lemma {:induction false} HeldOpenBy(metrics: seq<Metric>, terminating: bool, results: seq<MetricResult>, n: nat)
    requires n <= |metrics| && DistinctNames(metrics)
    ensures AssessUpTo(metrics, terminating, results, n).allCompleted <==>
            forall k :: 0 <= k < n && StatusAt(metrics, terminating, results, k).Some?
                        ==> StatusAt(metrics, terminating, results, k).value.Completed()
  {
    hide AssessMetric, GetResult, SetResult, Rank;
    if n > 0 {
      AssessedUpTo(metrics, terminating, results, n - 1);
      HeldOpenBy(metrics, terminating, results, n - 1);
      var a := AssessUpTo(metrics, terminating, results, n - 1);
      assert GetResult(a.results, metrics[n - 1].name) == GetResult(results, metrics[n - 1].name);
      assert AssessUpTo(metrics, terminating, results, n).allCompleted <==>
             a.allCompleted && (StatusAt(metrics, terminating, results, n - 1).Some?
                                ==> StatusAt(metrics, terminating, results, n - 1).value.Completed());
    }
  }

  // p is the status of one of the first n metrics that are done, and none of them is worse; Unset if there is none.
  predicate IsWorstOf(metrics: seq<Metric>, terminating: bool, results: seq<MetricResult>, n: nat, p: Phase)
    requires n <= |metrics|
  {
    && (p.Unset? || (p.Completed() && exists k :: 0 <= k < n && StatusAt(metrics, terminating, results, k) == Some(p)))
    && forall k :: 0 <= k < n && StatusAt(metrics, terminating, results, k).Some? && StatusAt(metrics, terminating, results, k).value.Completed()
                   ==> !p.Unset? && Rank(StatusAt(metrics, terminating, results, k).value) <= Rank(p)
  }

  // The worst status so far, with one more metric.
  function WorseOf(worst: Phase, status: Option<Phase>): Phase {
    if status.Some? && status.value.Completed() && (worst.Unset? || Rank(status.value) > Rank(worst)) then status.value else worst
  }

  lemma {:induction false} WorstStep(metrics: seq<Metric>, terminating: bool, results: seq<MetricResult>, n: nat,
                                     worst: Phase)
    requires 0 < n <= |metrics| && IsWorstOf(metrics, terminating, results, n - 1, worst)
    ensures IsWorstOf(metrics, terminating, results, n, WorseOf(worst, StatusAt(metrics, terminating, results, n - 1)))
  {
    hide StatusAt, Rank;
    var status := StatusAt(metrics, terminating, results, n - 1);
    if WorseOf(worst, status) != worst {
      assert StatusAt(metrics, terminating, results, n - 1) == Some(WorseOf(worst, status));
    }
  }

  lemma {:induction false} WorstIsWorst(metrics: seq<Metric>, terminating: bool, results: seq<MetricResult>, n: nat)
    requires n <= |metrics| && DistinctNames(metrics)
    ensures IsWorstOf(metrics, terminating, results, n, AssessUpTo(metrics, terminating, results, n).worst)
  {
    hide AssessMetric, GetResult, SetResult, Rank, IsWorstOf;
    if n == 0 {
      NothingIsWorst(metrics, terminating, results);
    } else {
      AssessedUpTo(metrics, terminating, results, n - 1);
      WorstIsWorst(metrics, terminating, results, n - 1);
      var a := AssessUpTo(metrics, terminating, results, n - 1);
      assert GetResult(a.results, metrics[n - 1].name) == GetResult(results, metrics[n - 1].name);
      WorstStep(metrics, terminating, results, n, a.worst);
      assert AssessUpTo(metrics, terminating, results, n).worst ==
             WorseOf(a.worst, StatusAt(metrics, terminating, results, n - 1));
    }
  }

  lemma {:induction false} NothingIsWorst(metrics: seq<Metric>, terminating: bool, results: seq<MetricResult>)
    ensures IsWorstOf(metrics, terminating, results, 0, Unset)
  {
  }

  /******* Trimming *******/

  // A result after garbage collection: as it was, or with its last `limit` measurements only.
  predicate TrimmedTo(r: MetricResult, r': MetricResult, limit: nat) {
    r' == r || (|r.measurements| > limit && r' == r.(measurements := r.measurements[|r.measurements| - limit..]))
  }

  lemma {:induction false} TrimmedResult(before: seq<MetricResult>, after: seq<MetricResult>, limit: nat, name: string)
    requires |before| == |after| && forall i :: 0 <= i < |before| ==> TrimmedTo(before[i], after[i], limit)
    ensures var r, r' := GetResult(before, name), GetResult(after, name);
            r.Some? == r'.Some? && (r.Some? ==> TrimmedTo(r.value, r'.value, limit))
  {
    if before != [] {
      assert forall i :: 0 <= i < |before[1..]| ==> before[1..][i] == before[i + 1] && after[1..][i] == after[i + 1];
      TrimmedResult(before[1..], after[1..], limit, name);
    }
  }

  lemma {:induction false} UntrimmedResult(before: seq<MetricResult>, after: seq<MetricResult>, name: string)
    requires |before| == |after|
    requires forall i :: 0 <= i < |before| ==> after[i].name == before[i].name && (before[i].name == name ==> after[i] == before[i])
    ensures GetResult(after, name) == GetResult(before, name)
  {
    if before != [] {
      assert forall i :: 0 <= i < |before[1..]| ==> before[1..][i] == before[i + 1] && after[1..][i] == after[i + 1];
      UntrimmedResult(before[1..], after[1..], name);
    }
  }

  /******* The whole reconcile *******/

  // A reconcile that gets as far as measuring.
  predicate Proceeds(run: Run, inp: Inputs) {
    && !run.phase.Completed()
    && (run.results == [] ==> ValidMetrics(run.metrics))
    && inp.argsResolved
  }

  lemma {:induction false} RunTasksKeepsFailures(run: Run, tasks: seq<MetricTask>, n: nat, inp: Inputs)
    requires n <= |tasks|
    ensures IsTerminating(run) ==
            IsTerminating(run.(results := RunTasks(run.results, tasks, n, IsTerminating(run), inp.replies, inp.now)))
  {
    if n > 0 {
      RunTasksKeepsFailures(run, tasks, n - 1, inp);
      var t := IsTerminating(run);
      var before := RunTasks(run.results, tasks, n - 1, t, inp.replies, inp.now);
      var name := tasks[n - 1].metric.name;
      var r := GetResult(before, name);
      GetResultIsListed(before, name);
      MeasureKeepsNameAndPhase(r, tasks[n - 1], t, inp.replies(name), inp.now);
      SetKeepsFailures(before, Measure(r, tasks[n - 1], t, inp.replies(name), inp.now));
    }
  }

  predicate AnyBad(results: seq<MetricResult>) { exists i :: 0 <= i < |results| && results[i].phase.Bad() }

  // Replacing a result by one with the same phase, or adding one that is running, changes no verdict.
  lemma {:induction false} SetKeepsFailures(results: seq<MetricResult>, r: MetricResult)
    requires r.phase == match GetResult(results, r.name) { case None => Running case Some(q) => q.phase }
    ensures AnyBad(SetResult(results, r)) == AnyBad(results)
  {
    if results != [] {
      var rest := results[1..];
      AnyBadOfCons(results[0], rest);
      assert [results[0]] + rest == results;
      if results[0].name == r.name {
        AnyBadOfCons(r, rest);
      } else {
        SetKeepsFailures(rest, r);
        AnyBadOfCons(results[0], SetResult(rest, r));
      }
    }
  }

  lemma {:induction false} AnyBadOfCons(r: MetricResult, rest: seq<MetricResult>)
    ensures AnyBad([r] + rest) <==> r.phase.Bad() || AnyBad(rest)
  {
    if AnyBad(rest) {
      var i :| 0 <= i < |rest| && rest[i].phase.Bad();
      assert ([r] + rest)[i + 1].phase.Bad();
    }
    if r.phase.Bad() {
      assert ([r] + rest)[0].phase.Bad();
    }
  }

  // What a reconcile makes of the result of metric k.
  lemma {:induction false} ReconciledResult(run: Run, inp: Inputs, k: nat)
    requires k < |run.metrics| && DistinctNames(run.metrics) && Proceeds(run, inp)
    ensures var metric, t := run.metrics[k], IsTerminating(run);
            var assessed := AssessedOf(metric, MeasuredOf(metric, GetResult(run.results, metric.name), t, run.startedAt, inp), t);
            var after := GetResult(Reconciled(run, inp).results, metric.name);
            && assessed.Some? == after.Some? && (assessed.Some? ==> TrimmedTo(assessed.value, after.value, HISTORY_LIMIT))
            && (!inp.collections(metric.name).Collected? ==> after == assessed)
  {
    hide AssessMetric, TaskFor, Measure, GetResult, SetResult, IsTerminating;
    var measured := MeasuredRun(run, inp);
    MeasuredUpTo(run, inp, |run.metrics|);
    SameTermination(run, inp);
    AssessedUpTo(run.metrics, IsTerminating(run), measured.results, |run.metrics|);
    var assessed := AssessedRun(measured, inp.now);
    TrimmedResult(assessed.results, Reconciled(run, inp).results, HISTORY_LIMIT, run.metrics[k].name);
    if !inp.collections(run.metrics[k].name).Collected? {
      UntrimmedResult(assessed.results, Reconciled(run, inp).results, run.metrics[k].name);
    }
  }

  lemma {:induction false} ReconcileKeepsMetrics(run: Run, inp: Inputs)
    ensures Reconciled(run, inp).metrics == run.metrics
  {
  }

  // Measuring does not change whether the run is terminating.
  lemma {:induction false} SameTermination(run: Run, inp: Inputs)
    ensures IsTerminating(MeasuredRun(run, inp)) == IsTerminating(run)
  {
    RunTasksKeepsFailures(run, Tasks(run, inp.now), |Tasks(run, inp.now)|, inp);
  }
}
