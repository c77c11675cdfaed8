// The goroutines of runMeasurements: each reads its result under the lock, computes, and writes its result
// under the lock. However their steps interleave, every name ends up with the same result.
module AnalysisInterleaving {
  import opened Wrappers
  import opened Analysis
  import opened AnalysisEngine
  import opened AnalysisMetrics

  datatype Goroutine = NotStarted | HasRead(found: Option<MetricResult>) | HasComputed(result: MetricResult) | Done

  datatype State = State(results: seq<MetricResult>, goroutines: seq<Goroutine>)

  // What all goroutines share and none of them changes.
  datatype Setting = Setting(tasks: seq<MetricTask>, terminating: bool, replies: string -> Reply, now: int)
  {
    function Computed(i: nat, found: Option<MetricResult>): MetricResult
      requires i < |tasks|
    {
      Measure(found, tasks[i], terminating, replies(tasks[i].metric.name), now)
    }
  }

  // One step of goroutine i.
  predicate Step(c: Setting, s: State, s': State, i: nat) {
    && |s.goroutines| == |c.tasks| && i < |c.tasks|
    && match s.goroutines[i]
       case NotStarted => s' == State(s.results, s.goroutines[i := HasRead(GetResult(s.results, c.tasks[i].metric.name))])
       case HasRead(found) => s' == State(s.results, s.goroutines[i := HasComputed(c.Computed(i, found))])
       case HasComputed(r) => s' == State(SetResult(s.results, r), s.goroutines[i := Done])
       case Done => false
  }

  function Start(c: Setting, results: seq<MetricResult>): State { State(results, seq(|c.tasks|, _ => NotStarted)) }

  // An execution under some scheduler: schedule[n] takes the n-th step.
  ghost predicate IsExecution(c: Setting, states: seq<State>, schedule: seq<nat>) {
    |states| == |schedule| + 1 && forall n :: 0 <= n < |schedule| ==> Step(c, states[n], states[n + 1], schedule[n])
  }

  predicate DistinctTasks(tasks: seq<MetricTask>) {
    forall i, j :: 0 <= i < j < |tasks| ==> tasks[i].metric.name != tasks[j].metric.name
  }

  // Results are filed under the name they carry.
  predicate Named(c: Setting, results: seq<MetricResult>) {
    forall i :: 0 <= i < |c.tasks| ==> c.Computed(i, GetResult(results, c.tasks[i].metric.name)).name == c.tasks[i].metric.name
  }

  lemma {:induction false} ResultsAreNamed(c: Setting, results: seq<MetricResult>)
    ensures Named(c, results)
  {
    hide Measure, GetResult;
    forall i | 0 <= i < |c.tasks| ensures c.Computed(i, GetResult(results, c.tasks[i].metric.name)).name == c.tasks[i].metric.name {
      var name := c.tasks[i].metric.name;
      GetResultIsListed(results, name);
      MeasureKeepsNameAndPhase(GetResult(results, name), c.tasks[i], c.terminating, c.replies(name), c.now);
    }
  }

  // How far goroutine i has come, relative to the results all of them started from.
  predicate OnTrack(c: Setting, start: seq<MetricResult>, s: State, i: nat)
    requires |s.goroutines| == |c.tasks| && i < |c.tasks|
  {
    var name := c.tasks[i].metric.name;
    var found := GetResult(start, name);
    match s.goroutines[i]
    case NotStarted => GetResult(s.results, name) == found
    case HasRead(f) => f == found && GetResult(s.results, name) == found
    case HasComputed(r) => r == c.Computed(i, found) && GetResult(s.results, name) == found
    case Done => GetResult(s.results, name) == Some(c.Computed(i, found))
  }

  predicate Untouched(c: Setting, start: seq<MetricResult>, results: seq<MetricResult>, name: string) {
    (forall i :: 0 <= i < |c.tasks| ==> c.tasks[i].metric.name != name) ==> GetResult(results, name) == GetResult(start, name)
  }

  lemma {:induction false} StepStaysOnTrack(c: Setting, start: seq<MetricResult>, s: State, s': State, i: nat,
                                            name: string)
    requires DistinctTasks(c.tasks) && Step(c, s, s', i)
    requires forall j :: 0 <= j < |c.tasks| ==> OnTrack(c, start, s, j)
    requires Untouched(c, start, s.results, name)
    ensures |s'.goroutines| == |c.tasks| && forall j :: 0 <= j < |c.tasks| ==> OnTrack(c, start, s', j)
    ensures Untouched(c, start, s'.results, name)
  {
    hide Measure, GetResult, SetResult;
    ResultsAreNamed(c, start);
    assert OnTrack(c, start, s, i);
    if s.goroutines[i].HasComputed? {
      var r := s.goroutines[i].result;
      GetAfterSet(s.results, r, name);
      forall j | 0 <= j < |c.tasks| ensures OnTrack(c, start, s', j) {
        assert OnTrack(c, start, s, j);
        GetAfterSet(s.results, r, c.tasks[j].metric.name);
        assert j != i ==> c.tasks[j].metric.name != r.name;
      }
    } else {
      forall j | 0 <= j < |c.tasks| ensures OnTrack(c, start, s', j) {
        assert OnTrack(c, start, s, j);
      }
    }
  }

  lemma {:induction false} ExecutionStaysOnTrack(c: Setting, states: seq<State>, schedule: seq<nat>, n: nat,
                                                 name: string)
    requires DistinctTasks(c.tasks) && IsExecution(c, states, schedule) && states[0] == Start(c, states[0].results)
    requires n < |states|
    ensures |states[n].goroutines| == |c.tasks| && forall j :: 0 <= j < |c.tasks| ==> OnTrack(c, states[0].results, states[n], j)
    ensures Untouched(c, states[0].results, states[n].results, name)
  {
    hide Measure, GetResult, SetResult, Named;
    if n == 0 {
      assert states[0].goroutines == seq(|c.tasks|, _ => NotStarted);
    } else {
      ExecutionStaysOnTrack(c, states, schedule, n - 1, name);
      StepStaysOnTrack(c, states[0].results, states[n - 1], states[n], schedule[n - 1], name);
    }
  }

  // Running them in sequence ends with the same results.
  lemma {:induction false} SequentialResults(c: Setting, results: seq<MetricResult>, n: nat, name: string)
    requires DistinctTasks(c.tasks) && n <= |c.tasks|
    ensures var after := RunTasks(results, c.tasks, n, c.terminating, c.replies, c.now);
            && (forall i :: 0 <= i < |c.tasks| ==>
                  GetResult(after, c.tasks[i].metric.name) ==
                  if i < n then Some(c.Computed(i, GetResult(results, c.tasks[i].metric.name))) else GetResult(results, c.tasks[i].metric.name))
            && Untouched(c, results, after, name)
  {
    hide Measure, GetResult, SetResult;
    ResultsAreNamed(c, results);
    if n > 0 {
      SequentialResults(c, results, n - 1, name);
      var before := RunTasks(results, c.tasks, n - 1, c.terminating, c.replies, c.now);
      var r := c.Computed(n - 1, GetResult(before, c.tasks[n - 1].metric.name));
      GetAfterSet(before, r, name);
      forall i | 0 <= i < |c.tasks|
        ensures GetResult(SetResult(before, r), c.tasks[i].metric.name) == if i == n - 1 then Some(r) else GetResult(before, c.tasks[i].metric.name)
      {
        GetAfterSet(before, r, c.tasks[i].metric.name);
      }
    }
  }

  // Every execution that lets all goroutines finish gives every name the result of running them in order.
  lemma {:induction false} InterleavingsAgree(c: Setting, states: seq<State>, schedule: seq<nat>, name: string)
    requires DistinctTasks(c.tasks) && IsExecution(c, states, schedule) && states[0] == Start(c, states[0].results)
    requires forall i :: 0 <= i < |states[|schedule|].goroutines| ==> states[|schedule|].goroutines[i].Done?
    ensures GetResult(states[|schedule|].results, name) ==
            GetResult(RunTasks(states[0].results, c.tasks, |c.tasks|, c.terminating, c.replies, c.now), name)
  {
    hide Measure, GetResult, SetResult, Named, RunTasks;
    ExecutionStaysOnTrack(c, states, schedule, |schedule|, name);
    SequentialResults(c, states[0].results, |c.tasks|, name);
    if i :| 0 <= i < |c.tasks| && c.tasks[i].metric.name == name {
      assert OnTrack(c, states[0].results, states[|schedule|], i);
    }
  }

  // Any two executions from the same results agree, so the order in which measurements arrive never shows.
  lemma {:induction false} ExecutionsAgree(c: Setting, states: seq<State>, schedule: seq<nat>, states': seq<State>,
                                           schedule': seq<nat>, name: string)
    requires IsExecution(c, states, schedule) && IsExecution(c, states', schedule')
    requires DistinctTasks(c.tasks)
    requires states[0] == states'[0] == Start(c, states[0].results)
    requires forall i :: 0 <= i < |states[|schedule|].goroutines| ==> states[|schedule|].goroutines[i].Done?
    requires forall i :: 0 <= i < |states'[|schedule'|].goroutines| ==> states'[|schedule'|].goroutines[i].Done?
    ensures GetResult(states[|schedule|].results, name) == GetResult(states'[|schedule'|].results, name)
  {
    InterleavingsAgree(c, states, schedule, name);
    InterleavingsAgree(c, states', schedule', name);
  }

  lemma {:induction false} TasksAreOfMetrics(run: Run, now: int, n: nat)
    requires n <= |run.metrics| && DistinctNames(run.metrics)
    ensures var tasks := TasksUpTo(run, now, n);
            DistinctTasks(tasks) && forall i :: 0 <= i < |tasks| ==> exists k :: 0 <= k < n && run.metrics[k].name == tasks[i].metric.name
  {
    hide TaskFor, GetResult, IsTerminating;
    if n > 0 {
      TasksAreOfMetrics(run, now, n - 1);
      var metric := run.metrics[n - 1];
      TaskHasMetric(metric, GetResult(run.results, metric.name), IsTerminating(run), run.startedAt, now);
    }
  }

  // So in a run with distinct metric names, whatever the scheduler does, every metric ends up
  // with the result that measuring in order would give.
  lemma {:induction false} MeasuringInAnyOrder(run: Run, inp: Inputs, states: seq<State>, schedule: seq<nat>,
                                               name: string)
    requires DistinctNames(run.metrics)
    requires var c := Setting(Tasks(run, inp.now), IsTerminating(run), inp.replies, inp.now);
             IsExecution(c, states, schedule) && states[0] == Start(c, run.results)
    requires forall i :: 0 <= i < |states[|schedule|].goroutines| ==> states[|schedule|].goroutines[i].Done?
    ensures GetResult(states[|schedule|].results, name) == GetResult(MeasuredRun(run, inp).results, name)
  {
    hide GetResult, RunTasks, IsTerminating, TasksUpTo;
    TasksAreOfMetrics(run, inp.now, |run.metrics|);
    InterleavingsAgree(Setting(Tasks(run, inp.now), IsTerminating(run), inp.replies, inp.now), states, schedule, name);
  }

  lemma {:induction false} FirstCount(c: Setting, task: MetricTask, reply: Measurement)
    requires reply.phase.Successful? && |c.tasks| > 0 && c.tasks[0] == task && task.incomplete.None?
    requires c.replies(task.metric.name) == Reply(true, reply, reply, reply)
    ensures c.Computed(0, None).name == task.metric.name && c.Computed(0, None).count == 1
  {
  }

  // Two tasks of the same metric would race: the later write overwrites what the earlier one counted.
  lemma {:induction false} SameNameLosesAMeasurement(metric: Metric, reply: Measurement, now: int)
    requires reply.phase.Successful?
    ensures var task := MetricTask(metric, None);
            var c := Setting([task, task], false, _ => Reply(true, reply, reply, reply), now);
            exists states: seq<State>, schedule: seq<nat> :: IsExecution(c, states, schedule) && states[0] == Start(c, [])
              && states[|schedule|].goroutines == [Done, Done]
              && GetResult(states[|schedule|].results, metric.name).Some?
              && GetResult(states[|schedule|].results, metric.name).value.count == 1
  {
    hide Measure;
    var task := MetricTask(metric, None);
    var c := Setting([task, task], false, _ => Reply(true, reply, reply, reply), now);
    FirstCount(c, task, reply);
    var r := c.Computed(0, None);
    var s0 := Start(c, []);
    assert s0.goroutines == [NotStarted, NotStarted];
    var s1 := State([], [HasRead(None), NotStarted]);
    var s2 := State([], [HasRead(None), HasRead(None)]);
    var s3 := State([], [HasComputed(r), HasRead(None)]);
    var s4 := State([], [HasComputed(r), HasComputed(r)]);
    var s5 := State([r], [Done, HasComputed(r)]);
    var s6 := State([r], [Done, Done]);
    var states, schedule: seq<nat> := [s0, s1, s2, s3, s4, s5, s6], [0, 1, 0, 1, 0, 1];
    assert SetResult([r], r) == [r];
    assert Step(c, s0, s1, 0) && Step(c, s1, s2, 1) && Step(c, s2, s3, 0);
    assert Step(c, s3, s4, 1) && Step(c, s4, s5, 0) && Step(c, s5, s6, 1);
    assert IsExecution(c, states, schedule);
  }
}
