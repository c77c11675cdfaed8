// What an experiment makes of the pods that it finds, and when it ends.
module ExperimentPods {
  import opened Wrappers
  import Analysis
  import opened Experiments
  import opened ExperimentRuns

  // An experiment comes to its end: that is asked for, it has a final phase, something in it is bad, or it has required
  // analyses and all of them are recorded as successful.
  predicate Ends(spec: Spec, status: Status) {
    || spec.terminate
    || status.phase in {Analysis.Successful, Analysis.Failed, Analysis.Error, Analysis.Inconclusive}
    || (exists i :: 0 <= i < |status.templates| && status.templates[i].value.code in {Failed, Error})
    || (exists i :: 0 <= i < |status.runs| && status.runs[i].value.phase in {Analysis.Failed, Analysis.Error, Analysis.Inconclusive})
    || (&& (exists k :: 0 <= k < |spec.analyses| && spec.analyses[k].required)
        && forall k :: 0 <= k < |spec.analyses| && spec.analyses[k].required ==> PhaseOf(status, spec.analyses[k].name) == Analysis.Successful)
  }

  lemma {:induction false} TerminatesExactlyWhen(spec: Spec, status: Status)
    ensures IsTerminating(spec, status) <==> Ends(spec, status)
  {
    hide Get;
  }

  // The pods that a template asks for: none once it has its result or the experiment ends, one by default.
  predicate AsksFor(spec: Spec, status: Status, template: Template, n: int) {
    if Ends(spec, status) || TemplateBefore(status, template.name).code in {Successful, Failed, Error} then n == 0
    else if template.replicas.Some? then n == template.replicas.value else n == 1
  }

  // What the experiment has lasted since it became available.
  predicate Over(spec: Spec, status: Status, now: int) {
    spec.duration.Seconds? && status.availableAt.Some? && now > status.availableAt.value + spec.duration.s
  }

  // The reconcile creates the template's set.
  predicate Creates(env: TemplateEnv, n: int) { env.existing.None? && n > 0 && env.creation.CreatedRS? }

  // The set that a reconcile finds or creates.
  predicate IsSet(env: TemplateEnv, n: int, rs: TemplateRS) {
    if env.existing.Some? then env.existing.value == rs
    else if Creates(env, n) then env.creation.rs == rs else rs == TemplateRS(0, 0, 0, 0)
  }

  // The counts recorded are those of the set, and the time is that of the last reconcile in which they changed, or the
  // set was created or scaled.
  predicate IsObserved(before: TemplateStatus, after: TemplateStatus, env: TemplateEnv, n: int, rs: TemplateRS,
                       now: int) {
    var moves := Creates(env, n) || (env.existing.Some? && env.existing.value.spec != n)
                 || before.replicas != rs.replicas || before.ready != rs.ready || before.available != rs.available;
    && after.replicas == rs.replicas && after.ready == rs.ready && after.available == rs.available
    && after.lastTransition == if moves then Some(now) else before.lastTransition
  }

  // A template that is under way has failed when it has made no progress for longer than its deadline, 600 seconds by
  // default, and lacks pods or has too many.
  predicate IsStuck(spec: Spec, after: TemplateStatus, n: int, now: int) {
    && after.available != n
    && now > (if after.lastTransition.Some? then after.lastTransition.value else now)
             + (if spec.progressDeadlineSeconds.Some? then spec.progressDeadlineSeconds.value else 600)
  }

  // It is in error when its set cannot be created; else it has failed exactly when it is stuck; it is running or
  // successful
  // when it has the pods it asks for, successful when the experiment ends or its duration is over, and progressing
  // before.
  predicate IsJudged(spec: Spec, status: Status, after: TemplateStatus, env: TemplateEnv, n: int, now: int) {
    if env.existing.None? && n > 0 && env.creation.CreateFails? then after.code == Error
    else
      && (after.code == Failed <==> IsStuck(spec, after, n, now))
      && (after.available == n ==> after.code == if Ends(spec, status) || Over(spec, status, now) then Successful else Running)
      && (after.available != n && after.code != Failed ==> after.code == if Ends(spec, status) then Successful else Progressing)
  }

  // Nothing has been observed of a template without a status.
  lemma {:induction false} NothingObserved(status: Status, name: string)
    requires forall i :: 0 <= i < |status.templates| ==> status.templates[i].name != name
    ensures TemplateBefore(status, name) == TemplateStatus(NoStatus, 0, 0, 0, None)
    decreases |status.templates|
  {
    if status.templates != [] {
      NothingObserved(status.(templates := status.templates[1..]), name);
    }
  }

  lemma {:induction false} TemplateIsJudged(trace: seq<State>, events: seq<Event>, i: nat, k: nat, n: int,
                                            rs: TemplateRS)
    requires IsTrace(trace, events) && i < |events| && events[i].Reconcile? && k < |trace[i].spec.templates|
    requires var s, template := trace[i], trace[i].spec.templates[k];
             AsksFor(s.spec, s.status, template, n) && IsSet(events[i].env.templates(template.name), n, rs)
    ensures var s, name := trace[i], trace[i].spec.templates[k].name;
            var env, before, after := events[i].env.templates(name), TemplateBefore(s.status, name), TemplateBefore(trace[i + 1].status, name);
            && IsObserved(before, after, env, n, rs, events[i].env.now)
            && if before.code in {Successful, Failed, Error} then after.code == before.code
               else IsJudged(s.spec, s.status, after, env, n, events[i].env.now)
  {
    hide Get, IsTerminating, Ends, WorstTemplate, NextPhase, RunsUpTo;
    TerminatesExactlyWhen(trace[i].spec, trace[i].status);
    ReachableInOrder(trace, events, i);
    TemplateUpdated(trace[i].spec, trace[i].status, events[i].env, |trace[i].spec.templates|, k);
  }

  // The templates are up: one is running, and none is progressing or bad.
  predicate AreUp(spec: Spec, status: Status) {
    && (exists k :: 0 <= k < |spec.templates| && TemplateBefore(status, spec.templates[k].name).code == Running)
    && forall k :: 0 <= k < |spec.templates| ==> TemplateBefore(status, spec.templates[k].name).code !in {Progressing, Failed, Error}
  }

  // An experiment under way becomes available in the first reconcile that leaves its templates up, and stays so.
  lemma {:induction false} AvailableExactlyWhen(trace: seq<State>, events: seq<Event>, i: nat)
    requires IsTrace(trace, events) && i < |events|
    ensures trace[i + 1].status.availableAt ==
            if events[i].Reconcile? && trace[i].status.phase in {Analysis.Pending, Analysis.Running} && trace[i].status.availableAt.None?
               && AreUp(trace[i].spec, trace[i + 1].status)
            then Some(events[i].env.now) else trace[i].status.availableAt
  {
    hide Get, IsTerminating, WorstTemplate, NextPhase, RunsUpTo, TemplatesUpTo, TemplateAfter, TemplateBefore,
         RunsInOrder;
    ReachableInOrder(trace, events, i);
    if events[i].Reconcile? {
      var s := trace[i];
      var updated := Updated(s.spec, s.status, events[i].env);
      TemplatesByRank(s.spec, updated);
      forall k | 0 <= k < |s.spec.templates|
        ensures CodeOf(updated, s.spec.templates[k].name) == TemplateBefore(updated, s.spec.templates[k].name).code
        ensures TemplateBefore(updated, s.spec.templates[k].name) ==
                TemplateBefore(trace[i + 1].status, s.spec.templates[k].name)
      {
        TemplateUpdated(s.spec, s.status, events[i].env, |s.spec.templates|, k);
        SameCode(updated, trace[i + 1].status, s.spec.templates[k].name);
      }
    }
  }

  lemma {:induction false} SameCode(status: Status, status': Status, name: string)
    requires Get(status.templates, name).Some? && status'.templates == status.templates
    ensures CodeOf(status, name) == TemplateBefore(status, name).code && TemplateBefore(status, name) == TemplateBefore(status', name)
  {
  }
}
