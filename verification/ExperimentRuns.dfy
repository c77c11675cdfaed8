// What an experiment's phases say, and that completed ones never change.
module ExperimentRuns {
  import opened Wrappers
  import Analysis
  import opened Experiments

  /******* The verdict *******/

  predicate AnyTemplate(spec: Spec, status: Status, code: TemplateCode) {
    exists k :: 0 <= k < |spec.templates| && CodeOf(status, spec.templates[k].name) == code
  }

  predicate AnyRun(spec: Spec, status: Status, phase: Phase) {
    exists k :: 0 <= k < |spec.analyses| && PhaseOf(status, spec.analyses[k].name) == phase
  }

  // The phase of a running experiment, from what its templates and analyses are: bad templates first, the worst
  // first; then bad analyses; then success, when the templates or the required analyses are through.
  function Verdict(spec: Spec, status: Status): Phase {
    var quiet := !AnyRun(spec, status, Analysis.Running) && !AnyRun(spec, status, Analysis.Pending);
    if AnyTemplate(spec, status, Failed) then Analysis.Failed
    else if AnyTemplate(spec, status, Error) then Analysis.Error
    else if AnyRun(spec, status, Analysis.Failed) then Analysis.Failed
    else if AnyRun(spec, status, Analysis.Error) then Analysis.Error
    else if AnyRun(spec, status, Analysis.Inconclusive) then Analysis.Inconclusive
    else if !AnyTemplate(spec, status, Progressing) && !AnyTemplate(spec, status, Running) then
      if HasRequired(spec) && !quiet then Analysis.Running else Analysis.Successful
    else if RequiredSucceeded(spec, status) then if quiet then Analysis.Successful else Analysis.Running
    else if AnyTemplate(spec, status, Progressing) then Analysis.Pending
    else Analysis.Running
  }

  lemma {:induction false} WorstTemplateIsWorst(spec: Spec, status: Status, n: nat)
    requires n <= |spec.templates|
    ensures var worst := WorstTemplate(spec, status, n);
            && (worst == Successful || exists k :: 0 <= k < n && CodeOf(status, spec.templates[k].name) == worst)
            && worst != NoStatus
            && forall k :: 0 <= k < n ==> TemplateRank(CodeOf(status, spec.templates[k].name)) <= TemplateRank(worst)
  {
    hide CodeOf;
    if n > 0 {
      WorstTemplateIsWorst(spec, status, n - 1);
    }
  }

  lemma {:induction false} WorstRunIsWorst(spec: Spec, status: Status, n: nat)
    requires n <= |spec.analyses|
    ensures var worst := WorstRun(spec, status, n);
            && (worst == Analysis.Successful || exists k :: 0 <= k < n && PhaseOf(status, spec.analyses[k].name) == worst)
            && worst != Analysis.Unset
            && forall k :: 0 <= k < n ==> Analysis.Rank(PhaseOf(status, spec.analyses[k].name)) <= Analysis.Rank(worst)
  {
    hide PhaseOf;
    if n > 0 {
      WorstRunIsWorst(spec, status, n - 1);
    }
  }

  // The worst code found in the loop is a given one exactly when some template has it and none has a worse one.
  lemma {:induction false} TemplatesByRank(spec: Spec, status: Status)
    ensures var worst := WorstTemplate(spec, status, |spec.templates|);
            && (worst == Failed <==> AnyTemplate(spec, status, Failed))
            && (worst == Error <==> !AnyTemplate(spec, status, Failed) && AnyTemplate(spec, status, Error))
            && (worst == Progressing <==> !AnyTemplate(spec, status, Failed) && !AnyTemplate(spec, status, Error) && AnyTemplate(spec, status, Progressing))
            && (worst == Successful <==> !AnyTemplate(spec, status, Failed) && !AnyTemplate(spec, status, Error)
                                         && !AnyTemplate(spec, status, Progressing) && !AnyTemplate(spec, status, Running))
            && worst != NoStatus
  {
    hide CodeOf, WorstTemplate;
    WorstTemplateIsWorst(spec, status, |spec.templates|);
  }

  lemma {:induction false} RunsByRank(spec: Spec, status: Status)
    ensures var worst := WorstRun(spec, status, |spec.analyses|);
            && (worst == Analysis.Failed <==> AnyRun(spec, status, Analysis.Failed))
            && (worst == Analysis.Error <==> !AnyRun(spec, status, Analysis.Failed) && AnyRun(spec, status, Analysis.Error))
            && (worst == Analysis.Inconclusive <==> !AnyRun(spec, status, Analysis.Failed) && !AnyRun(spec, status, Analysis.Error)
                                                    && AnyRun(spec, status, Analysis.Inconclusive))
            && (worst == Analysis.Successful <==>
                  && !AnyRun(spec, status, Analysis.Failed) && !AnyRun(spec, status, Analysis.Error) && !AnyRun(spec, status, Analysis.Inconclusive)
                  && !AnyRun(spec, status, Analysis.Running) && !AnyRun(spec, status, Analysis.Pending))
            && worst != Analysis.Unset
  {
    hide PhaseOf, WorstRun;
    WorstRunIsWorst(spec, status, |spec.analyses|);
  }

  // calculateStatus gives a pending or running experiment exactly that verdict.
  lemma {:induction false} PhaseIsVerdict(spec: Spec, status: Status)
    requires status.phase == Analysis.Pending || status.phase == Analysis.Running
    ensures NextPhase(spec, status) == Verdict(spec, status)
  {
    hide WorstTemplate, WorstRun, AnyTemplate, AnyRun, RequiredSucceeded, HasRequired;
    TemplatesByRank(spec, status);
    RunsByRank(spec, status);
    RequiredImpliesHas(spec, status);
  }

  lemma {:induction false} RequiredImpliesHas(spec: Spec, status: Status)
    ensures RequiredSucceeded(spec, status) ==> HasRequired(spec)
  {
  }

  // An experiment that becomes successful has no failed or erroneous template and no failed, erroneous or
  // inconclusive analysis; one that becomes bad has one of these.
  lemma {:induction false} VerdictIsDeserved(spec: Spec, status: Status)
    requires status.phase == Analysis.Pending || status.phase == Analysis.Running
    ensures var phase := NextPhase(spec, status);
            phase.Bad() <==>
              || AnyTemplate(spec, status, Failed) || AnyTemplate(spec, status, Error)
              || AnyRun(spec, status, Analysis.Failed) || AnyRun(spec, status, Analysis.Error) || AnyRun(spec, status, Analysis.Inconclusive)
  {
    hide AnyTemplate, AnyRun, RequiredSucceeded, HasRequired, NextPhase;
    PhaseIsVerdict(spec, status);
  }

  /******* One name *******/

  predicate Distinct(spec: Spec) {
    && (forall j, k :: 0 <= j < k < |spec.templates| ==> spec.templates[j].name != spec.templates[k].name)
    && forall j, k :: 0 <= j < k < |spec.analyses| ==> spec.analyses[j].name != spec.analyses[k].name
  }

  lemma {:induction false} TemplateUpdated(spec: Spec, status: Status, env: Env, n: nat, k: nat)
    requires Distinct(spec) && k < |spec.templates| && n <= |spec.templates|
    ensures Get(TemplatesUpTo(spec, status, env, n), spec.templates[k].name) ==
            if k < n then Some(TemplateAfter(spec, status, spec.templates[k], env.templates(spec.templates[k].name), env.now))
            else Get(status.templates, spec.templates[k].name)
  {
    hide TemplateAfter, Get, Set;
    if n > 0 {
      TemplateUpdated(spec, status, env, n - 1, k);
      var t := spec.templates[n - 1];
      GetAfterSet(TemplatesUpTo(spec, status, env, n - 1), t.name, TemplateAfter(spec, status, t, env.templates(t.name), env.now), spec.templates[k].name);
    }
  }

  lemma {:induction false} RunUpdated(spec: Spec, status: Status, env: Env, n: nat, k: nat)
    requires Distinct(spec) && k < |spec.analyses| && n <= |spec.analyses|
    ensures Get(RunsUpTo(spec, status, env, n), spec.analyses[k].name) ==
            if k < n then Some(RunAfter(spec, status, spec.analyses[k].name, env.runs(spec.analyses[k].name)))
            else Get(status.runs, spec.analyses[k].name)
  {
    hide RunAfter, Get, Set;
    if n > 0 {
      RunUpdated(spec, status, env, n - 1, k);
      var name := spec.analyses[n - 1].name;
      GetAfterSet(RunsUpTo(spec, status, env, n - 1), name, RunAfter(spec, status, name, env.runs(name)), spec.analyses[k].name);
    }
  }

  /******* Completed phases *******/

  // Runs are created only once the experiment is available, and before that an analysis can only be in error.
  predicate RunsInOrder(spec: Spec, status: Status) {
    forall k :: 0 <= k < |spec.analyses| ==>
      var run := RunBefore(status, spec.analyses[k].name);
      && (status.availableAt.None? ==> run.analysisRun == "")
      && (run.analysisRun == "" ==> run.phase == Analysis.Unset || run.phase == Analysis.Error)
  }

  // Created runs have a name.
  predicate NamesRuns(spec: Spec, env: Env) {
    forall k :: 0 <= k < |spec.analyses| ==> env.runs(spec.analyses[k].name).created != Some("")
  }

  lemma {:induction false} ErrorTerminates(spec: Spec, status: Status, name: string)
    requires Get(status.runs, name).Some? && Get(status.runs, name).value.phase.Bad()
    ensures IsTerminating(spec, status)
  {
    GetIsListed(status.runs, name);
  }

  lemma {:induction false} GetIsListed<T>(items: seq<Named<T>>, name: string)
    requires Get(items, name).Some?
    ensures exists i :: 0 <= i < |items| && items[i].value == Get(items, name).value
  {
    if items[0].name == name {
      assert items[0].value == Get(items, name).value;
    } else {
      GetIsListed(items[1..], name);
      var i :| 0 <= i < |items[1..]| && items[1..][i].value == Get(items[1..], name).value;
      assert items[i + 1].value == Get(items, name).value;
    }
  }

  // An analysis that is completed keeps its phase, for whatever becomes of its run.
  lemma {:induction false} RunStaysCompleted(spec: Spec, status: Status, env: Env, k: nat)
    requires RunsInOrder(spec, status) && k < |spec.analyses|
    requires RunBefore(status, spec.analyses[k].name).phase.Completed()
    ensures RunAfter(spec, status, spec.analyses[k].name, env.runs(spec.analyses[k].name)).phase ==
            RunBefore(status, spec.analyses[k].name).phase
  {
    hide IsTerminating, Get;
    var name := spec.analyses[k].name;
    if RunBefore(status, name).analysisRun == "" {
      ErrorTerminates(spec, status, name);
    }
  }

  // A completed template wants no pods, so nothing is created for it that could fail.
  lemma {:induction false} TemplateStaysCompleted(spec: Spec, status: Status, template: Template, env: TemplateEnv,
                                                  now: int)
    requires TemplateBefore(status, template.name).code.Completed()
    ensures TemplateAfter(spec, status, template, env, now).code == TemplateBefore(status, template.name).code
  {
    hide IsTerminating, Get;
  }

  lemma {:induction false} RunsStayInOrder(spec: Spec, status: Status, env: Env)
    requires Distinct(spec) && RunsInOrder(spec, status) && NamesRuns(spec, env)
    ensures RunsInOrder(spec, Reconciled(spec, status, env))
  {
    hide IsTerminating, Get, WorstTemplate, NextPhase;
    forall k | 0 <= k < |spec.analyses|
      ensures RunBefore(Reconciled(spec, status, env), spec.analyses[k].name) ==
              RunAfter(spec, status, spec.analyses[k].name, env.runs(spec.analyses[k].name))
    {
      RunUpdated(spec, status, env, |spec.analyses|, k);
    }
  }

  /******* Runs *******/

  datatype Event = Reconcile(env: Env) | Terminate

  datatype State = State(spec: Spec, status: Status)

  function Next(s: State, e: Event): State {
    match e
    case Reconcile(env) => s.(status := Reconciled(s.spec, s.status, env))
    case Terminate => s.(spec := s.spec.(terminate := true))
  }

  predicate Initial(s: State) { s.status == Status(Analysis.Unset, None, [], []) && Distinct(s.spec) }

  ghost predicate IsTrace(trace: seq<State>, events: seq<Event>) {
    && |trace| == |events| + 1 && Initial(trace[0])
    && forall i :: 0 <= i < |events| ==>
         trace[i + 1] == Next(trace[i], events[i]) && (events[i].Reconcile? ==> NamesRuns(trace[i].spec, events[i].env))
  }

  lemma {:induction false} ReachableInOrder(trace: seq<State>, events: seq<Event>, i: nat)
    requires IsTrace(trace, events) && i < |trace|
    ensures Distinct(trace[i].spec) && RunsInOrder(trace[i].spec, trace[i].status)
    ensures trace[i].spec.templates == trace[0].spec.templates && trace[i].spec.analyses == trace[0].spec.analyses
  {
    hide Reconciled;
    if i > 0 {
      ReachableInOrder(trace, events, i - 1);
      if events[i - 1].Reconcile? {
        RunsStayInOrder(trace[i - 1].spec, trace[i - 1].status, events[i - 1].env);
      }
    }
  }

  // In every run a completed template, a completed analysis and a completed experiment keep their phase forever.
  lemma {:induction false} CompletedForever(trace: seq<State>, events: seq<Event>, i: nat, j: nat)
    requires IsTrace(trace, events) && i <= j < |trace|
    ensures trace[i].status.phase.Completed() ==> trace[j].status.phase == trace[i].status.phase
    ensures forall k :: 0 <= k < |trace[0].spec.templates| ==>
              var name := trace[0].spec.templates[k].name;
              TemplateBefore(trace[i].status, name).code.Completed() ==> TemplateBefore(trace[j].status, name).code == TemplateBefore(trace[i].status, name).code
    ensures forall k :: 0 <= k < |trace[0].spec.analyses| ==>
              var name := trace[0].spec.analyses[k].name;
              PhaseOf(trace[i].status, name).Completed() ==> PhaseOf(trace[j].status, name) == PhaseOf(trace[i].status, name)
    decreases j - i
  {
    hide Reconciled, TemplateBefore, PhaseOf, RunsInOrder;
    if i < j {
      CompletedForever(trace, events, i, j - 1);
      ReachableInOrder(trace, events, j - 1);
      if events[j - 1].Reconcile? {
        StepKeepsCompleted(trace[j - 1].spec, trace[j - 1].status, events[j - 1].env);
      }
    }
  }

  lemma {:induction false} StepKeepsCompleted(spec: Spec, status: Status, env: Env)
    requires Distinct(spec) && RunsInOrder(spec, status)
    ensures var status' := Reconciled(spec, status, env);
            && (status.phase.Completed() ==> status'.phase == status.phase)
            && (forall k :: 0 <= k < |spec.templates| && TemplateBefore(status, spec.templates[k].name).code.Completed() ==>
                  TemplateBefore(status', spec.templates[k].name).code == TemplateBefore(status, spec.templates[k].name).code)
            && forall k :: 0 <= k < |spec.analyses| && PhaseOf(status, spec.analyses[k].name).Completed() ==>
                 PhaseOf(status', spec.analyses[k].name) == PhaseOf(status, spec.analyses[k].name)
  {
    hide IsTerminating, Get, TemplateAfter, RunAfter, RunsInOrder, WorstTemplate, RunsPhase, Concluded;
    var status' := Reconciled(spec, status, env);
    forall k | 0 <= k < |spec.templates| && TemplateBefore(status, spec.templates[k].name).code.Completed()
      ensures TemplateBefore(status', spec.templates[k].name).code ==
              TemplateBefore(status, spec.templates[k].name).code
    {
      TemplateUpdated(spec, status, env, |spec.templates|, k);
      TemplateStaysCompleted(spec, status, spec.templates[k], env.templates(spec.templates[k].name), env.now);
    }
    forall k | 0 <= k < |spec.analyses| && PhaseOf(status, spec.analyses[k].name).Completed()
      ensures PhaseOf(status', spec.analyses[k].name) == PhaseOf(status, spec.analyses[k].name)
    {
      RunUpdated(spec, status, env, |spec.analyses|, k);
      RunStaysCompleted(spec, status, env, k);
    }
  }

  // An analysis gets a run exactly in a reconcile that finds the experiment available and not terminating, and no run
  // yet, when the run can be created.
  lemma {:induction false} RunIsCreatedExactlyWhen(trace: seq<State>, events: seq<Event>, i: nat, k: nat)
    requires IsTrace(trace, events) && i < |events| && k < |trace[i].spec.analyses|
    ensures var s, name := trace[i], trace[i].spec.analyses[k].name;
            RunBefore(trace[i + 1].status, name).analysisRun != RunBefore(s.status, name).analysisRun <==>
            && events[i].Reconcile? && RunBefore(s.status, name).analysisRun == ""
            && s.status.availableAt.Some? && !IsTerminating(s.spec, s.status) && events[i].env.runs(name).created.Some?
  {
    hide Get, IsTerminating, WorstTemplate, NextPhase, TemplatesUpTo, RunsInOrder;
    ReachableInOrder(trace, events, i);
    if events[i].Reconcile? {
      RunUpdated(trace[i].spec, trace[i].status, events[i].env, |trace[i].spec.analyses|, k);
    }
  }

  // So over a whole experiment an analysis has at most one run: once it has one, it keeps it.
  lemma {:induction false} RunIsNeverReplaced(trace: seq<State>, events: seq<Event>, i: nat, j: nat, k: nat)
    requires IsTrace(trace, events) && i <= j < |trace| && k < |trace[0].spec.analyses|
    requires RunBefore(trace[i].status, trace[0].spec.analyses[k].name).analysisRun != ""
    ensures RunBefore(trace[j].status, trace[0].spec.analyses[k].name).analysisRun ==
            RunBefore(trace[i].status, trace[0].spec.analyses[k].name).analysisRun
    decreases j - i
  {
    hide RunBefore, Reconciled, IsTerminating;
    if i < j {
      RunIsNeverReplaced(trace, events, i, j - 1, k);
      ReachableInOrder(trace, events, j - 1);
      RunIsCreatedExactlyWhen(trace, events, j - 1, k);
    }
  }

  // At the reconcile in which an experiment becomes successful, no template is failed or in error and no analysis is
  // failed, in error or inconclusive; and by CompletedForever none that is completed then becomes so later.
  lemma {:induction false} SuccessIsDeserved(spec: Spec, status: Status, env: Env)
    requires !status.phase.Completed() && Reconciled(spec, status, env).phase == Analysis.Successful
    ensures var status' := Reconciled(spec, status, env);
            && (forall k :: 0 <= k < |spec.templates| ==> var code := CodeOf(status', spec.templates[k].name); !code.Failed? && !code.Error?)
            && forall k :: 0 <= k < |spec.analyses| ==> !PhaseOf(status', spec.analyses[k].name).Bad()
  {
    hide Get, TemplatesUpTo, RunsUpTo, WorstTemplate, RunsPhase, Concluded;
    var updated := Updated(spec, status, env);
    var status' := Reconciled(spec, status, env);
    VerdictIsDeserved(spec, updated);
    forall k | 0 <= k < |spec.templates|
      ensures var code := CodeOf(status', spec.templates[k].name); !code.Failed? && !code.Error?
    {
      assert CodeOf(status', spec.templates[k].name) == CodeOf(updated, spec.templates[k].name);
    }
    forall k | 0 <= k < |spec.analyses| ensures !PhaseOf(status', spec.analyses[k].name).Bad() {
      assert PhaseOf(status', spec.analyses[k].name) == PhaseOf(updated, spec.analyses[k].name);
    }
  }

  /******* Why templates end *******/

  // A template fails only when it is stuck: nothing about its set has changed in this reconcile and its last change is
  // longer ago than the progress deadline.
  lemma {:induction false} FailsOnlyWhenStuck(spec: Spec, status: Status, template: Template, env: TemplateEnv,
                                              now: int)
    requires TemplateAfter(spec, status, template, env, now).code.Failed? && !TemplateBefore(status, template.name).code.Failed?
    requires spec.progressDeadlineSeconds.Some? ==> spec.progressDeadlineSeconds.value >= 0
    ensures var before, after := TemplateBefore(status, template.name), TemplateAfter(spec, status, template, env, now);
            && (before.replicas, before.ready, before.available) == (after.replicas, after.ready, after.available)
            && (env.existing.Some? ==> env.existing.value.spec == DesiredCount(spec, status, template))
            && after.lastTransition == before.lastTransition && before.lastTransition.Some?
            && now > before.lastTransition.value + (if spec.progressDeadlineSeconds.Some? then spec.progressDeadlineSeconds.value else 600)
  {
    hide IsTerminating, Get, DesiredCount;
  }

  /******* Why experiments succeed *******/

  predicate UniqueNames<T>(items: seq<Named<T>>) {
    forall i, j :: 0 <= i < j < |items| ==> items[i].name != items[j].name
  }

  predicate HasName<T>(items: seq<Named<T>>, name: string) { exists i :: 0 <= i < |items| && items[i].name == name }

  lemma {:induction false} NamesAfterSet<T>(items: seq<Named<T>>, name: string, value: T)
    ensures forall other :: HasName(Set(items, name, value), other) <==> HasName(items, other) || other == name
    ensures UniqueNames(items) ==> UniqueNames(Set(items, name, value))
  {
    if items == [] {
      assert Set(items, name, value)[0].name == name;
    } else {
      var rest := items[1..];
      assert items == [items[0]] + rest;
      forall other ensures HasName(items, other) <==> items[0].name == other || HasName(rest, other) { NamesOfCons(items[0], rest, other); }
      if items[0].name == name {
        forall other ensures HasName([Named(name, value)] + rest, other) <==> name == other || HasName(rest, other) {
          NamesOfCons(Named(name, value), rest, other);
        }
      } else {
        NamesAfterSet(rest, name, value);
        var rest' := Set(rest, name, value);
        forall other ensures HasName([items[0]] + rest', other) <==> items[0].name == other || HasName(rest', other) {
          NamesOfCons(items[0], rest', other);
        }
        if UniqueNames(items) {
          assert !HasName(rest, items[0].name);
          assert forall i :: 0 <= i < |rest'| ==> HasName(rest', rest'[i].name);
        }
      }
    }
  }

  lemma {:induction false} NamesOfCons<T>(e: Named<T>, rest: seq<Named<T>>, name: string)
    ensures HasName([e] + rest, name) <==> e.name == name || HasName(rest, name)
  {
    if e.name == name { assert ([e] + rest)[0].name == name; }
    if HasName(rest, name) {
      var i :| 0 <= i < |rest| && rest[i].name == name;
      assert ([e] + rest)[i + 1].name == name;
    }
  }

  lemma {:induction false} UniqueEntryIsFound<T>(items: seq<Named<T>>, i: nat)
    requires UniqueNames(items) && i < |items|
    ensures Get(items, items[i].name) == Some(items[i].value)
  {
    if i > 0 {
      UniqueEntryIsFound(items[1..], i - 1);
    }
  }

  // The status lists templates and analyses of the spec, each once.
  ghost predicate Listed(spec: Spec, status: Status) {
    && UniqueNames(status.templates) && UniqueNames(status.runs)
    && (forall name :: HasName(status.templates, name) ==> exists k :: 0 <= k < |spec.templates| && spec.templates[k].name == name)
    && (forall name :: HasName(status.runs, name) ==> exists k :: 0 <= k < |spec.analyses| && spec.analyses[k].name == name)
  }

  lemma {:induction false} TemplatesStayListed(spec: Spec, status: Status, env: Env, n: nat)
    requires Listed(spec, status) && n <= |spec.templates|
    ensures var items := TemplatesUpTo(spec, status, env, n);
            UniqueNames(items) && forall name :: HasName(items, name) ==> exists k :: 0 <= k < |spec.templates| && spec.templates[k].name == name
  {
    hide TemplateAfter, UniqueNames, HasName;
    if n > 0 {
      TemplatesStayListed(spec, status, env, n - 1);
      var t := spec.templates[n - 1];
      NamesAfterSet(TemplatesUpTo(spec, status, env, n - 1), t.name, TemplateAfter(spec, status, t, env.templates(t.name), env.now));
    }
  }

  lemma {:induction false} RunsStayListed(spec: Spec, status: Status, env: Env, n: nat)
    requires Listed(spec, status) && n <= |spec.analyses|
    ensures var items := RunsUpTo(spec, status, env, n);
            UniqueNames(items) && forall name :: HasName(items, name) ==> exists k :: 0 <= k < |spec.analyses| && spec.analyses[k].name == name
  {
    hide RunAfter, UniqueNames, HasName;
    if n > 0 {
      RunsStayListed(spec, status, env, n - 1);
      var name := spec.analyses[n - 1].name;
      NamesAfterSet(RunsUpTo(spec, status, env, n - 1), name, RunAfter(spec, status, name, env.runs(name)));
    }
  }

  predicate AnyBad(spec: Spec, status: Status) {
    || AnyTemplate(spec, status, Failed) || AnyTemplate(spec, status, Error)
    || AnyRun(spec, status, Analysis.Failed) || AnyRun(spec, status, Analysis.Error) || AnyRun(spec, status, Analysis.Inconclusive)
  }

  // Nobody has asked for the end, by a request or by required analyses.
  predicate Unprompted(spec: Spec) { !spec.terminate && !HasRequired(spec) && spec.templates != [] }

  lemma {:induction false} NotTerminating(spec: Spec, status: Status)
    requires Listed(spec, status) && Unprompted(spec) && !status.phase.Completed() && !AnyBad(spec, status)
    ensures !IsTerminating(spec, status)
  {
    hide Get, UniqueNames;
    forall i | 0 <= i < |status.templates| ensures !status.templates[i].value.code.Failed? && !status.templates[i].value.code.Error? {
      UniqueEntryIsFound(status.templates, i);
      assert HasName(status.templates, status.templates[i].name);
      var k :| 0 <= k < |spec.templates| && spec.templates[k].name == status.templates[i].name;
      assert CodeOf(status, spec.templates[k].name) == status.templates[i].value.code;
    }
    forall i | 0 <= i < |status.runs| ensures !status.runs[i].value.phase.Bad() {
      UniqueEntryIsFound(status.runs, i);
      assert HasName(status.runs, status.runs[i].name);
      var k :| 0 <= k < |spec.analyses| && spec.analyses[k].name == status.runs[i].name;
      assert PhaseOf(status, spec.analyses[k].name) == status.runs[i].value.phase;
    }
  }

  // Nothing has gone wrong and no template is through.
  predicate Underway(spec: Spec, status: Status) {
    !status.phase.Completed() && !AnyBad(spec, status)
    && forall k :: 0 <= k < |spec.templates| ==> !TemplateBefore(status, spec.templates[k].name).code.Successful?
  }

  // An experiment that is not succeeding: bad, about to be, or still underway.
  predicate NotSucceeding(spec: Spec, status: Status) {
    status.phase.Bad() || (!status.phase.Completed() && AnyBad(spec, status)) || Underway(spec, status)
  }

  lemma {:induction false} BadStays(spec: Spec, status: Status, env: Env)
    requires Distinct(spec) && RunsInOrder(spec, status) && AnyBad(spec, status)
    ensures AnyBad(spec, Updated(spec, status, env))
  {
    hide IsTerminating, Get, TemplateAfter, RunAfter, RunsInOrder;
    var updated := Updated(spec, status, env);
    forall k | 0 <= k < |spec.templates| && (CodeOf(status, spec.templates[k].name).Failed? || CodeOf(status, spec.templates[k].name).Error?)
      ensures CodeOf(updated, spec.templates[k].name) == CodeOf(status, spec.templates[k].name)
    {
      TemplateUpdated(spec, status, env, |spec.templates|, k);
      TemplateStaysCompleted(spec, status, spec.templates[k], env.templates(spec.templates[k].name), env.now);
    }
    forall k | 0 <= k < |spec.analyses| && PhaseOf(status, spec.analyses[k].name).Bad()
      ensures PhaseOf(updated, spec.analyses[k].name) == PhaseOf(status, spec.analyses[k].name)
    {
      RunUpdated(spec, status, env, |spec.analyses|, k);
      RunStaysCompleted(spec, status, env, k);
    }
  }

  // A template is through only when the duration has passed or the experiment is terminating.
  lemma {:induction false} TemplatesStayUnderway(spec: Spec, status: Status, env: Env, k: nat)
    requires Distinct(spec) && k < |spec.templates| && !IsTerminating(spec, status) && !PassedDuration(spec, status, env.now)
    requires !TemplateBefore(status, spec.templates[k].name).code.Successful?
    ensures var code := CodeOf(Updated(spec, status, env), spec.templates[k].name); !code.Successful? && !code.NoStatus?
    ensures TemplateBefore(Updated(spec, status, env), spec.templates[k].name).code ==
            CodeOf(Updated(spec, status, env), spec.templates[k].name)
  {
    hide IsTerminating, Get, PassedDuration;
    TemplateUpdated(spec, status, env, |spec.templates|, k);
  }

  lemma {:induction false} StaysNotSucceeding(spec: Spec, status: Status, env: Env)
    requires Distinct(spec) && RunsInOrder(spec, status) && Listed(spec, status) && Unprompted(spec)
    requires NotSucceeding(spec, status) && !PassedDuration(spec, status, env.now)
    ensures NotSucceeding(spec, Reconciled(spec, status, env))
  {
    hide IsTerminating, Get, RunsInOrder, Listed, PassedDuration, TemplatesUpTo, RunsUpTo, WorstTemplate, RunsPhase,
         Concluded, AnyTemplate, AnyRun;
    var updated, status' := Updated(spec, status, env), Reconciled(spec, status, env);
    assert SameItems(updated, status');
    SameVerdicts(spec, updated, status');
    if !status.phase.Completed() {
      if AnyBad(spec, status) {
        BadStays(spec, status, env);
      } else {
        NotTerminating(spec, status);
        forall k | 0 <= k < |spec.templates|
          ensures var code := CodeOf(updated, spec.templates[k].name); !code.Successful? && !code.NoStatus?
          ensures TemplateBefore(status', spec.templates[k].name).code == CodeOf(updated, spec.templates[k].name)
        {
          TemplatesStayUnderway(spec, status, env, k);
        }
        SomethingIsRunning(spec, updated);
      }
      if status.phase == Analysis.Pending || status.phase == Analysis.Running {
        VerdictIsDeserved(spec, updated);
        PhaseIsVerdict(spec, updated);
      }
    }
  }

  predicate SameItems(a: Status, b: Status) { a.templates == b.templates && a.runs == b.runs }

  lemma {:induction false} SameVerdicts(spec: Spec, a: Status, b: Status)
    requires SameItems(a, b)
    ensures AnyBad(spec, a) == AnyBad(spec, b)
    ensures forall k :: 0 <= k < |spec.templates| ==> TemplateBefore(a, spec.templates[k].name) == TemplateBefore(b, spec.templates[k].name)
  {
    assert forall name :: CodeOf(a, name) == CodeOf(b, name) && PhaseOf(a, name) == PhaseOf(b, name);
  }

  // With a template that is neither through nor bad, the verdict is not success.
  lemma {:induction false} SomethingIsRunning(spec: Spec, status: Status)
    requires Unprompted(spec)
    requires forall k :: 0 <= k < |spec.templates| ==> var code := CodeOf(status, spec.templates[k].name); !code.Successful? && !code.NoStatus?
    ensures !AnyBad(spec, status) ==> Verdict(spec, status) == Analysis.Pending || Verdict(spec, status) == Analysis.Running
  {
    hide AnyRun, CodeOf;
    var code := CodeOf(status, spec.templates[0].name);
    assert AnyTemplate(spec, status, code);
  }

  predicate PassedAt(trace: seq<State>, events: seq<Event>, k: nat)
    requires k < |events| && |trace| == |events| + 1
  {
    events[k].Reconcile? && PassedDuration(trace[k].spec, trace[k].status, events[k].env.now)
  }

  lemma {:induction false} ReachableListed(trace: seq<State>, events: seq<Event>, i: nat)
    requires IsTrace(trace, events) && i < |trace|
    ensures Listed(trace[i].spec, trace[i].status)
  {
    hide TemplatesUpTo, RunsUpTo, NextPhase;
    if i > 0 {
      ReachableListed(trace, events, i - 1);
      var s := trace[i - 1];
      if events[i - 1].Reconcile? {
        TemplatesStayListed(s.spec, s.status, events[i - 1].env, |s.spec.templates|);
        RunsStayListed(s.spec, s.status, events[i - 1].env, |s.spec.analyses|);
      }
    }
  }

  lemma {:induction false} NotSucceedingUntilPassed(trace: seq<State>, events: seq<Event>, i: nat)
    requires IsTrace(trace, events) && i < |trace|
    requires forall j :: 0 <= j < |trace| ==> Unprompted(trace[j].spec)
    requires forall k :: 0 <= k < i ==> !PassedAt(trace, events, k)
    ensures NotSucceeding(trace[i].spec, trace[i].status)
  {
    hide Reconciled, NotSucceeding, Unprompted, Listed;
    if i == 0 {
      InitialIsUnderway(trace[0]);
    } else {
      NotSucceedingUntilPassed(trace, events, i - 1);
      ReachableInOrder(trace, events, i - 1);
      ReachableListed(trace, events, i - 1);
      var s := trace[i - 1];
      if events[i - 1].Reconcile? {
        assert !PassedAt(trace, events, i - 1);
        StaysNotSucceeding(s.spec, s.status, events[i - 1].env);
      } else {
        TerminatingIsPrompted(trace[i]);
      }
    }
  }

  lemma {:induction false} InitialIsUnderway(s: State)
    requires Initial(s)
    ensures NotSucceeding(s.spec, s.status)
  {
  }

  lemma {:induction false} TerminatingIsPrompted(s: State)
    requires s.spec.terminate
    ensures !Unprompted(s.spec)
  {
  }

  // An experiment that nobody terminates and that has no required analyses succeeds only once its duration has passed.
  lemma {:induction false} SuccessNeedsDuration(trace: seq<State>, events: seq<Event>, i: nat)
    requires IsTrace(trace, events) && i < |trace| && trace[i].status.phase == Analysis.Successful
    requires forall j :: 0 <= j < |trace| ==> Unprompted(trace[j].spec)
    ensures exists k :: 0 <= k < i && PassedAt(trace, events, k)
  {
    if forall k :: 0 <= k < i ==> !PassedAt(trace, events, k) {
      NotSucceedingUntilPassed(trace, events, i);
    }
  }
}
