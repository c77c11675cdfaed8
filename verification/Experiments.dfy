// One reconcile of an Experiment (experiments/experiment.go, utils/experiment/experiment.go).
module Experiments {
  import opened Wrappers
  import Analysis

  type Phase = Analysis.Phase

  datatype TemplateCode = NoStatus | Progressing | Running | Successful | Failed | Error
  {
    predicate Completed() { Successful? || Failed? || Error? }
  }

  datatype Template = Template(name: string, replicas: Option<int>)

  datatype AnalysisRef = AnalysisRef(name: string, required: bool)

  datatype Spec = Spec(templates: seq<Template>, analyses: seq<AnalysisRef>, terminate: bool,
                       duration: Analysis.Duration, progressDeadlineSeconds: Option<int>)

  datatype TemplateStatus = TemplateStatus(code: TemplateCode, replicas: int, ready: int, available: int,
                                           lastTransition: Option<int>)

  // `analysisRun` is the name of the run, empty before it is created.
  datatype RunStatus = RunStatus(analysisRun: string, phase: Phase)

  // The lists of the status are searched by name.
  datatype Named<T> = Named(name: string, value: T)

  datatype Status = Status(phase: Phase, availableAt: Option<int>, templates: seq<Named<TemplateStatus>>,
                           runs: seq<Named<RunStatus>>)

  function Get<T>(items: seq<Named<T>>, name: string): Option<T> {
    if items == [] then None else if items[0].name == name then Some(items[0].value) else Get(items[1..], name)
  }

  function Set<T>(items: seq<Named<T>>, name: string, value: T): seq<Named<T>> {
    if items == [] then [Named(name, value)]
    else if items[0].name == name then [Named(name, value)] + items[1..]
    else [items[0]] + Set(items[1..], name, value)
  }

  lemma {:induction false} GetAfterSet<T>(items: seq<Named<T>>, name: string, value: T, other: string)
    ensures Get(Set(items, name, value), other) == if other == name then Some(value) else Get(items, other)
  {
    if items != [] && items[0].name != name {
      GetAfterSet(items[1..], name, value, other);
    }
  }

  /******* utils/experiment *******/

  predicate HasRequired(spec: Spec) { exists k :: 0 <= k < |spec.analyses| && spec.analyses[k].required }

  predicate RunSucceeded(status: Status, name: string) {
    Get(status.runs, name).Some? && Get(status.runs, name).value.phase == Analysis.Successful
  }

  // RequiredAnalysisRunsSuccessful
  predicate RequiredSucceeded(spec: Spec, status: Status) {
    HasRequired(spec) && forall k :: 0 <= k < |spec.analyses| && spec.analyses[k].required ==> RunSucceeded(status, spec.analyses[k].name)
  }

  predicate IsTerminating(spec: Spec, status: Status) {
    || spec.terminate
    || status.phase.Completed()
    || (exists i :: 0 <= i < |status.templates| && (status.templates[i].value.code.Failed? || status.templates[i].value.code.Error?))
    || (exists i :: 0 <= i < |status.runs| && status.runs[i].value.phase.Bad())
    || RequiredSucceeded(spec, status)
  }

  predicate PassedDuration(spec: Spec, status: Status, now: int) {
    spec.duration.Seconds? && status.availableAt.Some? && now > status.availableAt.value + spec.duration.s
  }

  // CalculateTemplateReplicasCount
  function DesiredCount(spec: Spec, status: Status, template: Template): int {
    var ts := Get(status.templates, template.name);
    if IsTerminating(spec, status) || (ts.Some? && ts.value.code.Completed()) then 0
    else if template.replicas.Some? then template.replicas.value else 1
  }

  /******* reconcileTemplate *******/

  datatype TemplateRS = TemplateRS(spec: int, replicas: int, ready: int, available: int)

  datatype Creation = CreatedRS(rs: TemplateRS) | AlreadyExists | CreateFails

  datatype TemplateEnv = TemplateEnv(existing: Option<TemplateRS>, creation: Creation)

  // The code after a reconcile, given what it was and what has been observed.
  function NextCode(spec: Spec, status: Status, desired: int, ts: TemplateStatus, now: int): TemplateCode {
    if ts.code.Completed() then ts.code
    else if desired == ts.available then
      if PassedDuration(spec, status, now) || IsTerminating(spec, status) then Successful else Running
    else
      var from := if ts.lastTransition.Some? then ts.lastTransition.value else now;
      var deadline := if spec.progressDeadlineSeconds.Some? then spec.progressDeadlineSeconds.value else 600;
      if now > from + deadline then Failed else if IsTerminating(spec, status) then Successful else Progressing
  }

  function TemplateBefore(status: Status, name: string): TemplateStatus {
    var ts := Get(status.templates, name);
    if ts.Some? then ts.value else TemplateStatus(NoStatus, 0, 0, 0, None)
  }

  // The status after the set has been created or scaled, before the code is assessed.
  function Observed(prev: TemplateStatus, desired: int, env: TemplateEnv, now: int): TemplateStatus {
    var creates := env.existing.None? && desired > 0;
    var touched :=
      if creates && env.creation.CreateFails? then prev.(code := Error)
      else if (creates && env.creation.CreatedRS?) || (env.existing.Some? && env.existing.value.spec != desired)
      then prev.(lastTransition := Some(now))
      else prev;
    var rs := if env.existing.Some? then env.existing.value
              else if creates && env.creation.CreatedRS? then env.creation.rs
              else TemplateRS(0, 0, 0, 0);
    var counted := touched.(replicas := rs.replicas, ready := rs.ready, available := rs.available);
    if prev.replicas != rs.replicas || prev.ready != rs.ready || prev.available != rs.available
    then counted.(lastTransition := Some(now)) else counted
  }

  function TemplateAfter(spec: Spec, status: Status, template: Template, env: TemplateEnv, now: int): TemplateStatus {
    var desired := DesiredCount(spec, status, template);
    var ts := Observed(TemplateBefore(status, template.name), desired, env, now);
    ts.(code := NextCode(spec, status, desired, ts, now))
  }

  /******* reconcileAnalysisRun *******/

  // Whether the analysis template exists, the name a created run gets (None when creation fails), the run's phase
  // and terminate flag when it is found, and whether terminating it succeeds.
  datatype RunEnv = RunEnv(templateFound: bool, created: Option<string>, found: Option<(Phase, bool)>, terminates: bool)

  function RunBefore(status: Status, name: string): RunStatus {
    var rs := Get(status.runs, name);
    if rs.Some? then rs.value else RunStatus("", Analysis.Unset)
  }

  function RunAfter(spec: Spec, status: Status, name: string, env: RunEnv): RunStatus {
    var prev := RunBefore(status, name);
    var failed := prev.(phase := Analysis.Error);
    if status.availableAt.None? then if env.templateFound then prev else failed
    else if prev.analysisRun == "" then
      if IsTerminating(spec, status) then prev
      else if env.created.None? then failed
      else RunStatus(env.created.value, Analysis.Pending)
    else if prev.phase.Completed() then prev
    else if env.found.None? then failed
    else if IsTerminating(spec, status) then
      if !env.found.value.0.Completed() && !env.found.value.1 && !env.terminates then failed else prev
    else prev.(phase := env.found.value.0)
  }

  /******* calculateStatus *******/

  function TemplateRank(c: TemplateCode): nat {
    match c
    case NoStatus => 0
    case Successful => 0
    case Running => 1
    case Progressing => 2
    case Error => 3
    case Failed => 4
  }

  // The code that assessTemplates sees; a template without a status counts as progressing.
  function CodeOf(status: Status, name: string): TemplateCode {
    var ts := Get(status.templates, name);
    if ts.None? then Progressing else ts.value.code
  }

  function PhaseOf(status: Status, name: string): Phase { RunBefore(status, name).phase }

  function WorstTemplate(spec: Spec, status: Status, n: nat): TemplateCode
    requires n <= |spec.templates|
  {
    if n == 0 then Successful
    else
      var worst, code := WorstTemplate(spec, status, n - 1), CodeOf(status, spec.templates[n - 1].name);
      if TemplateRank(code) > TemplateRank(worst) then code else worst
  }

  function TemplatesPhase(worst: TemplateCode): Phase {
    match worst
    case Progressing => Analysis.Pending
    case Failed => Analysis.Failed
    case Error => Analysis.Error
    case Successful => Analysis.Successful
    case _ => Analysis.Running
  }

  function WorstRun(spec: Spec, status: Status, n: nat): Phase
    requires n <= |spec.analyses|
  {
    if n == 0 then Analysis.Successful
    else
      var worst, phase := WorstRun(spec, status, n - 1), PhaseOf(status, spec.analyses[n - 1].name);
      if Analysis.Rank(phase) > Analysis.Rank(worst) then phase else worst
  }

  // assessAnalysisRuns
  function RunsPhase(spec: Spec, status: Status): Phase {
    var worst := WorstRun(spec, status, |spec.analyses|);
    if RequiredSucceeded(spec, status) && Analysis.Rank(Analysis.Running) > Analysis.Rank(worst) then Analysis.Successful
    else if worst == Analysis.Pending then Analysis.Running
    else worst
  }

  function NextPhase(spec: Spec, status: Status): Phase {
    var templates, runs := TemplatesPhase(WorstTemplate(spec, status, |spec.templates|)), RunsPhase(spec, status);
    match status.phase
    case Unset => Analysis.Pending
    case Pending => Concluded(spec, status, templates, runs)
    case Running => Concluded(spec, status, templates, runs)
    case _ => status.phase
  }

  function Concluded(spec: Spec, status: Status, templates: Phase, runs: Phase): Phase {
    if templates.Completed() then
      if templates == Analysis.Successful && (runs.Completed() || HasRequired(spec)) then runs else templates
    else if runs.Completed() && runs != Analysis.Successful then runs
    else if RequiredSucceeded(spec, status) then runs
    else templates
  }

  function Calculated(spec: Spec, status: Status, now: int): Status {
    var marks := (status.phase == Analysis.Pending || status.phase == Analysis.Running) && status.availableAt.None?
                 && TemplatesPhase(WorstTemplate(spec, status, |spec.templates|)) == Analysis.Running;
    status.(phase := NextPhase(spec, status), availableAt := if marks then Some(now) else status.availableAt)
  }

  /******* The reconcile *******/

  datatype Env = Env(templates: string -> TemplateEnv, runs: string -> RunEnv, now: int)

  function TemplatesUpTo(spec: Spec, status: Status, env: Env, n: nat): seq<Named<TemplateStatus>>
    requires n <= |spec.templates|
  {
    if n == 0 then status.templates
    else
      var template := spec.templates[n - 1];
      Set(TemplatesUpTo(spec, status, env, n - 1), template.name, TemplateAfter(spec, status, template, env.templates(template.name), env.now))
  }

  function RunsUpTo(spec: Spec, status: Status, env: Env, n: nat): seq<Named<RunStatus>>
    requires n <= |spec.analyses|
  {
    if n == 0 then status.runs
    else
      var name := spec.analyses[n - 1].name;
      Set(RunsUpTo(spec, status, env, n - 1), name, RunAfter(spec, status, name, env.runs(name)))
  }

  // The statuses of all templates and analyses are updated from the old status, then the phase is calculated.
  function Updated(spec: Spec, status: Status, env: Env): Status {
    status.(templates := TemplatesUpTo(spec, status, env, |spec.templates|), runs := RunsUpTo(spec, status, env, |spec.analyses|))
  }

  function Reconciled(spec: Spec, status: Status,
                      env: Env): Status { Calculated(spec, Updated(spec, status, env), env.now) }

  class ExperimentContext {
    const spec: Spec
    const status: Status
    const env: Env
    const isTerminating: bool
    var newStatus: Status

    constructor (spec: Spec, status: Status, env: Env)
      ensures this.spec == spec && this.status == status && this.env == env && newStatus == status
      ensures isTerminating == IsTerminating(spec, status)
    {
      this.spec, this.status, this.env, newStatus := spec, status, env, status;
      isTerminating := IsTerminating(spec, status);
    }

    method ReconcileTemplate(template: Template)
      requires isTerminating == IsTerminating(spec, status)
      modifies this`newStatus
      ensures newStatus == old(newStatus).(templates :=
        Set(old(newStatus.templates), template.name, TemplateAfter(spec, status, template, env.templates(template.name), env.now)))
    {
      hide IsTerminating, DesiredCount, Get;
      var prevStatus, e, now := TemplateBefore(status, template.name), env.templates(template.name), env.now;
      var templateStatus := prevStatus;
      var desired := DesiredCount(spec, status, template);
      var rs := e.existing;
      if rs.None? {
        if desired > 0 {
          match e.creation {
            case CreateFails => templateStatus := templateStatus.(code := Error);
            case AlreadyExists =>
            case CreatedRS(created) =>
              templateStatus := templateStatus.(lastTransition := Some(now));
              rs := Some(created);
          }
        }
      } else if rs.value.spec != desired {
        templateStatus := templateStatus.(lastTransition := Some(now));
      }
      if rs.None? {
        templateStatus := templateStatus.(replicas := 0, ready := 0, available := 0);
      } else {
        templateStatus := templateStatus.(replicas := rs.value.replicas, ready := rs.value.ready, available := rs.value.available);
      }
      if prevStatus.replicas != templateStatus.replicas || prevStatus.ready != templateStatus.ready || prevStatus.available != templateStatus.available {
        templateStatus := templateStatus.(lastTransition := Some(now));
      }
      assert templateStatus == Observed(prevStatus, desired, e, now);
      if !templateStatus.code.Completed() {
        if desired == templateStatus.available {
          if PassedDuration(spec, status, now) || isTerminating {
            templateStatus := templateStatus.(code := Successful);
          } else {
            templateStatus := templateStatus.(code := Running);
          }
        } else {
          var from := if templateStatus.lastTransition.Some? then templateStatus.lastTransition.value else now;
          var deadline := if spec.progressDeadlineSeconds.Some? then spec.progressDeadlineSeconds.value else 600;
          if now > from + deadline {
            templateStatus := templateStatus.(code := Failed);
          } else if isTerminating {
            templateStatus := templateStatus.(code := Successful);
          } else {
            templateStatus := templateStatus.(code := Progressing);
          }
        }
      }
      newStatus := newStatus.(templates := Set(newStatus.templates, template.name, templateStatus));
    }

    method ReconcileAnalysisRun(name: string)
      requires isTerminating == IsTerminating(spec, status)
      modifies this`newStatus
      ensures newStatus ==
              old(newStatus).(runs := Set(old(newStatus.runs), name, RunAfter(spec, status, name, env.runs(name))))
    {
      var run := AssessAnalysisRun(name);
      newStatus := newStatus.(runs := Set(newStatus.runs, name, run));
    }

    method AssessAnalysisRun(name: string) returns (run: RunStatus)
      requires isTerminating == IsTerminating(spec, status)
      ensures run == RunAfter(spec, status, name, env.runs(name))
    {
      var prevStatus, e := RunBefore(status, name), env.runs(name);
      run := prevStatus;
      if status.availableAt.None? {
        if !e.templateFound { run := run.(phase := Analysis.Error); }
        return;
      }
      if prevStatus.analysisRun == "" {
        if isTerminating { return; }
        if e.created.None? {
          run := run.(phase := Analysis.Error);
        } else {
          run := RunStatus(e.created.value, Analysis.Pending);
        }
        return;
      }
      if prevStatus.phase.Completed() { return; }
      if e.found.None? {
        run := run.(phase := Analysis.Error);
        return;
      }
      if isTerminating {
        if !e.found.value.0.Completed() && !e.found.value.1 {
          if !e.terminates { run := run.(phase := Analysis.Error); }
        }
        return;
      }
      run := run.(phase := e.found.value.0);
    }

    method AssessTemplates() returns (phase: Phase)
      ensures phase == TemplatesPhase(WorstTemplate(spec, newStatus, |spec.templates|))
    {
      var worst := Successful;
      for n := 0 to |spec.templates|
        invariant worst == WorstTemplate(spec, newStatus, n)
      {
        var ts := Get(newStatus.templates, spec.templates[n].name);
        var code := if ts.None? then Progressing else ts.value.code;
        if TemplateRank(code) > TemplateRank(worst) { worst := code; }
      }
      phase := TemplatesPhase(worst);
    }

    method RequiredAnalysisRunsSuccessful() returns (ok: bool)
      ensures ok == RequiredSucceeded(spec, newStatus)
    {
      var hasRequired, all := false, true;
      for n := 0 to |spec.analyses|
        invariant hasRequired <==> exists k :: 0 <= k < n && spec.analyses[k].required
        invariant all <==> forall k :: 0 <= k < n && spec.analyses[k].required ==> RunSucceeded(newStatus, spec.analyses[k].name)
      {
        if spec.analyses[n].required {
          hasRequired := true;
          var run := Get(newStatus.runs, spec.analyses[n].name);
          if run.None? || run.value.phase != Analysis.Successful { all := false; }
        }
      }
      return hasRequired && all;
    }

    method AssessAnalysisRuns() returns (phase: Phase)
      ensures phase == RunsPhase(spec, newStatus)
    {
      phase := Analysis.Successful;
      for n := 0 to |spec.analyses|
        invariant phase == WorstRun(spec, newStatus, n)
      {
        var next := RunBefore(newStatus, spec.analyses[n].name).phase;
        var worse := Analysis.IsWorse(phase, next);
        if worse { phase := next; }
      }
      var required := RequiredAnalysisRunsSuccessful();
      var running := Analysis.IsWorse(phase, Analysis.Running);
      if required && running { return Analysis.Successful; }
      if phase == Analysis.Pending { phase := Analysis.Running; }
    }

    method CalculateStatus()
      modifies this`newStatus
      ensures newStatus == Calculated(spec, old(newStatus), env.now)
    {
      hide WorstTemplate, RunsPhase, RequiredSucceeded;
      if newStatus.phase == Analysis.Unset {
        newStatus := newStatus.(phase := Analysis.Pending);
        return;
      }
      if newStatus.phase != Analysis.Pending && newStatus.phase != Analysis.Running { return; }
      ghost var before := newStatus;
      var templates := AssessTemplates();
      var runs := AssessAnalysisRuns();
      var required := RequiredAnalysisRunsSuccessful();
      var phase := templates;
      if templates.Completed() {
        if templates == Analysis.Successful && (runs.Completed() || HasRequired(spec)) { phase := runs; }
      } else if runs.Completed() && runs != Analysis.Successful {
        phase := runs;
      } else if required {
        phase := runs;
      }
      var availableAt := newStatus.availableAt;
      if templates == Analysis.Running && availableAt.None? { availableAt := Some(env.now); }
      newStatus := newStatus.(phase := phase, availableAt := availableAt);
    }

    method Reconcile()
      requires isTerminating == IsTerminating(spec, status) && newStatus == status
      modifies this`newStatus
      ensures newStatus == Reconciled(spec, status, env)
    {
      hide TemplateAfter, RunAfter, IsTerminating, Calculated;
      for n := 0 to |spec.templates|
        invariant newStatus == status.(templates := TemplatesUpTo(spec, status, env, n))
      {
        ReconcileTemplate(spec.templates[n]);
      }
      for n := 0 to |spec.analyses|
        invariant newStatus ==
                  status.(templates := TemplatesUpTo(spec, status, env, |spec.templates|), runs := RunsUpTo(spec, status, env, n))
      {
        ReconcileAnalysisRun(spec.analyses[n].name);
      }
      CalculateStatus();
    }
  }
}
