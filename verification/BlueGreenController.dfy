// The blue-green reconcile in the controller's form: a context whose methods scale sets, switch the service and
// write the new status, each proved against the functions of BlueGreen.
module BlueGreenController {
  import opened Wrappers
  import opened ReplicaSets
  import opened ScaleDownDelay
  import opened Pause
  import opened BlueGreen
  import BlueGreenCapacity

  class RolloutContext {
    const c: Context
    const pauseContext: PauseContext
    var sets: seq<ReplicaSet>
    var active: Option<string>
    var newStatus: Status

    constructor (c: Context, sets: seq<ReplicaSet>)
      ensures this.c == c && this.sets == sets && active == c.active && newStatus == c.status
      ensures fresh(pauseContext) && pauseContext.Value() == NO_REQUESTS && pauseContext.status == c.status.pause
    {
      this.c, this.sets, active, newStatus := c, sets, c.active, c.status;
      pauseContext := new PauseContext(c.status.pause);
    }

    method ScaleReplicaSetAndRecordEvent(hash: string, n: int)
      modifies this`sets
      ensures sets == ScaledTo(old(sets), hash, n, c.spec.Replicas())
    {
      ghost var before := sets;
      for i := 0 to |sets|
        invariant |sets| == |before|
        invariant forall j :: 0 <= j < i ==> sets[j] == ScaledTo(before, hash, n, c.spec.Replicas())[j]
        invariant forall j :: i <= j < |sets| ==> sets[j] == before[j]
      {
        var rs := sets[i];
        if rs.hash == hash && (rs.spec != n || AnnotationsNeedUpdate(rs, c.spec.Replicas())) {
          sets := sets[i := ScaleTo(rs, n, c.spec.Replicas())];
        }
      }
    }

    method RemoveScaleDownDeadlines()
      modifies this`sets
      ensures sets == WithoutDeadlines(old(sets), c.newRS, c.stableRS)
    {
      ghost var before := sets;
      for i := 0 to |sets|
        invariant |sets| == |before|
        invariant forall j :: 0 <= j < i ==> sets[j] == WithoutDeadlines(before, c.newRS, c.stableRS)[j]
        invariant forall j :: i <= j < |sets| ==> sets[j] == before[j]
      {
        if (c.newRS.Some? && c.newRS.value.hash == sets[i].hash) || (c.stableRS.Some? && c.stableRS.value.hash == sets[i].hash) {
          sets := sets[i := sets[i].(deadline := NoDeadline)];
        }
      }
    }

    method ScaleDownOldReplicaSetsForBlueGreen()
      modifies this`sets
      ensures sets == OldScaledDown(c, old(sets))
    {
      if GetPauseCondition(c.status.pause.conditions, InconclusiveAnalysis).Some? { return; }
      if c.spec.postPromotionAnalysis && c.spec.scaleDownDelaySeconds.None? && !SkipPostPromotion(c) {
        if !c.env.postBefore { return; }
      }
      var oldRSs := Others(c, c.allRSs);
      var result, hasScaled := ScaleDownLoop(oldRSs, ReferencesOf(c.status), c.spec.scaleDownDelayRevisionLimit, c.env.now, c.spec.Replicas());
      sets := Merged(sets, NewestFirst(oldRSs), result);
    }

    method ReconcileBlueGreenReplicaSets() returns (ok: bool)
      modifies this`sets
      ensures sets == ReplicaSetsAfter(c, old(sets))
      ensures ok == !(c.env.failure.AtStart? || c.env.failure.AfterCreate? || c.env.failure.AfterStable? || c.env.failure.AfterNew?)
    {
      hide WithoutDeadlines, ScaledTo, OldScaledDown;
      if c.env.failure.AtStart? || c.env.failure.AfterCreate? { return false; }
      RemoveScaleDownDeadlines();
      if c.active.Some? {
        var activeRS := Find(c.allRSs, c.active.value);
        if activeRS.Some? { ScaleReplicaSetAndRecordEvent(activeRS.value.hash, c.spec.Replicas()); }
      }
      if c.env.failure.AfterStable? { return false; }
      if c.newRS.Some? {
        var newReplicasCount := NewCount(c.spec, c.status, c.allRSs, c.newRS.value.hash);
        ScaleReplicaSetAndRecordEvent(c.newRS.value.hash, newReplicasCount);
      }
      if c.env.failure.AfterNew? { return false; }
      ScaleDownOldReplicaSetsForBlueGreen();
      return true;
    }

    method ReconcileBlueGreenPause()
      requires c.newRS.Some? && pauseContext.Value() == NO_REQUESTS
      modifies pauseContext
      ensures pauseContext.Value() == PauseRequests(c)
    {
      if c.status.pause.abort { return; }
      if !ReadyForPause(c) { return; }
      if c.spec.paused { return; }
      if FastTracked(c) {
        pauseContext.RemovePauseCondition(BlueGreenPause);
        return;
      }
      // That the active service does not select the new set yet is settled by now.
      if c.status.checkpoint {
        pauseContext.RemovePauseCondition(BlueGreenPause);
        return;
      }
      if !c.spec.NeedsPause() {
        pauseContext.RemovePauseCondition(BlueGreenPause);
        return;
      }
      if !PrePromotionDone(c.spec, c.env.preBefore) { return; }
      var pauseCond := GetPauseCondition(c.status.pause.conditions, BlueGreenPause);
      if pauseCond.None? && !c.status.pause.controllerPause {
        pauseContext.AddPauseCondition(BlueGreenPause);
        return;
      }
      if PauseCompleted(c.spec, c.status, pauseContext.Value(), c.env.now) {
        pauseContext.RemovePauseCondition(BlueGreenPause);
      }
    }

    method SwitchServiceSelector(hash: string)
      modifies this`active
      ensures active == Some(hash)
    {
      if active.Some? && active.value == hash { return; }
      active := Some(hash);
    }

    method ReconcileActiveService()
      requires c.newRS.Some? && active == c.active && pauseContext.Value() == PauseRequests(c)
      modifies this`active
      ensures active == ActiveAfter(c)
    {
      if !ReadyForPause(c) || !IsSaturated(c.spec, c.newRS.value) { return; }
      var newPodHash := c.active;
      if FastTracked(c) {
        newPodHash := Some(c.newRS.value.hash);
      }
      if PauseCompleted(c.spec, c.status, pauseContext.Value(), c.env.now) && PrePromotionDone(c.spec, c.env.preBefore) {
        newPodHash := Some(c.newRS.value.hash);
      }
      if c.status.pause.abort {
        newPodHash := Some(c.status.stableHash);
      }
      SwitchServiceSelector(newPodHash.value);
    }

    // The analysis runs' requests are an input; they come after the pause has been reconciled.
    method ReconcileAnalysisRuns()
      modifies pauseContext
      ensures pauseContext.Value() == Combined(old(pauseContext.Value()), c.env.analysis)
    {
      pauseContext.addPauseReasons := pauseContext.addPauseReasons + c.env.analysis.add;
      pauseContext.removePauseReasons := pauseContext.removePauseReasons + c.env.analysis.remove;
      pauseContext.clearPauseConditions := pauseContext.clearPauseConditions || c.env.analysis.clear;
      pauseContext.addAbort := pauseContext.addAbort || c.env.analysis.addAbort;
      pauseContext.removeAbort := pauseContext.removeAbort || c.env.analysis.removeAbort;
    }

    // The parts of the status update for a reset and for a requested full promotion.
    method ResetOrPromoteFull() returns (promoteFull: bool)
      modifies pauseContext
      ensures promoteFull == (!Changed(c) && CurrentHash(c) != "" && c.status.promoteFull)
      ensures pauseContext.Value() == if Changed(c) || c.status.promoteFull
                                      then old(pauseContext.Value()).(clear := true, removeAbort := true) else old(pauseContext.Value())
    {
      hide Changed, CurrentHash;
      promoteFull := CurrentHash(c) != "" && c.status.promoteFull;
      if Changed(c) {
        pauseContext.ClearPauseConditions();
        pauseContext.RemoveAbort();
        promoteFull := false;
      }
      if c.status.promoteFull {
        pauseContext.ClearPauseConditions();
        pauseContext.RemoveAbort();
      }
    }

    method PromoteStable()
      modifies this`newStatus, this`sets, pauseContext
      ensures pauseContext.Value() == old(pauseContext.Value()).(clear := true, removeAbort := true)
      ensures newStatus == old(newStatus).(promoteFull := false, checkpoint := false, stableHash := CurrentHash(c))
      ensures sets == DelayedAfterSync(c, old(sets), newStatus)
      requires newStatus.stableHash == c.status.stableHash
    {
      hide WithDelay, Find, CurrentHash;
      pauseContext.ClearPauseConditions();
      pauseContext.RemoveAbort();
      newStatus := newStatus.(promoteFull := false, checkpoint := false);
      var current := CurrentHash(c);
      if newStatus.stableHash != current {
        newStatus := newStatus.(stableHash := current);
        var previous := Find(c.allRSs, c.status.stableHash);
        if previous.Some? && previous.value.spec > 0 {
          sets := WithDelay(sets, c.status.stableHash, c.spec, c.env.now);
        }
      }
    }

    method SyncRolloutStatusBlueGreen()
      requires pauseContext.status == c.status.pause
      modifies this`newStatus, this`sets, pauseContext
      ensures newStatus == Synced(c, active, old(pauseContext.Value()))
      ensures sets == DelayedAfterSync(c, old(sets), newStatus)
    {
      hide Calculated, WithDelay, Find, ShouldPromote, Changed, CheckpointAfter, CurrentHash;
      var selector := if active.Some? then active.value else "";
      var promoteFull := ResetOrPromoteFull();
      newStatus := Status(c.status.stableHash, CurrentHash(c), selector, false, promoteFull, NEVER_PAUSED);
      if ShouldPromote(c, selector, pauseContext.Value()) {
        PromoteStable();
      } else {
        newStatus := newStatus.(checkpoint := CheckpointAfter(c, pauseContext.Value()));
      }
      var pause := pauseContext.CalculatePauseStatus(c.env.now);
      newStatus := newStatus.(pause := pause);
    }
  }

  // reconcile, with the context built from what the cluster holds. Unless the preview has a size of its own, it keeps
  // the active and the stable set at full size.
  method Reconcile(spec: Spec, k: Cluster, env: Env) returns (k': Cluster)
    ensures k' == Reconciled(spec, k, env)
    ensures spec.previewReplicaCount.None? && spec.templateHash != "" && BlueGreenCapacity.Serving(k, spec.Replicas()) ==>
              BlueGreenCapacity.Serving(k', spec.Replicas())
  {
    hide Find, NewCount, ScalingEvent, Created, BlueGreenCapacity.Serving;
    if spec.previewReplicaCount.None? && spec.templateHash != "" && BlueGreenCapacity.Serving(k, spec.Replicas()) {
      BlueGreenCapacity.ReconcileKeepsServing(spec, k, env);
    }
    if SyncReplicasOnly(spec, k) {
      k' := SyncReplicas(spec, k, env);
    } else {
      k' := RolloutBlueGreen(spec, k, env);
    }
  }

  method SyncReplicas(spec: Spec, k: Cluster, env: Env) returns (k': Cluster)
    ensures k' == ReplicasOnly(spec, k, env)
  {
    hide Find, Synced, ReplicaSetsAfter, DelayedAfterSync;
    var ctx := new RolloutContext(ContextOf(spec, k, Find(k.sets, spec.templateHash), env), k.sets);
    var ok := ctx.ReconcileBlueGreenReplicaSets();
    if !ok || !env.failure.Nowhere? { return k.(sets := ctx.sets); }
    ctx.SyncRolloutStatusBlueGreen();
    return Cluster(ctx.newStatus, ctx.sets, ctx.active);
  }

  method RolloutBlueGreen(spec: Spec, k: Cluster, env: Env) returns (k': Cluster)
    ensures k' == RolledOut(spec, k, env)
  {
    hide Find, RolledOutWith, Created;
    if env.failure.AtStart? { return k; }
    var found := Find(k.sets, spec.templateHash);
    var sets, newRS := k.sets, Created(spec, k.status, k.sets);
    if found.Some? { newRS := found.value; } else { sets := sets + [newRS]; }
    k' := RolloutWith(ContextOf(spec, k, Some(newRS), env), k.(sets := sets));
  }

  method RolloutWith(c: Context, k: Cluster) returns (k': Cluster)
    requires c.newRS.Some? && c.status == k.status && c.active == k.active && !c.env.failure.AtStart?
    ensures k' == RolledOutWith(c, k)
  {
    hide Find, Synced, ReplicaSetsAfter, DelayedAfterSync, ActiveAfter, PauseRequests, Changed;
    var failure := c.env.failure;
    var ctx := new RolloutContext(c, k.sets);
    if failure.AfterCreate? { return k; }
    if Changed(c) {
      if !failure.Nowhere? { return k; }
      ctx.SyncRolloutStatusBlueGreen();
      return Cluster(ctx.newStatus, ctx.sets, ctx.active);
    }
    var ok := ctx.ReconcileBlueGreenReplicaSets();
    if !ok || failure.AfterOthers? { return k.(sets := ctx.sets); }
    ctx.ReconcileBlueGreenPause();
    ctx.ReconcileActiveService();
    if failure.AfterSwitch? { return k.(sets := ctx.sets, active := ctx.active); }
    ctx.ReconcileAnalysisRuns();
    ctx.SyncRolloutStatusBlueGreen();
    return Cluster(ctx.newStatus, ctx.sets, ctx.active);
  }
}
