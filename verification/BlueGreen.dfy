// One reconcile of a blue-green rollout (rollout/bluegreen.go, rollout/service.go, rollout/sync.go). A set is
// identified by its pod template hash, which also ends its name.
module BlueGreen {
  import opened Wrappers
  import opened ReplicaSets
  import opened ScaleDownDelay
  import opened Pause

  datatype Spec = Spec(replicas: Option<int>, paused: bool, templateHash: string,
                       autoPromotionEnabled: Option<bool>, autoPromotionSeconds: int, previewReplicaCount: Option<int>,
                       prePromotionAnalysis: bool, postPromotionAnalysis: bool,
                       scaleDownDelaySeconds: Option<int>, scaleDownDelayRevisionLimit: Option<int>)
  {
    function Replicas(): int { if replicas.Some? then replicas.value else 1 }

    // needsBlueGreenControllerPause
    predicate NeedsPause() { autoPromotionEnabled == Some(false) || autoPromotionSeconds > 0 }
  }

  datatype Status = Status(stableHash: string, currentPodHash: string, activeSelector: string, checkpoint: bool,
                           promoteFull: bool, pause: PauseStatus)

  // Where an API call fails and ends the reconcile before the status is persisted.
  datatype Failure = AtStart | AfterCreate | AfterStable | AfterNew | AfterOthers | AfterSwitch | Nowhere

  // Inputs of one reconcile: whether the pre- and post-promotion runs have succeeded, before and after the analysis
  // runs are reconciled, and what these ask of the pause context.
  datatype Env = Env(preBefore: bool, preAfter: bool, postBefore: bool, postAfter: bool, analysis: Requests,
                     failure: Failure, now: int)

  // What a reconcile works from: the sets and the active service's selector as they were at its start. `newRS` is
  // the new set, just created or found; it may be missing when only replicas are synced.
  datatype Context = Context(spec: Spec, status: Status, allRSs: seq<ReplicaSet>, newRS: Option<ReplicaSet>,
                             stableRS: Option<ReplicaSet>, active: Option<string>, env: Env)

  // GetReplicaSetByTemplateHash: the last set with the hash.
  function Find(sets: seq<ReplicaSet>, hash: string): (r: Option<ReplicaSet>)
    ensures r.Some? ==> r.value in sets && r.value.hash == hash
  {
    if sets == [] || hash == "" then None
    else if sets[|sets| - 1].hash == hash then Some(sets[|sets| - 1])
    else Find(sets[..|sets| - 1], hash)
  }

  /******* Decisions *******/

  predicate HasDeadline(rs: Option<ReplicaSet>) { rs.Some? && rs.value.deadline != NoDeadline }

  // NewRSNewReplicas
  function NewCount(spec: Spec, status: Status, allRSs: seq<ReplicaSet>, newHash: string): int {
    if spec.previewReplicaCount.None? then spec.Replicas()
    else
      var activeRS := Find(allRSs, status.activeSelector);
      if activeRS.None? || activeRS.value.hash == newHash then spec.Replicas()
      else if newHash != status.currentPodHash then spec.previewReplicaCount.value
      else if !spec.paused && status.pause.conditions == [] && status.checkpoint then spec.Replicas()
      else spec.previewReplicaCount.value
  }

  predicate ReadyForPause(c: Context)
    requires c.newRS.Some?
  {
    c.newRS.value.spec == c.newRS.value.available == NewCount(c.spec, c.status, c.allRSs, c.newRS.value.hash)
  }

  predicate IsSaturated(spec: Spec, rs: ReplicaSet) {
    rs.spec == rs.available == spec.Replicas() && rs.desired == Some(spec.Replicas())
  }

  predicate FastTracked(c: Context)
    requires c.newRS.Some?
  {
    HasDeadline(c.newRS) || c.status.promoteFull || c.active.None? || c.active.value == c.newRS.value.hash
  }

  predicate PrePromotionDone(spec: Spec, succeeded: bool) { spec.prePromotionAnalysis ==> succeeded }

  // CompletedBlueGreenPause, given what has been asked of the pause context so far.
  predicate PauseCompleted(spec: Spec, status: Status, req: Requests, now: int) {
    var cond := GetPauseCondition(status.pause.conditions, BlueGreenPause);
    && req.add == []
    && (|| status.checkpoint
        || !spec.NeedsPause()
        || (if spec.autoPromotionEnabled != Some(false) then
              spec.autoPromotionSeconds == 0 || (cond.Some? && now > cond.value.startTime + spec.autoPromotionSeconds)
            else status.pause.controllerPause && cond.None?))
  }

  // reconcileBlueGreenPause: what it asks of the pause context.
  function PauseRequests(c: Context): Requests
    requires c.newRS.Some?
  {
    var resume := NO_REQUESTS.(remove := [BlueGreenPause]);
    var cond := GetPauseCondition(c.status.pause.conditions, BlueGreenPause);
    if c.status.pause.abort || !ReadyForPause(c) || c.spec.paused then NO_REQUESTS
    else if FastTracked(c) || c.status.checkpoint || !c.spec.NeedsPause() then resume
    else if !PrePromotionDone(c.spec, c.env.preBefore) then NO_REQUESTS
    else if cond.None? && !c.status.pause.controllerPause then NO_REQUESTS.(add := [BlueGreenPause])
    else if PauseCompleted(c.spec, c.status, NO_REQUESTS, c.env.now) then resume
    else NO_REQUESTS
  }

  // reconcileActiveService: the selector afterwards.
  function ActiveAfter(c: Context): Option<string>
    requires c.newRS.Some?
  {
    if !ReadyForPause(c) || !IsSaturated(c.spec, c.newRS.value) then c.active
    else if c.status.pause.abort then Some(c.status.stableHash)
    else if FastTracked(c) || (PauseCompleted(c.spec, c.status, PauseRequests(c), c.env.now) && PrePromotionDone(c.spec, c.env.preBefore))
    then Some(c.newRS.value.hash)
    else c.active
  }

  function CurrentHash(c: Context): string { if c.newRS.Some? then c.newRS.value.hash else c.spec.templateHash }

  // CheckPodSpecChange
  predicate Changed(c: Context) { c.status.currentPodHash != "" && c.status.currentPodHash != CurrentHash(c) }

  /******* Scaling *******/

  function WithoutDeadlines(sets: seq<ReplicaSet>, newRS: Option<ReplicaSet>,
                            stableRS: Option<ReplicaSet>): seq<ReplicaSet> {
    seq(|sets|, i requires 0 <= i < |sets| =>
      if (newRS.Some? && newRS.value.hash == sets[i].hash) || (stableRS.Some? && stableRS.value.hash == sets[i].hash)
      then sets[i].(deadline := NoDeadline) else sets[i])
  }

  function ScaledTo(sets: seq<ReplicaSet>, hash: string, n: int, replicas: int): seq<ReplicaSet> {
    seq(|sets|, i requires 0 <= i < |sets| => if sets[i].hash == hash then Scaled(sets[i], n, replicas) else sets[i])
  }

  // The sets that are neither new nor stable and ask for pods.
  predicate IsOther(c: Context, rs: ReplicaSet) {
    && rs.spec > 0
    && (c.newRS.Some? ==> rs.hash != c.newRS.value.hash)
    && (c.stableRS.Some? ==> rs.hash != c.stableRS.value.hash)
  }

  function Others(c: Context, sets: seq<ReplicaSet>): (r: seq<ReplicaSet>)
    ensures forall i :: 0 <= i < |r| ==> r[i] in sets && IsOther(c, r[i])
  {
    if sets == [] then []
    else Others(c, sets[..|sets| - 1]) + if IsOther(c, sets[|sets| - 1]) then [sets[|sets| - 1]] else []
  }

  // skipPostPromotionAnalysisRun
  predicate SkipPostPromotion(c: Context) {
    var hash := if c.newRS.Some? then c.newRS.value.hash else "";
    c.status.stableHash == hash || c.status.activeSelector != hash || hash == "" || !IsSaturated(c.spec, c.newRS.value)
  }

  // Old sets stay up while an inconclusive analysis pauses the rollout, and while post-promotion analysis has yet to
  // succeed and no delay is configured.
  predicate MayScaleDown(c: Context) {
    && GetPauseCondition(c.status.pause.conditions, InconclusiveAnalysis).None?
    && !(c.spec.postPromotionAnalysis && c.spec.scaleDownDelaySeconds.None? && !SkipPostPromotion(c) && !c.env.postBefore)
  }

  function ReferencesOf(status: Status): References {
    References(status.stableHash, status.currentPodHash, status.activeSelector)
  }

  // A set that the loop has changed is updated in the cluster.
  function Merged(sets: seq<ReplicaSet>, before: seq<ReplicaSet>, after: seq<ReplicaSet>): seq<ReplicaSet>
    requires |before| == |after|
  {
    seq(|sets|, i requires 0 <= i < |sets| => MergedAt(sets[i], before, after, |before|))
  }

  function MergedAt(rs: ReplicaSet, before: seq<ReplicaSet>, after: seq<ReplicaSet>, n: nat): ReplicaSet
    requires n <= |before| == |after|
  {
    if n == 0 then rs
    else if before[n - 1].hash == rs.hash && before[n - 1] != after[n - 1] then after[n - 1]
    else MergedAt(rs, before, after, n - 1)
  }

  function OldScaledDown(c: Context, sets: seq<ReplicaSet>): seq<ReplicaSet> {
    if !MayScaleDown(c) then sets
    else
      var olds := NewestFirst(Others(c, c.allRSs));
      Merged(sets, olds, AfterLoop(olds, ReferencesOf(c.status), c.spec.scaleDownDelayRevisionLimit, c.env.now, c.spec.Replicas()))
  }

  // reconcileBlueGreenReplicaSets, up to the call that fails.
  function ReplicaSetsAfter(c: Context, sets: seq<ReplicaSet>): seq<ReplicaSet> {
    if c.env.failure.AtStart? || c.env.failure.AfterCreate? then sets
    else
      var s0 := WithoutDeadlines(sets, c.newRS, c.stableRS);
      var s1 := if c.active.Some? && Find(c.allRSs, c.active.value).Some? then ScaledTo(s0, c.active.value, c.spec.Replicas(), c.spec.Replicas()) else s0;
      if c.env.failure.AfterStable? then s1
      else
        var s2 := if c.newRS.Some?
                  then ScaledTo(s1, c.newRS.value.hash, NewCount(c.spec, c.status, c.allRSs, c.newRS.value.hash), c.spec.Replicas())
                  else s1;
        if c.env.failure.AfterNew? then s2 else OldScaledDown(c, s2)
  }

  /******* Status *******/

  // shouldFullPromote, for the selector that the new status will have.
  predicate ShouldPromote(c: Context, selector: string, req: Requests) {
    || c.stableRS.None?
    || selector == ""
    || (&& selector == CurrentHash(c)
        && (|| c.status.promoteFull
            || (!IsAborted(c.status.pause, req) && (c.spec.postPromotionAnalysis ==> HasDeadline(c.newRS) || c.env.postAfter))))
  }

  // calculateScaleUpPreviewCheckPoint
  predicate CheckpointAfter(c: Context, req: Requests) {
    && c.spec.previewReplicaCount.Some?
    && (|| c.status.checkpoint
        || (&& PrePromotionDone(c.spec, c.env.preAfter) && PauseCompleted(c.spec, c.status, req, c.env.now)
            && c.spec.previewReplicaCount.value == AvailableOf(c.newRS)))
  }

  // syncRolloutStatusBlueGreen: the status that is persisted, given the service's selector and the requests.
  function Synced(c: Context, active: Option<string>, req0: Requests): Status {
    var selector := if active.Some? then active.value else "";
    var over := req0.(clear := true, removeAbort := true);
    var req := if Changed(c) || c.status.promoteFull then over else req0;
    if ShouldPromote(c, selector, req) then
      Status(CurrentHash(c), CurrentHash(c), selector, false, false, Calculated(c.status.pause, over, c.env.now))
    else
      Status(c.status.stableHash, CurrentHash(c), selector, CheckpointAfter(c, req),
             !Changed(c) && CurrentHash(c) != "" && c.status.promoteFull, Calculated(c.status.pause, req, c.env.now))
  }

  // addScaleDownDelay on the set that was stable, when another one takes its place.
  function DelaySeconds(spec: Spec): int {
    if spec.scaleDownDelaySeconds.Some? then spec.scaleDownDelaySeconds.value else 30
  }

  function WithDelay(sets: seq<ReplicaSet>, hash: string, spec: Spec, now: int): seq<ReplicaSet> {
    seq(|sets|, i requires 0 <= i < |sets| =>
      if sets[i].hash != hash then sets[i]
      else if DelaySeconds(spec) == 0 then sets[i].(deadline := NoDeadline)
      else sets[i].(deadline := At(now + DelaySeconds(spec))))
  }

  function DelayedAfterSync(c: Context, sets: seq<ReplicaSet>, status': Status): seq<ReplicaSet> {
    var previous := Find(c.allRSs, c.status.stableHash);
    if status'.stableHash != c.status.stableHash && previous.Some? && previous.value.spec > 0
    then WithDelay(sets, c.status.stableHash, c.spec, c.env.now) else sets
  }

  /******* The whole reconcile *******/

  datatype Cluster = Cluster(status: Status, sets: seq<ReplicaSet>, active: Option<string>)

  // isScalingEvent
  predicate ScalingEvent(spec: Spec, sets: seq<ReplicaSet>) {
    exists i :: 0 <= i < |sets| && sets[i].spec > 0 && sets[i].desired.Some? && sets[i].desired != Some(spec.Replicas())
  }

  predicate SyncReplicasOnly(spec: Spec, k: Cluster) {
    || GetPauseCondition(k.status.pause.conditions, InconclusiveAnalysis).Some?
    || spec.paused
    || ScalingEvent(spec, k.sets)
  }

  function MaxRevision(sets: seq<ReplicaSet>): int {
    if sets == [] then 0 else Max(MaxRevision(sets[..|sets| - 1]), sets[|sets| - 1].revision)
  }

  // createDesiredReplicaSet
  function Created(spec: Spec, status: Status, sets: seq<ReplicaSet>): ReplicaSet {
    ReplicaSet(spec.templateHash, spec.templateHash, MaxRevision(sets) + 1, NewCount(spec, status, sets, spec.templateHash), 0,
               Some(spec.Replicas()), NoDeadline)
  }

  function ContextOf(spec: Spec, k: Cluster, newRS: Option<ReplicaSet>, env: Env): Context {
    Context(spec, k.status, k.sets, newRS,
            if k.status.stableHash == "" then None
            else if newRS.Some? && newRS.value.hash == k.status.stableHash then newRS
            else Find(k.sets, k.status.stableHash), k.active, env)
  }

  function SyncedCluster(c: Context, sets: seq<ReplicaSet>, active: Option<string>, req: Requests): Cluster {
    var status' := Synced(c, active, req);
    Cluster(status', DelayedAfterSync(c, sets, status'), active)
  }

  // syncReplicasOnly
  function ReplicasOnly(spec: Spec, k: Cluster, env: Env): Cluster {
    var c := ContextOf(spec, k, Find(k.sets, spec.templateHash), env);
    var sets := ReplicaSetsAfter(c, k.sets);
    if !env.failure.Nowhere? then k.(sets := sets) else SyncedCluster(c, sets, k.active, NO_REQUESTS)
  }

  function Combined(a: Requests, b: Requests): Requests {
    Requests(a.add + b.add, a.remove + b.remove, a.clear || b.clear, a.addAbort || b.addAbort, a.removeAbort || b.removeAbort)
  }

  // rolloutBlueGreen once the cluster holds the new set.
  function RolledOutWith(c: Context, k: Cluster): Cluster
    requires c.newRS.Some? && !c.env.failure.AtStart?
  {
    if c.env.failure.AfterCreate? then k
    else if Changed(c) then (if c.env.failure.Nowhere? then SyncedCluster(c, k.sets, k.active, NO_REQUESTS) else k)
    else
      var sets := ReplicaSetsAfter(c, k.sets);
      if c.env.failure.AfterStable? || c.env.failure.AfterNew? || c.env.failure.AfterOthers? then k.(sets := sets)
      else if c.env.failure.AfterSwitch? then k.(sets := sets, active := ActiveAfter(c))
      else SyncedCluster(c, sets, ActiveAfter(c), Combined(PauseRequests(c), c.env.analysis))
  }

  // The new set when the rollout has been rolled out with the sets.
  function NewOrCreated(spec: Spec, k: Cluster): ReplicaSet {
    var found := Find(k.sets, spec.templateHash);
    if found.Some? then found.value else Created(spec, k.status, k.sets)
  }

  // rolloutBlueGreen
  function RolledOut(spec: Spec, k: Cluster, env: Env): Cluster {
    var newRS := NewOrCreated(spec, k);
    var sets := if Find(k.sets, spec.templateHash).Some? then k.sets else k.sets + [newRS];
    if env.failure.AtStart? then k else RolledOutWith(ContextOf(spec, k, Some(newRS), env), k.(sets := sets))
  }

  function Reconciled(spec: Spec, k: Cluster, env: Env): Cluster {
    if SyncReplicasOnly(spec, k) then ReplicasOnly(spec, k, env) else RolledOut(spec, k, env)
  }
}
