// The set behind the active service keeps its full size, whatever the controller and the users do.
module BlueGreenCapacity {
  import opened Wrappers
  import opened ReplicaSets
  import opened ScaleDownDelay
  import opened Pause
  import opened BlueGreen

  // There is a set with the hash, and it asks for n pods.
  predicate AtSize(sets: seq<ReplicaSet>, hash: string, n: int) {
    && (exists i :: 0 <= i < |sets| && sets[i].hash == hash)
    && forall i :: 0 <= i < |sets| && sets[i].hash == hash ==> sets[i].spec == n
  }

  // The active and the stable set have full size, and the status refers to the active one.
  predicate Serving(k: Cluster, replicas: int) {
    && (forall i :: 0 <= i < |k.sets| ==> k.sets[i].hash != "")
    && k.status.stableHash != "" && AtSize(k.sets, k.status.stableHash, replicas)
    && k.active.Some? && k.active.value != "" && AtSize(k.sets, k.active.value, replicas)
    && k.status.currentPodHash != ""
    && k.active.value in {k.status.stableHash, k.status.currentPodHash, k.status.activeSelector}
  }

  // After b, every set of a is still there with its hash, and sets with hash h have the size they had.
  predicate KeepsSize(a: seq<ReplicaSet>, b: seq<ReplicaSet>, h: string) {
    |a| == |b| && forall i :: 0 <= i < |a| ==> b[i].hash == a[i].hash && (a[i].hash == h ==> b[i].spec == a[i].spec)
  }

  lemma {:induction false} SizeIsKept(a: seq<ReplicaSet>, b: seq<ReplicaSet>, h: string, n: int)
    requires KeepsSize(a, b, h) && AtSize(a, h, n)
    ensures AtSize(b, h, n)
  {
    var i :| 0 <= i < |a| && a[i].hash == h;
    assert b[i].hash == h;
  }

  // Scaling some set to full size leaves every set of full size at it.
  lemma {:induction false} ScalingToFullSize(a: seq<ReplicaSet>, hash: string, n: int, h: string)
    requires AtSize(a, h, n)
    ensures AtSize(ScaledTo(a, hash, n, n), h, n)
  {
    var b := ScaledTo(a, hash, n, n);
    var i :| 0 <= i < |a| && a[i].hash == h;
    assert b[i].hash == h;
  }

  lemma {:induction false} ScalingReachesFullSize(a: seq<ReplicaSet>, hash: string, n: int)
    requires exists i :: 0 <= i < |a| && a[i].hash == hash
    ensures AtSize(ScaledTo(a, hash, n, n), hash, n)
  {
    var b := ScaledTo(a, hash, n, n);
    var i :| 0 <= i < |a| && a[i].hash == hash;
    assert b[i].hash == hash;
  }

  lemma {:induction false} FindFinds(sets: seq<ReplicaSet>, hash: string)
    requires hash != ""
    ensures Find(sets, hash).Some? <==> exists i :: 0 <= i < |sets| && sets[i].hash == hash
  {
    if sets != [] && sets[|sets| - 1].hash != hash {
      FindFinds(sets[..|sets| - 1], hash);
    }
  }

  // The loop over old sets changes none that is new, stable or still referenced.
  lemma {:induction false} MergedKeeps(c: Context, rs: ReplicaSet, before: seq<ReplicaSet>, after: seq<ReplicaSet>,
                                       n: nat)
    requires n <= |before| == |after|
    requires forall j :: 0 <= j < |before| ==> after[j].hash == before[j].hash
    requires forall j :: 0 <= j < |before| && before[j] != after[j] ==> IsOther(c, before[j]) && !ReferencesOf(c.status).Holds(before[j])
    ensures MergedAt(rs, before, after, n).hash == rs.hash
    ensures Protected(c, rs.hash) ==> MergedAt(rs, before, after, n) == rs
  {
    if n > 0 {
      MergedKeeps(c, rs, before, after, n - 1);
    }
  }

  predicate Protected(c: Context, hash: string) {
    && hash != ""
    && (|| (c.newRS.Some? && c.newRS.value.hash == hash)
        || (c.stableRS.Some? && c.stableRS.value.hash == hash)
        || hash in {c.status.stableHash, c.status.currentPodHash, c.status.activeSelector})
  }

  lemma {:induction false} LoopVisitsOthers(c: Context)
    ensures forall j :: 0 <= j < |NewestFirst(Others(c, c.allRSs))| ==> IsOther(c, NewestFirst(Others(c, c.allRSs))[j])
  {
    hide IsOther, NewestFirst;
    var others := Others(c, c.allRSs);
    var olds := NewestFirst(others);
    NewestFirstSorts(others);
    forall j | 0 <= j < |olds| ensures IsOther(c, olds[j]) {
      assert olds[j] in multiset(others);
    }
  }

  lemma {:induction false} LoopKeepsReferenced(olds: seq<ReplicaSet>, refs: References, limit: Option<int>, now: int,
                                               replicas: int)
    ensures var after := AfterLoop(olds, refs, limit, now, replicas);
            |after| == |olds| && forall j :: 0 <= j < |olds| ==>
              after[j].hash == olds[j].hash && (after[j] != olds[j] ==> !refs.Holds(olds[j]))
  {
  }

  lemma {:induction false} OldScaledDownKeeps(c: Context, sets: seq<ReplicaSet>, h: string)
    requires Protected(c, h)
    ensures KeepsSize(sets, OldScaledDown(c, sets), h)
  {
    hide IsOther, AfterLoop, NewestFirst, Others, Protected, MergedAt, IsStillReferenced;
    if MayScaleDown(c) {
      var olds := NewestFirst(Others(c, c.allRSs));
      var refs := ReferencesOf(c.status);
      var after := AfterLoop(olds, refs, c.spec.scaleDownDelayRevisionLimit, c.env.now, c.spec.Replicas());
      LoopVisitsOthers(c);
      LoopKeepsReferenced(olds, refs, c.spec.scaleDownDelayRevisionLimit, c.env.now, c.spec.Replicas());
      forall i | 0 <= i < |sets|
        ensures MergedAt(sets[i], olds, after, |olds|).hash == sets[i].hash
        ensures sets[i].hash == h ==> MergedAt(sets[i], olds, after, |olds|) == sets[i]
      {
        MergedKeeps(c, sets[i], olds, after, |olds|);
      }
    }
  }

  // Whatever call fails, scaling keeps a protected set of full size at full size.
  lemma {:induction false} StagesKeepSize(c: Context, sets: seq<ReplicaSet>, h: string)
    requires c.spec.previewReplicaCount.None? && Protected(c, h) && AtSize(sets, h, c.spec.Replicas())
    ensures AtSize(ReplicaSetsAfter(c, sets), h, c.spec.Replicas())
  {
    hide ScaledTo, OldScaledDown, WithoutDeadlines, AtSize, KeepsSize, Find;
    var n := c.spec.Replicas();
    var s0 := WithoutDeadlines(sets, c.newRS, c.stableRS);
    DeadlinesKeepSize(c, sets, h);
    SizeIsKept(sets, s0, h, n);
    var s1 := if c.active.Some? && Find(c.allRSs, c.active.value).Some? then ScaledTo(s0, c.active.value, n, n) else s0;
    if c.active.Some? { ScalingToFullSize(s0, c.active.value, n, h); }
    if c.newRS.Some? { ScalingToFullSize(s1, c.newRS.value.hash, n, h); }
    var s2 := if c.newRS.Some? then ScaledTo(s1, c.newRS.value.hash, n, n) else s1;
    OldScaledDownKeeps(c, s2, h);
    SizeIsKept(s2, OldScaledDown(c, s2), h, n);
  }

  lemma {:induction false} DeadlinesKeepSize(c: Context, sets: seq<ReplicaSet>, h: string)
    ensures KeepsSize(sets, WithoutDeadlines(sets, c.newRS, c.stableRS), h)
  {
  }

  // A reconcile that gets past scaling the new set leaves that at full size.
  lemma {:induction false} NewSetReachesSize(c: Context, sets: seq<ReplicaSet>)
    requires c.spec.previewReplicaCount.None? && c.newRS.Some? && c.newRS.value.hash != ""
    requires exists i :: 0 <= i < |sets| && sets[i].hash == c.newRS.value.hash
    requires c.env.failure.Nowhere? || c.env.failure.AfterSwitch?
    ensures AtSize(ReplicaSetsAfter(c, sets), c.newRS.value.hash, c.spec.Replicas())
  {
    hide OldScaledDown, AtSize, KeepsSize, Find;
    var n, h := c.spec.Replicas(), c.newRS.value.hash;
    var s0 := WithoutDeadlines(sets, c.newRS, c.stableRS);
    var s1 := if c.active.Some? && Find(c.allRSs, c.active.value).Some? then ScaledTo(s0, c.active.value, n, n) else s0;
    var i :| 0 <= i < |sets| && sets[i].hash == h;
    assert s0[i].hash == h && s1[i].hash == h;
    ScalingReachesFullSize(s1, h, n);
    OldScaledDownKeeps(c, ScaledTo(s1, h, n, n), h);
    SizeIsKept(ScaledTo(s1, h, n, n), OldScaledDown(c, ScaledTo(s1, h, n, n)), h, n);
  }

  predicate HashesSet(sets: seq<ReplicaSet>) { forall i :: 0 <= i < |sets| ==> sets[i].hash != "" }

  lemma {:induction false} StagesKeepHashes(c: Context, sets: seq<ReplicaSet>)
    requires HashesSet(sets) && Protected(c, c.status.stableHash)
    ensures HashesSet(ReplicaSetsAfter(c, sets))
  {
    hide OldScaledDown, Find, IsOther;
    var n := c.spec.Replicas();
    var s0 := WithoutDeadlines(sets, c.newRS, c.stableRS);
    var s1 := if c.active.Some? && Find(c.allRSs, c.active.value).Some? then ScaledTo(s0, c.active.value, n, n) else s0;
    var s2 := if c.newRS.Some? then ScaledTo(s1, c.newRS.value.hash, NewCount(c.spec, c.status, c.allRSs, c.newRS.value.hash), n) else s1;
    OldScaledDownKeeps(c, s2, c.status.stableHash);
  }

  /******* The status *******/

  // The stable hash is kept, or it becomes the current one, which is then what the active service selects.
  lemma {:induction false} StableMovesToActive(c: Context, active: Option<string>, req: Requests)
    requires c.stableRS.Some? && active.Some? && active.value != ""
    ensures var status' := Synced(c, active, req);
            && status'.stableHash in {c.status.stableHash, active.value}
            && status'.activeSelector == active.value && status'.currentPodHash == CurrentHash(c)
  {
    hide Calculated, Changed, CheckpointAfter;
  }

  lemma {:induction false} SyncKeepsServing(c: Context, sets: seq<ReplicaSet>, active: string, req: Requests, n: int)
    requires c.stableRS.Some? && active != "" && CurrentHash(c) != "" && c.status.stableHash != "" && HashesSet(sets)
    requires AtSize(sets, c.status.stableHash, n) && AtSize(sets, active, n)
    ensures Serving(SyncedCluster(c, sets, Some(active), req), n)
  {
    hide Synced, AtSize;
    StableMovesToActive(c, Some(active), req);
    var after := DelayedAfterSync(c, sets, Synced(c, Some(active), req));
    assert KeepsSize(sets, after, c.status.stableHash) && KeepsSize(sets, after, active);
    SizeIsKept(sets, after, c.status.stableHash, n);
    SizeIsKept(sets, after, active, n);
  }

  /******* The reconcile *******/

  lemma {:induction false} StableSetIsFound(spec: Spec, k: Cluster, newRS: Option<ReplicaSet>, env: Env)
    requires Serving(k, spec.Replicas())
    ensures ContextOf(spec, k, newRS, env).stableRS.Some?
  {
    FindFinds(k.sets, k.status.stableHash);
  }

  lemma {:induction false} ReplicasOnlyKeepsServing(spec: Spec, k: Cluster, env: Env)
    requires Serving(k, spec.Replicas()) && spec.previewReplicaCount.None? && spec.templateHash != ""
    ensures Serving(ReplicasOnly(spec, k, env), spec.Replicas())
  {
    hide AtSize, ReplicaSetsAfter, Find, SyncedCluster;
    var c := ContextOf(spec, k, Find(k.sets, spec.templateHash), env);
    StableSetIsFound(spec, k, c.newRS, env);
    StagesKeepSize(c, k.sets, k.status.stableHash);
    StagesKeepSize(c, k.sets, k.active.value);
    StagesKeepHashes(c, k.sets);
    SyncKeepsServing(c, ReplicaSetsAfter(c, k.sets), k.active.value, NO_REQUESTS, spec.Replicas());
  }

  lemma {:induction false} AppendingKeepsSize(sets: seq<ReplicaSet>, rs: ReplicaSet, h: string, n: int)
    requires AtSize(sets, h, n) && rs.spec == n
    ensures AtSize(sets + [rs], h, n)
  {
    var i :| 0 <= i < |sets| && sets[i].hash == h;
    assert (sets + [rs])[i].hash == h;
  }

  lemma {:induction false} RolledOutWithKeepsServing(c: Context, k: Cluster)
    requires Serving(k, c.spec.Replicas()) && c.spec.previewReplicaCount.None?
    requires c.newRS.Some? && c.newRS.value in k.sets && !c.env.failure.AtStart?
    requires c.stableRS.Some? && c.status == k.status && c.active == k.active
    ensures Serving(RolledOutWith(c, k), c.spec.Replicas())
  {
    hide AtSize, ReplicaSetsAfter, SyncedCluster, PauseRequests, ReadyForPause, IsSaturated, FastTracked,
         PauseCompleted;
    var n, sets := c.spec.Replicas(), ReplicaSetsAfter(c, k.sets);
    SyncKeepsServing(c, k.sets, k.active.value, NO_REQUESTS, n);
    StagesKeepSize(c, k.sets, k.status.stableHash);
    StagesKeepSize(c, k.sets, k.active.value);
    StagesKeepHashes(c, k.sets);
    if c.env.failure.Nowhere? || c.env.failure.AfterSwitch? {
      NewSetReachesSize(c, k.sets);
      SyncKeepsServing(c, sets, ActiveAfter(c).value, Combined(PauseRequests(c), c.env.analysis), n);
    }
  }

  lemma {:induction false} RolledOutKeepsServing(spec: Spec, k: Cluster, env: Env)
    requires Serving(k, spec.Replicas()) && spec.previewReplicaCount.None? && spec.templateHash != ""
    ensures Serving(RolledOut(spec, k, env), spec.Replicas())
  {
    hide AtSize, Find, RolledOutWith, MaxRevision;
    var newRS := NewOrCreated(spec, k);
    var found := Find(k.sets, spec.templateHash);
    var sets := if found.Some? then k.sets else k.sets + [newRS];
    var c := ContextOf(spec, k, Some(newRS), env);
    StableSetIsFound(spec, k, Some(newRS), env);
    if found.None? {
      AppendingKeepsSize(k.sets, newRS, k.status.stableHash, spec.Replicas());
      AppendingKeepsSize(k.sets, newRS, k.active.value, spec.Replicas());
      assert sets[|k.sets|] == newRS;
    }
    assert newRS in sets && HashesSet(sets);
    if !env.failure.AtStart? {
      RolledOutWithKeepsServing(c, k.(sets := sets));
    }
  }

  lemma {:induction false} ReconcileKeepsServing(spec: Spec, k: Cluster, env: Env)
    requires Serving(k, spec.Replicas()) && spec.previewReplicaCount.None? && spec.templateHash != ""
    ensures Serving(Reconciled(spec, k, env), spec.Replicas())
  {
    hide Serving, ReplicasOnly, RolledOut, SyncReplicasOnly;
    ReplicasOnlyKeepsServing(spec, k, env);
    RolledOutKeepsServing(spec, k, env);
  }

  /******* Runs *******/

  // Users change the template and everything else but the replica count; pods come and go; users resume, abort,
  // retry and promote.
  datatype Event =
    | Reconcile(env: Env)
    | UserEdits(spec: Spec)
    | UserPatches(pause: PauseStatus, promoteFull: bool)
    | PodsChange(available: seq<int>)

  datatype State = State(spec: Spec, k: Cluster)

  function Next(s: State, e: Event): State {
    match e
    case Reconcile(env) => s.(k := Reconciled(s.spec, s.k, env))
    case UserEdits(spec) => s.(spec := spec)
    case UserPatches(pause, promoteFull) => s.(k := s.k.(status := s.k.status.(pause := pause, promoteFull := promoteFull)))
    case PodsChange(available) =>
      s.(k := s.k.(sets := seq(|s.k.sets|, i requires 0 <= i < |s.k.sets| =>
        if i < |available| then s.k.sets[i].(available := available[i]) else s.k.sets[i])))
  }

  ghost predicate IsTrace(trace: seq<State>, events: seq<Event>, replicas: int) {
    && |trace| == |events| + 1
    && (forall i :: 0 <= i < |trace| ==>
          trace[i].spec.Replicas() == replicas && trace[i].spec.previewReplicaCount.None? && trace[i].spec.templateHash != "")
    && forall i :: 0 <= i < |events| ==> trace[i + 1] == Next(trace[i], events[i])
  }

  // Through switches, aborts, rollbacks and reconciles that fail half-way, the set behind the active service and the
  // stable set ask for all replicas.
  lemma {:induction false} AlwaysServing(trace: seq<State>, events: seq<Event>, replicas: int, i: nat)
    requires IsTrace(trace, events, replicas) && Serving(trace[0].k, replicas) && i < |trace|
    ensures Serving(trace[i].k, replicas)
  {
    hide Reconciled, AtSize;
    if i > 0 {
      AlwaysServing(trace, events, replicas, i - 1);
      var s, e := trace[i - 1], events[i - 1];
      if e.Reconcile? {
        ReconcileKeepsServing(s.spec, s.k, e.env);
      } else if e.PodsChange? {
        SizeIsKept(s.k.sets, trace[i].k.sets, s.k.status.stableHash, replicas);
        SizeIsKept(s.k.sets, trace[i].k.sets, s.k.active.value, replicas);
      }
    }
  }

  // And the stable hash only ever moves to what the active service selects after the same reconcile.
  lemma {:induction false} StableFollowsActive(trace: seq<State>, events: seq<Event>, replicas: int, i: nat)
    requires IsTrace(trace, events, replicas) && Serving(trace[0].k, replicas) && i < |events|
    requires trace[i + 1].k.status.stableHash != trace[i].k.status.stableHash
    ensures events[i].Reconcile? && trace[i + 1].k.active == Some(trace[i + 1].k.status.stableHash)
    ensures AtSize(trace[i + 1].k.sets, trace[i + 1].k.status.stableHash, replicas)
  {
    hide Synced, AtSize, ReplicaSetsAfter, Find, MaxRevision, ReadyForPause, IsSaturated, FastTracked, PauseCompleted,
         PauseRequests, NewCount;
    AlwaysServing(trace, events, replicas, i);
    AlwaysServing(trace, events, replicas, i + 1);
    var s, e := trace[i], events[i];
    if e.Reconcile? {
      var found := Find(s.k.sets, s.spec.templateHash);
      var newRS := if SyncReplicasOnly(s.spec, s.k) then found
                   else if found.Some? then found else Some(Created(s.spec, s.k.status, s.k.sets));
      var c := ContextOf(s.spec, s.k, newRS, e.env);
      StableSetIsFound(s.spec, s.k, newRS, e.env);
      StableMovesToActive(c, s.k.active, NO_REQUESTS);
      if newRS.Some? {
        StableMovesToActive(c, ActiveAfter(c), Combined(PauseRequests(c), e.env.analysis));
      }
    }
  }
}
