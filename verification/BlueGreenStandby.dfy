// The set that stops being stable stays up until its deadline, so that a rollback finds it ready.
module BlueGreenStandby {
  import opened Wrappers
  import opened ReplicaSets
  import opened ScaleDownDelay
  import opened Pause
  import opened BlueGreen
  import opened BlueGreenCapacity

  // There is a set with the hash; it asks for n pods and carries the deadline.
  predicate Standing(sets: seq<ReplicaSet>, hash: string, n: int, deadline: int) {
    && AtSize(sets, hash, n)
    && forall i :: 0 <= i < |sets| && sets[i].hash == hash ==> sets[i].deadline == At(deadline)
  }

  // After b, every set of a is still there with its hash, and those with hash h are as they were.
  predicate Leaves(a: seq<ReplicaSet>, b: seq<ReplicaSet>, h: string) {
    |a| == |b| && forall i :: 0 <= i < |a| ==> b[i].hash == a[i].hash && (a[i].hash == h ==> b[i] == a[i])
  }

  lemma {:induction false} StaysStanding(a: seq<ReplicaSet>, b: seq<ReplicaSet>, h: string, n: int, deadline: int)
    requires Leaves(a, b, h) && Standing(a, h, n, deadline)
    ensures Standing(b, h, n, deadline)
  {
    var i :| 0 <= i < |a| && a[i].hash == h;
    assert b[i].hash == h;
  }

  /******* The scale-down loop *******/

  // The old sets that the loop of a reconcile visits.
  function OldSets(c: Context): seq<ReplicaSet> { Others(c, c.allRSs) }

  // The revision limit leaves room for the sets with hash h: too few delayed sets are newer.
  predicate HasRoom(c: Context, h: string) {
    forall i :: 0 <= i < |OldSets(c)| && OldSets(c)[i].hash == h ==>
      c.spec.scaleDownDelayRevisionLimit.Some? ==>
        NewerDelayed(OldSets(c), ReferencesOf(c.status), OldSets(c)[i].revision) < c.spec.scaleDownDelayRevisionLimit.value
  }

  lemma {:induction false} LoopLeaves(c: Context, h: string, deadline: int, j: nat)
    requires Standing(c.allRSs, h, c.spec.Replicas(), deadline) && c.env.now < deadline
    requires DistinctRevisions(OldSets(c)) && HasRoom(c, h)
    requires j < |NewestFirst(OldSets(c))| && NewestFirst(OldSets(c))[j].hash == h
    ensures AfterLoop(NewestFirst(OldSets(c)), ReferencesOf(c.status), c.spec.scaleDownDelayRevisionLimit, c.env.now,
                      c.spec.Replicas())[j] == NewestFirst(OldSets(c))[j]
  {
    hide NewestFirst, NewerDelayed, Others, IsOther, IsStillReferenced, DesiredCount, ReferencesOf;
    var olds, sorted := OldSets(c), NewestFirst(OldSets(c));
    NewestFirstSorts(olds);
    assert sorted[j] in multiset(olds);
    var k :| 0 <= k < |olds| && olds[k] == sorted[j];
    KeptExactlyWhen(olds, ReferencesOf(c.status), c.spec.scaleDownDelayRevisionLimit, c.env.now, c.spec.Replicas(), j);
  }

  lemma {:induction false} MergedLeaves(rs: ReplicaSet, before: seq<ReplicaSet>, after: seq<ReplicaSet>, n: nat)
    requires n <= |before| == |after|
    requires forall j :: 0 <= j < |before| ==> after[j].hash == before[j].hash
    ensures MergedAt(rs, before, after, n).hash == rs.hash
    ensures (forall j :: 0 <= j < |before| && before[j].hash == rs.hash ==> after[j] == before[j]) ==> MergedAt(rs, before, after, n) == rs
  {
    if n > 0 {
      MergedLeaves(rs, before, after, n - 1);
    }
  }

  lemma {:induction false} ScaleDownLeaves(c: Context, sets: seq<ReplicaSet>, h: string, deadline: int)
    requires Standing(c.allRSs, h, c.spec.Replicas(), deadline) && c.env.now < deadline
    requires DistinctRevisions(OldSets(c)) && HasRoom(c, h)
    ensures Leaves(sets, OldScaledDown(c, sets), h)
  {
    hide AfterLoop, NewestFirst, Others, MergedAt, Standing, HasRoom, DistinctRevisions, MayScaleDown, ReferencesOf;
    if MayScaleDown(c) {
      var olds := NewestFirst(OldSets(c));
      var refs, limit, now, replicas := ReferencesOf(c.status), c.spec.scaleDownDelayRevisionLimit, c.env.now, c.spec.Replicas();
      var after := AfterLoop(olds, refs, limit, now, replicas);
      LoopKeepsReferenced(olds, refs, limit, now, replicas);
      forall j | 0 <= j < |olds| && olds[j].hash == h ensures after[j] == olds[j] {
        LoopLeaves(c, h, deadline, j);
      }
      forall i | 0 <= i < |sets|
        ensures MergedAt(sets[i], olds, after, |olds|).hash == sets[i].hash
        ensures sets[i].hash == h ==> MergedAt(sets[i], olds, after, |olds|) == sets[i]
      {
        MergedLeaves(sets[i], olds, after, |olds|);
      }
    }
  }

  /******* One reconcile *******/

  // Neither the new nor the stable nor the active set has the hash.
  predicate Former(c: Context, h: string) {
    && (c.newRS.Some? ==> c.newRS.value.hash != h) && (c.stableRS.Some? ==> c.stableRS.value.hash != h)
    && c.active != Some(h) && c.status.stableHash != h
  }

  lemma {:induction false} StagesLeave(c: Context, sets: seq<ReplicaSet>, h: string, deadline: int)
    requires Former(c, h) && Standing(c.allRSs, h, c.spec.Replicas(), deadline) && c.env.now < deadline
    requires DistinctRevisions(OldSets(c)) && HasRoom(c, h)
    ensures Leaves(sets, ReplicaSetsAfter(c, sets), h)
  {
    hide OldScaledDown, Standing, HasRoom, DistinctRevisions, Find, NewCount, Scaled;
    var n := c.spec.Replicas();
    var s0 := WithoutDeadlines(sets, c.newRS, c.stableRS);
    var s1 := if c.active.Some? && Find(c.allRSs, c.active.value).Some? then ScaledTo(s0, c.active.value, n, n) else s0;
    var s2 := if c.newRS.Some? then ScaledTo(s1, c.newRS.value.hash, NewCount(c.spec, c.status, c.allRSs, c.newRS.value.hash), n) else s1;
    ScalingLeaves(s0, h);
    ScalingLeaves(s1, h);
    ScaleDownLeaves(c, s2, h, deadline);
  }

  lemma {:induction false} ScalingLeaves(sets: seq<ReplicaSet>, h: string)
    ensures forall hash, n, replicas :: hash != h ==> Leaves(sets, ScaledTo(sets, hash, n, replicas), h)
  {
  }

  lemma {:induction false} SyncLeaves(c: Context, sets: seq<ReplicaSet>, active: Option<string>, req: Requests,
                                      h: string)
    requires c.status.stableHash != h
    ensures Leaves(sets, SyncedCluster(c, sets, active, req).sets, h)
  {
    hide Synced, Find;
  }

  lemma {:induction false} RolledOutWithLeaves(c: Context, k: Cluster, h: string, deadline: int)
    requires c.newRS.Some? && !c.env.failure.AtStart? && c.stableRS.Some? && c.status == k.status && c.active == k.active
    requires k.active.Some? && k.active.value != "" && c.newRS.value.hash != "" && k.status.stableHash != ""
    requires Former(c, h) && Standing(c.allRSs, h, c.spec.Replicas(), deadline) && c.env.now < deadline
    requires DistinctRevisions(OldSets(c)) && HasRoom(c, h)
    ensures Leaves(k.sets, RolledOutWith(c, k).sets, h)
    ensures RolledOutWith(c, k).active != Some(h) && RolledOutWith(c, k).status.stableHash != h
  {
    hide ReplicaSetsAfter, Synced, DelayedAfterSync, PauseRequests, Changed, ReadyForPause, IsSaturated, FastTracked,
         PauseCompleted,
         Standing, HasRoom, DistinctRevisions;
    var sets, req := ReplicaSetsAfter(c, k.sets), Combined(PauseRequests(c), c.env.analysis);
    StagesLeave(c, k.sets, h, deadline);
    SyncLeaves(c, k.sets, k.active, NO_REQUESTS, h);
    SyncLeaves(c, sets, ActiveAfter(c), req, h);
    StableMovesToActive(c, k.active, NO_REQUESTS);
    StableMovesToActive(c, ActiveAfter(c), req);
  }

  // The context of a reconcile.
  function ContextAt(spec: Spec, k: Cluster, env: Env): Context {
    ContextOf(spec, k, if SyncReplicasOnly(spec, k) then Find(k.sets, spec.templateHash) else Some(NewOrCreated(spec, k)), env)
  }

  lemma {:induction false} ReconcileKeepsStanding(spec: Spec, k: Cluster, env: Env, h: string, deadline: int)
    requires BlueGreenCapacity.Serving(k, spec.Replicas()) && spec.templateHash != "" && spec.templateHash != h
    requires k.status.stableHash != h && k.active != Some(h) && Standing(k.sets, h, spec.Replicas(), deadline)
    requires env.now < deadline && DistinctRevisions(OldSets(ContextAt(spec, k, env))) && HasRoom(ContextAt(spec, k, env), h)
    ensures Standing(Reconciled(spec, k, env).sets, h, spec.Replicas(), deadline)
    ensures Reconciled(spec, k, env).status.stableHash != h && Reconciled(spec, k, env).active != Some(h)
  {
    hide ReplicaSetsAfter, Synced, DelayedAfterSync, SyncReplicasOnly, Find, RolledOutWith, AtSize, HasRoom,
         DistinctRevisions, OldSets,
         NewCount, MaxRevision;
    var c := ContextAt(spec, k, env);
    StableSetIsFound(spec, k, c.newRS, env);
    if SyncReplicasOnly(spec, k) {
      var sets := ReplicaSetsAfter(c, k.sets);
      StagesLeave(c, k.sets, h, deadline);
      SyncLeaves(c, sets, k.active, NO_REQUESTS, h);
      StableMovesToActive(c, k.active, NO_REQUESTS);
      StaysStanding(k.sets, Reconciled(spec, k, env).sets, h, spec.Replicas(), deadline);
    } else if !env.failure.AtStart? {
      var newRS := NewOrCreated(spec, k);
      var sets := if Find(k.sets, spec.templateHash).Some? then k.sets else k.sets + [newRS];
      AppendingKeepsStanding(k.sets, newRS, h, spec.Replicas(), deadline);
      RolledOutWithLeaves(c, k.(sets := sets), h, deadline);
      StaysStanding(sets, Reconciled(spec, k, env).sets, h, spec.Replicas(), deadline);
    }
  }

  lemma {:induction false} AppendingKeepsStanding(sets: seq<ReplicaSet>, rs: ReplicaSet, h: string, n: int,
                                                  deadline: int)
    requires Standing(sets, h, n, deadline) && rs.hash != h
    ensures Standing(sets + [rs], h, n, deadline)
  {
    var i :| 0 <= i < |sets| && sets[i].hash == h;
    assert (sets + [rs])[i].hash == h;
  }

  /******* The reconcile that moves the stable hash *******/

  lemma {:induction false} SyncDelaysFormer(c: Context, sets: seq<ReplicaSet>, active: Option<string>, req: Requests)
    requires c.status.stableHash != "" && AtSize(sets, c.status.stableHash, c.spec.Replicas())
    requires c.spec.Replicas() > 0 && AtSize(c.allRSs, c.status.stableHash, c.spec.Replicas()) && DelaySeconds(c.spec) > 0
    ensures var k' := SyncedCluster(c, sets, active, req);
            k'.status.stableHash != c.status.stableHash ==>
              Standing(k'.sets, c.status.stableHash, c.spec.Replicas(), c.env.now + DelaySeconds(c.spec))
  {
    hide Synced, Find;
    var h := c.status.stableHash;
    FindFinds(c.allRSs, h);
    var previous := Find(c.allRSs, h);
    assert previous.Some? && previous.value in c.allRSs && previous.value.hash == h;
    var i :| 0 <= i < |sets| && sets[i].hash == h;
    assert WithDelay(sets, h, c.spec, c.env.now)[i].hash == h;
  }

  lemma {:induction false} MoveDelaysFormer(spec: Spec, k: Cluster, env: Env)
    requires BlueGreenCapacity.Serving(k, spec.Replicas()) && spec.previewReplicaCount.None? && spec.templateHash != ""
    requires spec.Replicas() > 0 && DelaySeconds(spec) > 0
    requires Reconciled(spec, k, env).status.stableHash != k.status.stableHash
    ensures Standing(Reconciled(spec, k, env).sets, k.status.stableHash, spec.Replicas(), env.now + DelaySeconds(spec))
    ensures Reconciled(spec, k, env).active == Some(Reconciled(spec, k, env).status.stableHash)
  {
    hide ReplicaSetsAfter, Synced, DelayedAfterSync, SyncReplicasOnly, Find, AtSize, Standing, PauseRequests,
         ReadyForPause,
         IsSaturated, FastTracked, PauseCompleted, MaxRevision;
    var c, h := ContextAt(spec, k, env), k.status.stableHash;
    StableSetIsFound(spec, k, c.newRS, env);
    StableMovesToActive(c, k.active, NO_REQUESTS);
    if SyncReplicasOnly(spec, k) {
      StagesKeepSize(c, k.sets, h);
      SyncDelaysFormer(c, ReplicaSetsAfter(c, k.sets), k.active, NO_REQUESTS);
    } else {
      var newRS := NewOrCreated(spec, k);
      var sets := if Find(k.sets, spec.templateHash).Some? then k.sets else k.sets + [newRS];
      if Find(k.sets, spec.templateHash).None? {
        AppendingKeepsSize(k.sets, newRS, h, spec.Replicas());
      }
      SyncDelaysFormer(c, sets, k.active, NO_REQUESTS);
      StagesKeepSize(c, sets, h);
      var req := Combined(PauseRequests(c), env.analysis);
      SyncDelaysFormer(c, ReplicaSetsAfter(c, sets), ActiveAfter(c), req);
      StableMovesToActive(c, ActiveAfter(c), req);
    }
  }

  /******* Runs *******/

  // Until the deadline: the template is not that of the former stable set, and each reconcile finds distinct revisions
  // and room for the set within the limit.
  ghost predicate LeavesRoom(trace: seq<State>, events: seq<BlueGreenCapacity.Event>, h: string, deadline: int, m: nat)
    requires m < |events| && |trace| == |events| + 1
  {
    && trace[m].spec.templateHash != h
    && (events[m].Reconcile? ==>
          var c := ContextAt(trace[m].spec, trace[m].k, events[m].env);
          events[m].env.now < deadline && DistinctRevisions(OldSets(c)) && HasRoom(c, h))
  }

  // The stable hash moves away from h in the s-th event. In every later state up to the deadline the former stable set
  // has full size and its deadline, through template changes, further switches, aborts and reconciles that fail
  // half-way, unless the template becomes its own again or the limit leaves no room for it.
  lemma {:induction false} FormerStableStaysUp(trace: seq<State>, events: seq<BlueGreenCapacity.Event>, replicas: int,
                                               s: nat, j: nat)
    requires IsTrace(trace, events, replicas) && BlueGreenCapacity.Serving(trace[0].k, replicas) && replicas > 0
    requires s < j < |trace| && events[s].Reconcile? && DelaySeconds(trace[s].spec) > 0
    requires trace[s + 1].k.status.stableHash != trace[s].k.status.stableHash
    requires var h, deadline := trace[s].k.status.stableHash, events[s].env.now + DelaySeconds(trace[s].spec);
             forall m :: s < m < j ==> LeavesRoom(trace, events, h, deadline, m)
    ensures var h, deadline := trace[s].k.status.stableHash, events[s].env.now + DelaySeconds(trace[s].spec);
            && Standing(trace[j].k.sets, h, replicas, deadline)
            && trace[j].k.status.stableHash != h && trace[j].k.active != Some(h)
    decreases j
  {
    hide Reconciled, Standing, DistinctRevisions, HasRoom, ContextAt, BlueGreenCapacity.Serving;
    var h, deadline := trace[s].k.status.stableHash, events[s].env.now + DelaySeconds(trace[s].spec);
    AlwaysServing(trace, events, replicas, j - 1);
    var t, e := trace[j - 1], events[j - 1];
    assert trace[j] == BlueGreenCapacity.Next(t, e);
    if j == s + 1 {
      MoveDelaysFormer(t.spec, t.k, e.env);
    } else {
      FormerStableStaysUp(trace, events, replicas, s, j - 1);
      assert LeavesRoom(trace, events, h, deadline, j - 1);
      if e.Reconcile? {
        ReconcileKeepsStanding(t.spec, t.k, e.env, h, deadline);
      } else if e.PodsChange? {
        PodsLeaveStanding(t, e, h, replicas, deadline);
      }
    }
  }

  lemma {:induction false} PodsLeaveStanding(t: State, e: BlueGreenCapacity.Event, h: string, n: int, deadline: int)
    requires e.PodsChange? && Standing(t.k.sets, h, n, deadline)
    ensures Standing(BlueGreenCapacity.Next(t, e).k.sets, h, n, deadline)
  {
    var i :| 0 <= i < |t.k.sets| && t.k.sets[i].hash == h;
    assert BlueGreenCapacity.Next(t, e).k.sets[i].hash == h;
  }
}
