// Which blue-green sets a reconcile leaves alone, which it scales down, and which deadlines they carry afterwards.
module BlueGreenCleanup {
  import opened Wrappers
  import opened ReplicaSets
  import opened ScaleDownDelay
  import opened Pause
  import opened BlueGreen
  import opened BlueGreenCapacity
  import opened BlueGreenStandby
  import G = BlueGreenGate
  import A = BlueGreenAbort
  import BlueGreenSizes

  // Scaling events, pauses that users specify and inconclusive analyses leave everything but the scaling aside.
  predicate Halted(t: G.Traced) {
    || t.spec.paused || HasReason(t.k.status.pause.conditions, InconclusiveAnalysis)
    || exists i :: 0 <= i < |t.k.sets| && t.k.sets[i].spec > 0 && t.k.sets[i].desired.Some?
                   && t.k.sets[i].desired.value != (if t.spec.replicas.Some? then t.spec.replicas.value else 1)
  }

  lemma {:induction false} HaltedExactly(t: G.Traced)
    ensures SyncReplicasOnly(t.spec, t.k) <==> Halted(t)
  {
    FoundIffPresent(t.k.status.pause.conditions, InconclusiveAnalysis);
  }

  lemma {:induction false} StagesKeepNumber(c: Context, sets: seq<ReplicaSet>)
    ensures |ReplicaSetsAfter(c, sets)| == |sets|
  {
    hide Find, NewCount, Scaled;
  }

  // Otherwise, and only then, a set that is missing is created; nothing else adds or removes sets.
  lemma {:induction false} SetIsCreatedExactlyWhen(t: G.Traced, env: Env)
    ensures var k' := G.Next(t, G.Reconcile(env)).k;
            && |k'.sets| == |t.k.sets| + (if Find(t.k.sets, t.spec.templateHash).None? && !Halted(t) && !env.failure.AtStart? then 1 else 0)
            && (Halted(t) ==> k'.active == t.k.active)
  {
    hide Find, Synced, ActiveAfter, PauseRequests, Created, SyncReplicasOnly, Halted, ReplicaSetsAfter, Changed,
         ContextOf;
    HaltedExactly(t);
    var only := ContextOf(t.spec, t.k, Find(t.k.sets, t.spec.templateHash), env);
    StagesKeepNumber(only, t.k.sets);
    var c := ContextOf(t.spec, t.k, Some(G.NewSet(t)), env);
    StagesKeepNumber(c, t.k.sets);
    StagesKeepNumber(c, t.k.sets + [G.NewSet(t)]);
  }

  // A reconcile that fails before it scales leaves every set as it is.
  lemma {:induction false} EarlyFailureScalesNothing(t: G.Traced, env: Env)
    requires env.failure.AtStart? || env.failure.AfterCreate?
    ensures t.k.sets <= G.Next(t, G.Reconcile(env)).k.sets
  {
    hide SyncReplicasOnly, NewCount, Created;
  }

  lemma {:induction false} StagesStop(c: Context, sets: seq<ReplicaSet>, i: nat)
    requires i < |sets| && c.active != Some(sets[i].hash) && (c.env.failure.AfterStable? || c.env.failure.AfterNew?)
    ensures |ReplicaSetsAfter(c, sets)| == |sets|
    ensures c.env.failure.AfterStable? ==> ReplicaSetsAfter(c, sets)[i].spec == sets[i].spec
    ensures (c.newRS.Some? ==> c.newRS.value.hash != sets[i].hash) && (c.stableRS.Some? ==> c.stableRS.value.hash != sets[i].hash) ==>
              ReplicaSetsAfter(c, sets)[i] == sets[i]
  {
    hide Scaled, NewCount, Find;
  }

  // One that fails at scaling the active or the new set leaves the sets that come later.
  lemma {:induction false} FailureStopsScaling(t: G.Traced, env: Env, i: nat)
    requires i < |t.k.sets| && t.k.active != Some(t.k.sets[i].hash) && (env.failure.AfterStable? || env.failure.AfterNew?)
    ensures var sets := G.Next(t, G.Reconcile(env)).k.sets;
            && i < |sets| && (env.failure.AfterStable? ==> sets[i].spec == t.k.sets[i].spec)
            && (t.k.sets[i].hash !in {t.spec.templateHash, t.k.status.stableHash} ==> sets[i] == t.k.sets[i])
  {
    hide ReplicaSetsAfter, SyncReplicasOnly, NewCount, MaxRevision, Changed, Find;
    StagesStop(ContextOf(t.spec, t.k, Find(t.k.sets, t.spec.templateHash), env), t.k.sets, i);
    var c := ContextOf(t.spec, t.k, Some(G.NewSet(t)), env);
    StagesStop(c, t.k.sets, i);
    StagesStop(c, t.k.sets + [G.NewSet(t)], i);
  }

  /******* Old sets *******/

  // The reconcile gets past the old sets, for the template that the controller has seen last.
  predicate GetsPastOldSets(t: G.Traced, env: Env) {
    && (env.failure.AfterOthers? || env.failure.AfterSwitch? || env.failure.Nowhere?)
    && (Halted(t) || t.k.status.currentPodHash in {"", t.spec.templateHash})
  }

  // Old sets are kept while an inconclusive analysis pauses the rollout, and while a full new set serves and its
  // post-promotion analysis has not succeeded, unless a delay is configured.
  predicate OldSetsAreKept(t: G.Traced, env: Env) {
    || HasReason(t.k.status.pause.conditions, InconclusiveAnalysis)
    || (&& t.spec.postPromotionAnalysis && t.spec.scaleDownDelaySeconds.None? && !env.postBefore
        && t.spec.templateHash != t.k.status.stableHash && t.k.status.activeSelector == t.spec.templateHash
        && G.NewRSOf(t).Some? && A.IsFull(G.NewRSOf(t).value, t.spec))
  }

  lemma {:induction false} KeptExactly(t: G.Traced, env: Env)
    requires t.spec.templateHash != ""
    ensures MayScaleDown(ContextOf(t.spec, t.k, G.NewRSOf(t), env)) <==> !OldSetsAreKept(t, env)
  {
    hide SyncReplicasOnly, NewCount, MaxRevision;
    FoundIffPresent(t.k.status.pause.conditions, InconclusiveAnalysis);
  }

  // An old set: nothing refers to it, and no other set has its hash.
  predicate IsOld(t: G.Traced, i: nat)
    requires i < |t.k.sets|
  {
    var rs := t.k.sets[i];
    && rs.spec >= 0
    && (rs.hash == "" || (rs.hash !in {t.spec.templateHash, t.k.status.stableHash, t.k.status.currentPodHash, t.k.status.activeSelector}
                          && t.k.active != Some(rs.hash)))
    && forall j :: 0 <= j < |t.k.sets| && t.k.sets[j].hash == rs.hash ==> t.k.sets[j] == rs
  }

  lemma {:induction false} OthersHasAll(c: Context, sets: seq<ReplicaSet>, rs: ReplicaSet)
    requires rs in sets && IsOther(c, rs)
    ensures rs in Others(c, sets)
  {
    hide IsOther;
    if sets[|sets| - 1] != rs {
      OthersHasAll(c, sets[..|sets| - 1], rs);
    }
  }

  // If the loop gives n pods to each set with the hash, so does the cluster.
  lemma {:induction false} MergedGives(rs: ReplicaSet, before: seq<ReplicaSet>, after: seq<ReplicaSet>, k: nat, n: int)
    requires k <= |before| == |after|
    requires forall j :: 0 <= j < k && before[j].hash == rs.hash ==> before[j] == rs && after[j].spec == n
    requires exists j :: 0 <= j < k && before[j].hash == rs.hash
    ensures MergedAt(rs, before, after, k).spec == n
  {
    if before[k - 1].hash == rs.hash && before[k - 1] == after[k - 1] {
      MergedStays(rs, before, after, k - 1, n);
    } else if before[k - 1].hash != rs.hash {
      MergedGives(rs, before, after, k - 1, n);
    }
  }

  lemma {:induction false} MergedStays(rs: ReplicaSet, before: seq<ReplicaSet>, after: seq<ReplicaSet>, k: nat, n: int)
    requires k <= |before| == |after| && rs.spec == n
    requires forall j :: 0 <= j < k && before[j].hash == rs.hash ==> after[j].spec == n
    ensures MergedAt(rs, before, after, k).spec == n
  {
    if k > 0 {
      MergedStays(rs, before, after, k - 1, n);
    }
  }

  /******* The revision limit *******/

  // Nothing refers to the set, and it asks for pods although it has a deadline.
  predicate IsDelayed(t: G.Traced, rs: ReplicaSet) {
    && rs.spec > 0 && rs.deadline != NoDeadline
    && rs.hash !in {t.spec.templateHash, t.k.status.stableHash, t.k.status.currentPodHash, t.k.status.activeSelector}
  }

  function NewerDelayedSets(t: G.Traced, sets: seq<ReplicaSet>, revision: int): nat {
    if sets == [] then 0
    else NewerDelayedSets(t, sets[..|sets| - 1], revision)
         + if IsDelayed(t, sets[|sets| - 1]) && sets[|sets| - 1].revision > revision then 1 else 0
  }

  predicate AllHashed(sets: seq<ReplicaSet>) { forall i :: 0 <= i < |sets| ==> sets[i].hash != "" }

  lemma {:induction false} CountsDelayed(t: G.Traced, env: Env, sets: seq<ReplicaSet>, revision: int)
    requires sets <= t.k.sets && AllHashed(t.k.sets) && t.spec.templateHash != ""
    ensures var c := ContextOf(t.spec, t.k, G.NewRSOf(t), env);
            NewerDelayed(Others(c, sets), ReferencesOf(c.status), revision) == NewerDelayedSets(t, sets, revision)
  {
    var c := ContextOf(t.spec, t.k, G.NewRSOf(t), env);
    if sets != [] {
      var rest, rs := sets[..|sets| - 1], sets[|sets| - 1];
      CountsDelayed(t, env, rest, revision);
      NewerDelayedAppend(Others(c, rest), if IsOther(c, rs) then [rs] else [], ReferencesOf(c.status), revision);
      DelayedIsOther(t, env, |sets| - 1);
    }
  }

  lemma {:induction false} DelayedIsOther(t: G.Traced, env: Env, i: nat)
    requires i < |t.k.sets| && AllHashed(t.k.sets) && t.spec.templateHash != ""
    ensures var c, rs := ContextOf(t.spec, t.k, G.NewRSOf(t), env), t.k.sets[i];
            IsDelayed(t, rs) <==> IsOther(c, rs) && !ReferencesOf(c.status).Holds(rs) && rs.deadline != NoDeadline
  {
    hide SyncReplicasOnly, NewCount, MaxRevision, Find;
    FindFinds(t.k.sets, t.spec.templateHash);
  }

  lemma {:induction false} OthersAreDistinct(c: Context, sets: seq<ReplicaSet>)
    requires DistinctRevisions(sets)
    ensures DistinctRevisions(Others(c, sets))
  {
    hide IsOther;
    if sets != [] {
      var rest := sets[..|sets| - 1];
      OthersAreDistinct(c, rest);
      forall i | 0 <= i < |Others(c, rest)| ensures Others(c, rest)[i].revision != sets[|sets| - 1].revision {
        var j :| 0 <= j < |rest| && rest[j] == Others(c, rest)[i];
        assert sets[j] == rest[j];
      }
    }
  }

  // An old set keeps the full number of pods until its deadline, as long as fewer newer sets than the limit are
  // delayed.
  predicate Gets(t: G.Traced, rs: ReplicaSet, now: int, n: int) {
    if rs.spec > 0 && rs.deadline.At? && rs.deadline.time > now
       && (t.spec.scaleDownDelayRevisionLimit.Some? ==>
             NewerDelayedSets(t, t.k.sets, rs.revision) < t.spec.scaleDownDelayRevisionLimit.value)
    then n == if t.spec.replicas.Some? then t.spec.replicas.value else 1
    else n == 0
  }

  lemma {:induction false} LoopGives(t: G.Traced, env: Env, j: nat, n: int)
    requires t.spec.scaleDownDelayRevisionLimit.Some? ==> DistinctRevisions(t.k.sets) && AllHashed(t.k.sets)
    requires t.spec.templateHash != ""
    requires var c := ContextOf(t.spec, t.k, G.NewRSOf(t), env);
             var olds := NewestFirst(Others(c, c.allRSs));
             j < |olds| && !ReferencesOf(c.status).Holds(olds[j]) && Gets(t, olds[j], env.now, n)
    ensures var c := ContextOf(t.spec, t.k, G.NewRSOf(t), env);
            var olds := NewestFirst(Others(c, c.allRSs));
            AfterLoop(olds, ReferencesOf(c.status), c.spec.scaleDownDelayRevisionLimit, c.env.now, c.spec.Replicas())[j].spec == n
  {
    hide Others, NewestFirst, SyncReplicasOnly, Find, MaxRevision, NewCount, IsStillReferenced;
    var c := ContextOf(t.spec, t.k, G.NewRSOf(t), env);
    var others := Others(c, c.allRSs);
    LoopVisitsOthers(c);
    if c.spec.scaleDownDelayRevisionLimit.Some? {
      OthersAreDistinct(c, c.allRSs);
      SameLength(others);
      CountsDelayed(t, env, t.k.sets, NewestFirst(others)[j].revision);
      KeptExactlyWhen(others, ReferencesOf(c.status), c.spec.scaleDownDelayRevisionLimit, c.env.now, c.spec.Replicas(), j);
    }
  }

  lemma {:induction false} StageGives(t: G.Traced, env: Env, sets: seq<ReplicaSet>, i: nat, n: int)
    requires i < |sets| && i < |t.k.sets| && sets[i] == t.k.sets[i] && !OldSetsAreKept(t, env) && t.spec.templateHash != ""
    requires IsOld(t, i) && Gets(t, sets[i], env.now, n)
    requires t.spec.scaleDownDelayRevisionLimit.Some? ==> DistinctRevisions(t.k.sets) && AllHashed(t.k.sets)
    ensures var c := ContextOf(t.spec, t.k, G.NewRSOf(t), env);
            |OldScaledDown(c, sets)| == |sets| && OldScaledDown(c, sets)[i].spec == n
  {
    hide AfterLoop, NewestFirst, Others, MergedAt, MayScaleDown, SyncReplicasOnly, OldSetsAreKept, Find, MaxRevision,
         NewCount,
         DistinctRevisions, AllHashed, NewerDelayedSets, Halted;
    var c, rs := ContextOf(t.spec, t.k, G.NewRSOf(t), env), sets[i];
    var olds, refs := NewestFirst(Others(c, c.allRSs)), ReferencesOf(c.status);
    var after := AfterLoop(olds, refs, c.spec.scaleDownDelayRevisionLimit, c.env.now, c.spec.Replicas());
    KeptExactly(t, env);
    NewestFirstSorts(Others(c, c.allRSs));
    LoopKeepsReferenced(olds, refs, c.spec.scaleDownDelayRevisionLimit, c.env.now, c.spec.Replicas());
    LoopVisitsOthers(c);
    forall j | 0 <= j < |olds| && olds[j].hash == rs.hash ensures olds[j] == rs && after[j].spec == n {
      assert olds[j] in multiset(Others(c, c.allRSs));
      LoopGives(t, env, j, n);
    }
    if IsOther(c, rs) {
      OthersHasAll(c, c.allRSs, rs);
      assert rs in multiset(olds);
      var j :| 0 <= j < |olds| && olds[j] == rs;
      MergedGives(rs, olds, after, |olds|, n);
    } else {
      MergedStays(rs, olds, after, |olds|, n);
    }
  }

  lemma {:induction false} StagesSizeOld(t: G.Traced, env: Env, sets: seq<ReplicaSet>, i: nat, n: int)
    requires i < |t.k.sets| && IsOld(t, i) && GetsPastOldSets(t, env) && Gets(t, t.k.sets[i], env.now, n) && t.spec.templateHash != ""
    requires t.spec.scaleDownDelayRevisionLimit.Some? ==> DistinctRevisions(t.k.sets) && AllHashed(t.k.sets)
    requires t.k.sets <= sets
    ensures var after := ReplicaSetsAfter(ContextOf(t.spec, t.k, G.NewRSOf(t), env), sets);
            |after| == |sets| && after[i].spec == if OldSetsAreKept(t, env) then t.k.sets[i].spec else n
  {
    hide Merged, AfterLoop, NewestFirst, Others, NewCount, Scaled, Find, Gets, OldSetsAreKept, Halted, MayScaleDown,
         MaxRevision,
         SyncReplicasOnly, DistinctRevisions, AllHashed;
    var c, r := ContextOf(t.spec, t.k, G.NewRSOf(t), env), t.spec.Replicas();
    KeptExactly(t, env);
    var s0 := WithoutDeadlines(sets, c.newRS, c.stableRS);
    var s1 := if c.active.Some? && Find(c.allRSs, c.active.value).Some? then ScaledTo(s0, c.active.value, r, r) else s0;
    var s2 := if c.newRS.Some? then ScaledTo(s1, c.newRS.value.hash, NewCount(c.spec, c.status, c.allRSs, c.newRS.value.hash), r) else s1;
    BlueGreenSizes.NothingFound(c.allRSs);
    assert s2[i] == t.k.sets[i];
    if MayScaleDown(c) {
      StageGives(t, env, s2, i, n);
    }
  }

  // What becomes of an old set with pods: it gets all of them exactly when its deadline is ahead and fewer sets than
  // the
  // limit are delayed and newer; else it is scaled to zero; unless old sets are kept as they are. One without stays so.
  lemma {:induction false} OldSetIsSized(t: G.Traced, env: Env, i: nat, n: int)
    requires i < |t.k.sets| && IsOld(t, i) && GetsPastOldSets(t, env) && Gets(t, t.k.sets[i], env.now, n) && t.spec.templateHash != ""
    requires t.spec.scaleDownDelayRevisionLimit.Some? ==> DistinctRevisions(t.k.sets) && AllHashed(t.k.sets)
    ensures var sets := G.Next(t, G.Reconcile(env)).k.sets;
            i < |sets| && sets[i].spec == if OldSetsAreKept(t, env) then t.k.sets[i].spec else n
  {
    hide ReplicaSetsAfter, NewCount, Find, Gets, OldSetsAreKept, IsOld, MaxRevision, SyncReplicasOnly, Halted, Synced,
         ActiveAfter,
         PauseRequests, DistinctRevisions, AllHashed;
    HaltedExactly(t);
    StagesSizeOld(t, env, t.k.sets, i, n);
    StagesSizeOld(t, env, t.k.sets + [G.NewSet(t)], i, n);
  }

  /******* Deadlines *******/

  // A former stable set is kept for the configured delay, 30 seconds by default; a delay of 0 gives no deadline.
  function DelayedUntil(spec: Spec, now: int): Deadline {
    if spec.scaleDownDelaySeconds == Some(0) then NoDeadline
    else if spec.scaleDownDelaySeconds.Some? then At(now + spec.scaleDownDelaySeconds.value)
    else At(now + 30)
  }

  // The deadlines of the sets with hash h are d.
  predicate Carry(sets: seq<ReplicaSet>, h: string, d: Deadline) {
    forall i :: 0 <= i < |sets| && sets[i].hash == h ==> sets[i].deadline == d
  }

  // The same sets in b as in a.
  predicate SameHashes(a: seq<ReplicaSet>, b: seq<ReplicaSet>) {
    |a| == |b| && forall i :: 0 <= i < |a| ==> b[i].hash == a[i].hash
  }

  lemma {:induction false} ScalingAddsNoDeadline(sets: seq<ReplicaSet>, h: string, hash: string, n: int, replicas: int)
    ensures SameHashes(sets, ScaledTo(sets, hash, n, replicas))
    ensures Carry(sets, h, NoDeadline) ==> Carry(ScaledTo(sets, hash, n, replicas), h, NoDeadline)
  {
  }

  lemma {:induction false} LeavingAddsNoDeadline(a: seq<ReplicaSet>, b: seq<ReplicaSet>, h: string)
    requires Leaves(a, b, h)
    ensures SameHashes(a, b) && (Carry(a, h, NoDeadline) ==> Carry(b, h, NoDeadline))
  {
  }

  lemma {:induction false} DeadlinesAreDropped(c: Context, sets: seq<ReplicaSet>)
    ensures SameHashes(sets, WithoutDeadlines(sets, c.newRS, c.stableRS))
    ensures c.newRS.Some? ==> Carry(WithoutDeadlines(sets, c.newRS, c.stableRS), c.newRS.value.hash, NoDeadline)
    ensures c.stableRS.Some? ==> Carry(WithoutDeadlines(sets, c.newRS, c.stableRS), c.stableRS.value.hash, NoDeadline)
  {
  }

  lemma {:induction false} SameAsBefore(a: seq<ReplicaSet>, b: seq<ReplicaSet>, c: seq<ReplicaSet>)
    requires SameHashes(a, b) && SameHashes(b, c)
    ensures SameHashes(a, c)
  {
  }

  lemma {:induction false} StagesDropDeadlines(c: Context, sets: seq<ReplicaSet>, h: string)
    requires h != "" && ((c.newRS.Some? && c.newRS.value.hash == h) || (c.stableRS.Some? && c.stableRS.value.hash == h))
    requires !c.env.failure.AtStart? && !c.env.failure.AfterCreate?
    ensures Carry(ReplicaSetsAfter(c, sets), h, NoDeadline) && SameHashes(sets, ReplicaSetsAfter(c, sets))
  {
    hide OldScaledDown, NewCount, Find, Carry, SameHashes, Leaves, WithoutDeadlines, ScaledTo;
    var r := c.spec.Replicas();
    var s0 := WithoutDeadlines(sets, c.newRS, c.stableRS);
    DeadlinesAreDropped(c, sets);
    var s1 := if c.active.Some? && Find(c.allRSs, c.active.value).Some? then ScaledTo(s0, c.active.value, r, r) else s0;
    if c.active.Some? && Find(c.allRSs, c.active.value).Some? {
      ScalingAddsNoDeadline(s0, h, c.active.value, r, r);
      SameAsBefore(sets, s0, s1);
    }
    var s2 := s1;
    if c.newRS.Some? {
      var n := NewCount(c.spec, c.status, c.allRSs, c.newRS.value.hash);
      s2 := ScaledTo(s1, c.newRS.value.hash, n, r);
      ScalingAddsNoDeadline(s1, h, c.newRS.value.hash, n, r);
      SameAsBefore(sets, s1, s2);
    }
    BlueGreenSizes.OldStageLeaves(c, s2, h);
    LeavingAddsNoDeadline(s2, OldScaledDown(c, s2), h);
    SameAsBefore(sets, s2, OldScaledDown(c, s2));
  }

  lemma {:induction false} NoneCarries(a: seq<ReplicaSet>, b: seq<ReplicaSet>, h: string)
    requires SameHashes(a, b) && !exists i :: 0 <= i < |a| && a[i].hash == h
    ensures Carry(b, h, NoDeadline)
  {
  }

  lemma {:induction false} DelayIsGiven(sets: seq<ReplicaSet>, h: string, spec: Spec, now: int)
    ensures Carry(WithDelay(sets, h, spec, now), h, DelayedUntil(spec, now))
    ensures forall other :: other != h && Carry(sets, other, NoDeadline) ==> Carry(WithDelay(sets, h, spec, now), other, NoDeadline)
  {
  }

  lemma {:induction false} SyncMovesTo(c: Context, active: Option<string>, req: Requests)
    ensures Synced(c, active, req).stableHash in {c.status.stableHash, CurrentHash(c)}
  {
    hide ShouldPromote, Calculated, CheckpointAfter;
  }

  // A reconcile takes the deadlines off the new and the stable set; if the stable hash moves, the set that was stable
  // and has pods is given one.
  lemma {:induction false} DeadlinesAreSet(t: G.Traced, env: Env)
    requires Halted(t) || t.k.status.currentPodHash in {"", t.spec.templateHash}
    requires !env.failure.AtStart? && !env.failure.AfterCreate? && t.spec.templateHash != ""
    requires t.k.status.stableHash != "" && Find(t.k.sets, t.k.status.stableHash).Some?
    ensures var k', stable := G.Next(t, G.Reconcile(env)).k, t.k.status.stableHash;
            && Carry(k'.sets, t.spec.templateHash, NoDeadline)
            && Carry(k'.sets, stable, if k'.status.stableHash != stable && Find(t.k.sets, stable).value.spec > 0 then DelayedUntil(t.spec, env.now)
                                      else NoDeadline)
  {
    hide ReplicaSetsAfter, NewCount, Find, MaxRevision, SyncReplicasOnly, Halted, ActiveAfter, PauseRequests, Synced,
         Carry, WithDelay;
    HaltedExactly(t);
    var c, stable := ContextOf(t.spec, t.k, G.NewRSOf(t), env), t.k.status.stableHash;
    var sets := if Halted(t) || Find(t.k.sets, t.spec.templateHash).Some? then t.k.sets else t.k.sets + [G.NewSet(t)];
    StagesDropDeadlines(c, sets, stable);
    if G.NewRSOf(t).Some? {
      StagesDropDeadlines(c, sets, t.spec.templateHash);
    } else {
      FindFinds(t.k.sets, t.spec.templateHash);
      NoneCarries(sets, ReplicaSetsAfter(c, sets), t.spec.templateHash);
    }
    DelayIsGiven(ReplicaSetsAfter(c, sets), stable, t.spec, env.now);
    if G.Persists(env) {
      G.PersistedNamesTemplate(t, env);
      SyncMovesTo(c, if Halted(t) then t.k.active else ActiveAfter(c), if Halted(t) then NO_REQUESTS else Combined(PauseRequests(c), env.analysis));
    }
  }
}
