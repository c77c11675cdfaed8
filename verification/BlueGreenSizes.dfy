// The size of the new set of a blue-green rollout, in plain numbers.
module BlueGreenSizes {
  import opened Wrappers
  import opened ReplicaSets
  import opened ScaleDownDelay
  import opened Pause
  import opened BlueGreen
  import opened BlueGreenCapacity
  import opened BlueGreenStandby
  import G = BlueGreenGate

  // The new set is a preview: its size is configured, another set is behind the active service, and it is not yet to be
  // scaled up, because the controller has not seen the version before, or the rollout is paused or has no checkpoint.
  predicate IsPreview(spec: Spec, k: Cluster) {
    && spec.previewReplicaCount.Some?
    && k.status.activeSelector !in {"", spec.templateHash}
    && (exists i :: 0 <= i < |k.sets| && k.sets[i].hash == k.status.activeSelector)
    && (spec.templateHash != k.status.currentPodHash || spec.paused || k.status.pause.conditions != [] || !k.status.checkpoint)
  }

  predicate WantsNew(spec: Spec, k: Cluster, n: int) {
    if IsPreview(spec, k) then n == spec.previewReplicaCount.value
    else if spec.replicas.Some? then n == spec.replicas.value else n == 1
  }

  lemma {:induction false} NewCountIsWanted(spec: Spec, k: Cluster, n: int)
    requires WantsNew(spec, k, n)
    ensures NewCount(spec, k.status, k.sets, spec.templateHash) == n
  {
    hide Find;
    if k.status.activeSelector != "" {
      FindFinds(k.sets, k.status.activeSelector);
    } else {
      NothingFound(k.sets);
    }
  }

  lemma {:induction false} NothingFound(sets: seq<ReplicaSet>)
    ensures Find(sets, "").None?
  {
  }

  // A set that does not exist yet is created at that size.
  lemma {:induction false} NewSetIsCreated(spec: Spec, k: Cluster, env: Env, n: int)
    requires WantsNew(spec, k, n) && Find(k.sets, spec.templateHash).None? && !SyncReplicasOnly(spec, k)
    requires env.failure.AfterCreate? || (env.failure.Nowhere? && k.status.currentPodHash !in {"", spec.templateHash})
    ensures var sets := Reconciled(spec, k, env).sets;
            && |sets| == |k.sets| + 1
            && var rs := sets[|k.sets|];
               rs.hash == spec.templateHash && rs.spec == n && rs.available == 0 && rs.desired == Some(spec.Replicas())
               && forall i :: 0 <= i < |k.sets| ==> k.sets[i].revision < rs.revision
  {
    hide Find, NewCount, Synced, MaxRevision, SyncReplicasOnly;
    NewCountIsWanted(spec, k, n);
    MaxRevisionIsMax(k.sets);
  }

  lemma {:induction false} MaxRevisionIsMax(sets: seq<ReplicaSet>)
    ensures forall i :: 0 <= i < |sets| ==> sets[i].revision <= MaxRevision(sets)
  {
    if sets != [] {
      MaxRevisionIsMax(sets[..|sets| - 1]);
      assert forall i :: 0 <= i < |sets| - 1 ==> sets[i] == sets[..|sets| - 1][i];
    }
  }

  // The loop over old sets does not touch the new, the stable and the active one.
  lemma {:induction false} OldStageLeaves(c: Context, sets: seq<ReplicaSet>, h: string)
    requires Protected(c, h)
    ensures Leaves(sets, OldScaledDown(c, sets), h)
  {
    hide IsOther, AfterLoop, NewestFirst, Others, MergedAt, IsStillReferenced, MayScaleDown, Protected;
    if MayScaleDown(c) {
      var olds := NewestFirst(Others(c, c.allRSs));
      var refs := ReferencesOf(c.status);
      var after := AfterLoop(olds, refs, c.spec.scaleDownDelayRevisionLimit, c.env.now, c.spec.Replicas());
      LoopVisitsOthers(c);
      LoopKeepsReferenced(olds, refs, c.spec.scaleDownDelayRevisionLimit, c.env.now, c.spec.Replicas());
      forall i | 0 <= i < |sets|
        ensures MergedAt(sets[i], olds, after, |olds|).hash == sets[i].hash
        ensures sets[i].hash == h ==> MergedAt(sets[i], olds, after, |olds|) == sets[i]
      {
        MergedKeeps(c, sets[i], olds, after, |olds|);
      }
    }
  }

  // The sets with hash h ask for n pods and are annotated with the replicas.
  predicate Sized(sets: seq<ReplicaSet>, h: string, n: int, replicas: int) {
    forall i :: 0 <= i < |sets| && sets[i].hash == h ==> sets[i].spec == n && sets[i].desired == Some(replicas)
  }

  lemma {:induction false} StagesSizeNew(c: Context, sets: seq<ReplicaSet>)
    requires c.newRS.Some? && c.newRS.value.hash != ""
    requires !c.env.failure.AtStart? && !c.env.failure.AfterCreate? && !c.env.failure.AfterStable?
    ensures Sized(ReplicaSetsAfter(c, sets), c.newRS.value.hash, NewCount(c.spec, c.status, c.allRSs, c.newRS.value.hash), c.spec.Replicas())
  {
    hide OldScaledDown, Find, NewCount;
    var n, h := c.spec.Replicas(), c.newRS.value.hash;
    var s0 := WithoutDeadlines(sets, c.newRS, c.stableRS);
    var s1 := if c.active.Some? && Find(c.allRSs, c.active.value).Some? then ScaledTo(s0, c.active.value, n, n) else s0;
    OldStageLeaves(c, ScaledTo(s1, h, NewCount(c.spec, c.status, c.allRSs, h), n), h);
  }

  // A reconcile that gets past scaling the new set leaves it at the size that is wanted, annotated with the replicas.
  lemma {:induction false} NewSetIsSized(spec: Spec, k: Cluster, env: Env, n: int)
    requires WantsNew(spec, k, n) && spec.templateHash != "" && Find(k.sets, spec.templateHash).Some?
    requires SyncReplicasOnly(spec, k) || k.status.currentPodHash in {"", spec.templateHash}
    requires !env.failure.AtStart? && !env.failure.AfterCreate? && !env.failure.AfterStable?
    ensures Sized(Reconciled(spec, k, env).sets, spec.templateHash, n, spec.Replicas())
  {
    hide Find, NewCount, Synced, ReplicaSetsAfter, ActiveAfter, SyncReplicasOnly, PauseRequests;
    NewCountIsWanted(spec, k, n);
    var newRS := Find(k.sets, spec.templateHash);
    var c := ContextOf(spec, k, newRS, env);
    StagesSizeNew(c, k.sets);
  }
}
