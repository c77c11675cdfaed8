// A run in which a blue-green preview checkpoint promotes a version that nobody approved: the approval of version b is
// kept through a change of the template to c.
module BlueGreenApproval {
  import opened Wrappers
  import opened ReplicaSets
  import opened ScaleDownDelay
  import opened Pause
  import opened BlueGreen
  import G = BlueGreenGate

  // Two replicas, manual promotion, one preview pod.
  function Manual(hash: string): Spec {
    Spec(Some(2), false, hash, Some(false), 0, Some(1), false, false, None, None)
  }

  function Set(hash: string, revision: int, spec: int, available: int): ReplicaSet {
    ReplicaSet(hash, hash, revision, spec, available, Some(2), NoDeadline)
  }

  const CALM := Env(true, true, true, true, NO_REQUESTS, Nowhere, 0)

  const A := Set("a", 1, 2, 2)

  function About(hash: string, checkpoint: bool, pause: PauseStatus): Status {
    Status("a", hash, "a", checkpoint, false, pause)
  }

  const PAUSED := PauseStatus(false, None, true, [PauseCondition(BlueGreenPause, 0)])

  // The user approves version b, whose preview pod is up, and then changes the template to c.
  function ApproveThenEdit(): seq<G.Event> {
    [G.Reconcile(CALM), G.PodsChange([A, Set("b", 2, 1, 1)]), G.Reconcile(CALM), G.Event.UserResumes, G.Reconcile(CALM),
     G.UserEdits(Manual("c")), G.Reconcile(CALM), G.Reconcile(CALM), G.PodsChange([A, Set("b", 2, 0, 0), Set("c", 3, 2, 2)]),
     G.Reconcile(CALM)]
  }

  function States(): seq<G.Traced> {
    var b0, b1, b2 := Set("b", 2, 1, 0), Set("b", 2, 1, 1), Set("b", 2, 0, 1);
    var c0, c1, c2 := Set("c", 3, 1, 0), Set("c", 3, 2, 0), Set("c", 3, 2, 2);
    var s0 := About("a", false, NEVER_PAUSED);
    var s1 := About("b", false, NEVER_PAUSED);
    var s3 := About("b", false, PAUSED);
    var s4 := About("b", false, PAUSED.(conditions := []));
    var s5 := About("b", true, NEVER_PAUSED);
    var s7 := About("c", true, NEVER_PAUSED);
    var last := G.Traced(Manual("c"), Cluster(s7, [A, Set("b", 2, 0, 0), c2], Some("a")), false, "b");
    [G.Traced(Manual("b"), Cluster(s0, [A], Some("a")), false, ""),
     G.Traced(Manual("b"), Cluster(s1, [A, b0], Some("a")), false, ""),
     G.Traced(Manual("b"), Cluster(s1, [A, b1], Some("a")), false, ""),
     G.Traced(Manual("b"), Cluster(s3, [A, b1], Some("a")), false, ""),
     G.Traced(Manual("b"), Cluster(s4, [A, b1], Some("a")), true, ""),
     G.Traced(Manual("b"), Cluster(s5, [A, b1], Some("a")), false, "b"),
     G.Traced(Manual("c"), Cluster(s5, [A, b1], Some("a")), false, "b"),
     G.Traced(Manual("c"), Cluster(s7, [A, b1, c0], Some("a")), false, "b"),
     G.Traced(Manual("c"), Cluster(s7, [A, b2, c1], Some("a")), false, "b"),
     last,
     G.Next(last, G.Reconcile(CALM))]
  }

  lemma {:induction false} FindIn(x: ReplicaSet, y: ReplicaSet, z: ReplicaSet, hash: string)
    requires hash != ""
    ensures Find([x], hash) == if x.hash == hash then Some(x) else None
    ensures Find([x, y], hash) == if y.hash == hash then Some(y) else Find([x], hash)
    ensures Find([x, y, z], hash) == if z.hash == hash then Some(z) else Find([x, y], hash)
  {
    assert [x][..0] == [] && [x, y][..1] == [x] && [x, y, z][..2] == [x, y];
  }

  lemma {:induction false} MaxRevisionOf(x: ReplicaSet, y: ReplicaSet)
    requires 0 <= x.revision <= y.revision
    ensures MaxRevision([x]) == x.revision && MaxRevision([x, y]) == y.revision
  {
    assert [x][..0] == [] && [x, y][..1] == [x];
  }

  // Both reconciles that notice a new template.
  lemma {:induction false} Noticing(sets: seq<ReplicaSet>, before: string, hash: string, checkpoint: bool,
                                    approved: string)
    requires hash != before && hash != "a" && before != "" && hash != ""
    requires Find(sets, hash).None? && Find(sets, "a").Some?
    requires !ScalingEvent(Manual(hash), sets)
    ensures var t := G.Traced(Manual(hash), Cluster(About(before, checkpoint, NEVER_PAUSED), sets, Some("a")), false, approved);
            G.Next(t, G.Reconcile(CALM)) ==
            t.(k := Cluster(About(hash, checkpoint, NEVER_PAUSED), sets + [Set(hash, MaxRevision(sets) + 1, 1, 0)], Some("a")))
  {
    hide Find, MaxRevision, ScalingEvent;
    var k := Cluster(About(before, checkpoint, NEVER_PAUSED), sets, Some("a"));
    assert !SyncReplicasOnly(Manual(hash), k);
    assert Created(Manual(hash), k.status, sets) == Set(hash, MaxRevision(sets) + 1, 1, 0);
    var c := ContextOf(Manual(hash), k, Some(Created(Manual(hash), k.status, sets)), CALM);
    assert Changed(c);
    assert Synced(c, Some("a"), NO_REQUESTS) == About(hash, checkpoint, NEVER_PAUSED);
  }

  lemma {:induction false} OthersIn(c: Context, x: ReplicaSet, y: ReplicaSet, z: ReplicaSet)
    requires !IsOther(c, x) && !IsOther(c, z)
    ensures Others(c, [x]) == []
    ensures Others(c, [x, y]) == if IsOther(c, y) then [y] else []
    ensures Others(c, [x, y, z]) == if IsOther(c, y) then [y] else []
  {
    hide IsOther;
    assert [x][..0] == [] && [x, y][..1] == [x] && [x, y, z][..2] == [x, y];
  }

  // Version b is up at its preview size: nothing is scaled.
  predicate PreviewUp(c: Context, b1: ReplicaSet) {
    && b1 == Set("b", 2, 1, 1) && c.allRSs == [A, b1] && c.newRS == Some(b1) && c.stableRS == Some(A) && c.active == Some("a")
    && c.spec == Manual("b") && c.env == CALM
    && c.status.activeSelector == "a" && c.status.currentPodHash == "b" && !c.status.checkpoint
  }

  lemma {:induction false} PreviewCount(c: Context, b1: ReplicaSet)
    requires PreviewUp(c, b1)
    ensures NewCount(c.spec, c.status, c.allRSs, "b") == 1 && ReadyForPause(c) && ActiveAfter(c) == Some("a")
    ensures Find(c.allRSs, "a").Some?
  {
    hide Find, PauseRequests, PauseCompleted;
    FindIn(A, b1, A, "a");
  }

  lemma {:induction false} PreviewStages(c: Context, b1: ReplicaSet)
    requires PreviewUp(c, b1)
    ensures WithoutDeadlines([A, b1], c.newRS, c.stableRS) == [A, b1]
    ensures ScaledTo([A, b1], "a", 2, 2) == [A, b1] == ScaledTo([A, b1], "b", 1, 2)
  {
  }

  lemma {:induction false} PreviewOthers(c: Context, b1: ReplicaSet)
    requires PreviewUp(c, b1)
    ensures OldScaledDown(c, [A, b1]) == [A, b1]
  {
    hide AfterLoop, MayScaleDown, Others, Merged, ReferencesOf;
    OthersIn(c, A, b1, A);
    NothingToMerge(c, [A, b1]);
  }

  lemma {:induction false} NothingToMerge(c: Context, sets: seq<ReplicaSet>)
    ensures NewestFirst([]) == []
    ensures Merged(sets, [], AfterLoop([], ReferencesOf(c.status), c.spec.scaleDownDelayRevisionLimit, c.env.now, c.spec.Replicas())) ==
            sets
  {
  }

  lemma {:induction false} PreviewIsUp(c: Context, b1: ReplicaSet)
    requires PreviewUp(c, b1)
    ensures ReadyForPause(c) && ActiveAfter(c) == Some("a") && ReplicaSetsAfter(c, [A, b1]) == [A, b1]
  {
    hide ReadyForPause, ActiveAfter, NewCount, Find, WithoutDeadlines, ScaledTo, OldScaledDown;
    PreviewCount(c, b1);
    PreviewStages(c, b1);
    PreviewOthers(c, b1);
  }

  // The status after a reconcile of version b, for the pause requests that it makes.
  lemma {:induction false} PreviewStatus(c: Context, req: Requests)
    requires c.newRS == Some(Set("b", 2, 1, 1)) && c.stableRS == Some(A)
    requires c.spec == Manual("b") && c.env == CALM && c.status.stableHash == "a" && c.status.currentPodHash == "b"
    requires !c.status.checkpoint && !c.status.promoteFull && !c.status.pause.abort
    ensures Synced(c, Some("a"), req) ==
            Status("a", "b", "a", PauseCompleted(c.spec, c.status, req, 0), false, Calculated(c.status.pause, req, 0))
  {
    hide Calculated, PauseCompleted;
  }

  // The reconcile of version b at its preview size, for either state of the pause.
  lemma {:induction false} PreviewReconcile(t: G.Traced, req: Requests)
    requires t.spec == Manual("b") && t.k.sets == [A, Set("b", 2, 1, 1)] && t.k.active == Some("a")
    requires t.k.status == About("b", false, t.k.status.pause) && !t.k.status.pause.abort
    requires t.k.status.pause.conditions == []
    requires req == if t.k.status.pause.controllerPause then NO_REQUESTS.(remove := [BlueGreenPause])
             else NO_REQUESTS.(add := [BlueGreenPause])
    ensures RolledOut(t.spec, t.k, CALM) ==
            t.k.(status := Status("a", "b", "a", PauseCompleted(t.spec, t.k.status, req, 0), false,
                                  Calculated(t.k.status.pause, req, 0)))
  {
    hide ReplicaSetsAfter, ActiveAfter, Find, NewCount, ReadyForPause, Calculated, Synced;
    var b1 := Set("b", 2, 1, 1);
    FindIn(A, b1, A, "a");
    FindIn(A, b1, A, "b");
    var c := ContextOf(t.spec, t.k, Some(b1), CALM);
    PreviewIsUp(c, b1);
    assert Combined(PauseRequests(c), NO_REQUESTS) == req;
    PreviewStatus(c, req);
  }

  lemma {:induction false} AddsPause()
    ensures Calculated(NEVER_PAUSED, NO_REQUESTS.(add := [BlueGreenPause]), 0) == PAUSED
  {
    assert Kept([], [], 0) == [];
    assert Added([], [BlueGreenPause], 0, 1) == Added([], [BlueGreenPause], 0, 0) + [PauseCondition(BlueGreenPause, 0)];
  }

  lemma {:induction false} StepPauses()
    ensures G.Next(States()[2], G.Reconcile(CALM)) == States()[3]
  {
    hide RolledOut;
    PreviewReconcile(States()[2], NO_REQUESTS.(add := [BlueGreenPause]));
    AddsPause();
  }

  lemma {:induction false} StepResumes()
    ensures G.Next(States()[4], G.Reconcile(CALM)) == States()[5]
  {
    hide RolledOut;
    PreviewReconcile(States()[4], NO_REQUESTS.(remove := [BlueGreenPause]));
    assert Kept([], [BlueGreenPause], 0) == [] && Added([], [], 0, 0) == [];
  }

  lemma {:induction false} OneIsSorted(b: ReplicaSet)
    ensures NewestFirst([b]) == [b]
  {
    assert [b][1..] == [];
  }

  lemma {:induction false} MergesOne(x: ReplicaSet, b: ReplicaSet, z: ReplicaSet, b': ReplicaSet)
    requires x.hash != b.hash && z.hash != b.hash && b' != b
    ensures Merged([x, b, z], [b], [b']) == [x, b', z]
  {
    assert forall rs: ReplicaSet :: MergedAt(rs, [b], [b'], 0) == rs;
    assert forall rs: ReplicaSet :: MergedAt(rs, [b], [b'], 1) == if b.hash == rs.hash then b' else rs;
  }

  // Version c is about to be scaled up, and b goes.
  predicate ComingUp(c: Context, b: ReplicaSet, cc: ReplicaSet) {
    && b == Set("b", 2, 1, 1) && cc == Set("c", 3, 1, 0)
    && c.allRSs == [A, b, cc] && c.newRS == Some(cc) && c.stableRS == Some(A) && c.active == Some("a")
    && c.spec == Manual("c") && c.env == CALM && c.status == About("c", true, NEVER_PAUSED)
  }

  lemma {:induction false} ComingCount(c: Context, b: ReplicaSet, cc: ReplicaSet)
    requires ComingUp(c, b, cc)
    ensures NewCount(c.spec, c.status, c.allRSs, "c") == 2 && !ReadyForPause(c) && ActiveAfter(c) == Some("a")
    ensures Find(c.allRSs, "a").Some?
  {
    hide Find, PauseRequests, PauseCompleted;
    FindIn(A, b, cc, "a");
  }

  lemma {:induction false} ComingStages(c: Context, b: ReplicaSet, cc: ReplicaSet)
    requires ComingUp(c, b, cc)
    ensures WithoutDeadlines([A, b, cc], c.newRS, c.stableRS) == [A, b, cc] == ScaledTo([A, b, cc], "a", 2, 2)
    ensures ScaledTo([A, b, cc], "c", 2, 2) == [A, b, Set("c", 3, 2, 0)]
  {
  }

  lemma {:induction false} LoopDrops(c: Context, b: ReplicaSet, cc: ReplicaSet)
    requires ComingUp(c, b, cc)
    ensures AfterLoop([b], ReferencesOf(c.status), None, 0, 2) == [Set("b", 2, 0, 1)]
  {
  }

  lemma {:induction false} ComingOthers(c: Context, b: ReplicaSet, cc: ReplicaSet)
    requires ComingUp(c, b, cc)
    ensures OldScaledDown(c, [A, b, Set("c", 3, 2, 0)]) == [A, Set("b", 2, 0, 1), Set("c", 3, 2, 0)]
  {
    hide Merged, NewestFirst, AfterLoop, ReferencesOf, Others;
    OthersIn(c, A, b, cc);
    OneIsSorted(b);
    LoopDrops(c, b, cc);
    MergesOne(A, b, Set("c", 3, 2, 0), Set("b", 2, 0, 1));
  }

  lemma {:induction false} ScalingUp(c: Context, b: ReplicaSet, cc: ReplicaSet)
    requires ComingUp(c, b, cc)
    ensures !ReadyForPause(c) && ActiveAfter(c) == Some("a")
    ensures ReplicaSetsAfter(c, [A, b, cc]) == [A, Set("b", 2, 0, 1), Set("c", 3, 2, 0)]
  {
    hide ReadyForPause, ActiveAfter, NewCount, Find, WithoutDeadlines, ScaledTo, OldScaledDown;
    ComingCount(c, b, cc);
    ComingStages(c, b, cc);
    ComingOthers(c, b, cc);
  }

  lemma {:induction false} StepScalingUp()
    ensures G.Next(States()[7], G.Reconcile(CALM)) == States()[8]
  {
    hide ReplicaSetsAfter, ActiveAfter, Find, NewCount, ReadyForPause;
    var t := States()[7];
    var b, cc := Set("b", 2, 1, 1), Set("c", 3, 1, 0);
    FindIn(A, b, cc, "a");
    FindIn(A, b, cc, "c");
    var c := ContextOf(t.spec, t.k, Some(cc), CALM);
    ScalingUp(c, b, cc);
    assert !SyncReplicasOnly(t.spec, t.k);
    assert !Changed(c);
    assert Combined(PauseRequests(c), NO_REQUESTS) == NO_REQUESTS;
    assert Kept([], [], 0) == [] && Added([], [], 0, 0) == [];
    assert Synced(c, Some("a"), NO_REQUESTS) == t.k.status;
  }

  lemma {:induction false} StepSwitch()
    ensures G.Next(States()[9], G.Reconcile(CALM)).k.active == Some("c")
  {
    hide ReplicaSetsAfter, Find, Synced, DelayedAfterSync;
    var t := States()[9];
    var b, cc := Set("b", 2, 0, 0), Set("c", 3, 2, 2);
    FindIn(A, b, cc, "a");
    FindIn(A, b, cc, "c");
    var c := ContextOf(t.spec, t.k, Some(cc), CALM);
    assert !SyncReplicasOnly(t.spec, t.k);
    assert !Changed(c);
    assert NewCount(c.spec, c.status, c.allRSs, "c") == 2;
    assert ActiveAfter(c) == Some("c");
  }

  lemma {:induction false} StepNoticesB()
    ensures G.Next(States()[0], G.Reconcile(CALM)) == States()[1]
  {
    hide Reconciled;
    FindIn(A, A, A, "a");
    FindIn(A, A, A, "b");
    MaxRevisionOf(A, A);
    Noticing([A], "a", "b", false, "");
    assert [A] + [Set("b", 2, 1, 0)] == [A, Set("b", 2, 1, 0)];
  }

  lemma {:induction false} StepNoticesC()
    ensures G.Next(States()[6], G.Reconcile(CALM)) == States()[7]
  {
    hide Reconciled;
    var b := Set("b", 2, 1, 1);
    FindIn(A, b, A, "a");
    FindIn(A, b, A, "c");
    MaxRevisionOf(A, b);
    Noticing([A, b], "b", "c", true, "b");
    assert [A, b] + [Set("c", 3, 1, 0)] == [A, b, Set("c", 3, 1, 0)];
  }

  lemma {:induction false} Steps(i: nat)
    requires i < 10
    ensures |States()| == 11 && |ApproveThenEdit()| == 10
    ensures G.Sensible(ApproveThenEdit()[i]) && G.Next(States()[i], ApproveThenEdit()[i]) == States()[i + 1]
  {
    hide Reconciled;
    if i == 0 { StepNoticesB(); }
    if i == 2 { StepPauses(); }
    if i == 4 { StepResumes(); }
    if i == 6 { StepNoticesC(); }
    if i == 7 { StepScalingUp(); }
  }

  // A run in which the controller promotes version c although promotion is manual and no user has resumed the rollout
  // since the template was changed to c: the user's approval of version b, kept in the checkpoint, did it.
  lemma {:induction false} ApprovalOutlivesTemplate()
    ensures G.IsTrace(States(), ApproveThenEdit())
    ensures forall i :: 0 <= i <= 10 ==> States()[i].spec.autoPromotionEnabled == Some(false)
    ensures States()[5].k.status.currentPodHash == States()[5].spec.templateHash == "b" && States()[5].k.status.checkpoint
    ensures States()[6].spec.templateHash == "c" && (forall i :: 5 <= i < 10 ==> !ApproveThenEdit()[i].UserResumes?)
    ensures States()[9].k.active == Some("a") && States()[10].k.active == Some("c")
  {
    hide Reconciled;
    forall i | 0 <= i < 10
      ensures G.Sensible(ApproveThenEdit()[i]) && States()[i + 1] == G.Next(States()[i], ApproveThenEdit()[i])
    {
      Steps(i);
    }
    StepSwitch();
  }
}
