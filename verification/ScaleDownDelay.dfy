// Old blue-green sets that are kept up until their deadline (rollout/bluegreen.go, rollout/sync.go).
module ScaleDownDelay {
  import opened Wrappers
  import opened ReplicaSets

  // The hashes that the status refers to.
  datatype References = References(stableHash: string, currentHash: string, activeHash: string) {
    predicate Holds(rs: ReplicaSet) { IsStillReferenced(stableHash, currentHash, activeHash, rs) }
  }

  // scaleReplicaSet: the size, the desired-replicas annotation, and no deadline on a set that is scaled to zero.
  function ScaleTo(rs: ReplicaSet, n: int, replicas: int): ReplicaSet {
    rs.(spec := n, desired := Some(replicas), deadline := if n == 0 then NoDeadline else rs.deadline)
  }

  predicate AnnotationsNeedUpdate(rs: ReplicaSet, replicas: int) {
    rs.desired != Some(replicas) || (replicas == 0 && rs.deadline != NoDeadline)
  }

  // scaleReplicaSetAndRecordEvent
  function Scaled(rs: ReplicaSet, n: int, replicas: int): ReplicaSet {
    if rs.spec == n && !AnnotationsNeedUpdate(rs, replicas) then rs else ScaleTo(rs, n, replicas)
  }

  // A set has the size it is scaled to; it loses its deadline when it is scaled to zero, or is at zero as the rollout
  // is.
  lemma {:induction false} ScalingSets(rs: ReplicaSet, n: int, replicas: int)
    ensures var rs' := Scaled(rs, n, replicas);
            && rs' == rs.(spec := n, desired := Some(replicas), deadline := rs'.deadline)
            && rs'.deadline == if n == 0 && (rs.spec != 0 || rs.desired != Some(replicas) || replicas == 0) then NoDeadline else rs.deadline
  {
  }

  /******* Newest revision first *******/

  function Insert(rs: ReplicaSet, sets: seq<ReplicaSet>): seq<ReplicaSet> {
    if sets == [] || rs.revision >= sets[0].revision then [rs] + sets else [sets[0]] + Insert(rs, sets[1..])
  }

  function NewestFirst(sets: seq<ReplicaSet>): seq<ReplicaSet> {
    if sets == [] then [] else Insert(sets[0], NewestFirst(sets[1..]))
  }

  predicate IsNewestFirst(sets: seq<ReplicaSet>) {
    forall i, j :: 0 <= i < j < |sets| ==> sets[i].revision >= sets[j].revision
  }

  lemma {:induction false} InsertPermutes(rs: ReplicaSet, sets: seq<ReplicaSet>)
    ensures multiset(Insert(rs, sets)) == multiset{rs} + multiset(sets)
  {
    if sets != [] && rs.revision < sets[0].revision {
      InsertPermutes(rs, sets[1..]);
      assert sets == [sets[0]] + sets[1..];
    }
  }

  // No set is newer than `revision`.
  predicate NoNewerThan(sets: seq<ReplicaSet>, revision: int) {
    forall i :: 0 <= i < |sets| ==> sets[i].revision <= revision
  }

  lemma {:induction false} InsertSorts(rs: ReplicaSet, sets: seq<ReplicaSet>)
    requires IsNewestFirst(sets)
    ensures IsNewestFirst(Insert(rs, sets))
    ensures forall revision :: rs.revision <= revision && NoNewerThan(sets, revision) ==> NoNewerThan(Insert(rs, sets), revision)
  {
    if sets != [] && rs.revision < sets[0].revision {
      InsertSorts(rs, sets[1..]);
      assert NoNewerThan(sets[1..], sets[0].revision);
      assert NoNewerThan(Insert(rs, sets[1..]), sets[0].revision);
      forall revision | rs.revision <= revision && NoNewerThan(sets, revision) ensures NoNewerThan(Insert(rs, sets), revision) {
        assert NoNewerThan(sets[1..], revision);
      }
    }
  }

  lemma {:induction false} NewestFirstSorts(sets: seq<ReplicaSet>)
    ensures IsNewestFirst(NewestFirst(sets)) && multiset(NewestFirst(sets)) == multiset(sets)
  {
    if sets != [] {
      NewestFirstSorts(sets[1..]);
      InsertPermutes(sets[0], NewestFirst(sets[1..]));
      InsertSorts(sets[0], NewestFirst(sets[1..]));
      assert sets == [sets[0]] + sets[1..];
    }
  }

  /******* The loop *******/

  predicate Delayed(rs: ReplicaSet, refs: References) { !refs.Holds(rs) && rs.deadline != NoDeadline }

  // The delayed sets among the first i.
  function DelayedBefore(sets: seq<ReplicaSet>, refs: References, i: nat): nat
    requires i <= |sets|
  {
    if i == 0 then 0 else DelayedBefore(sets, refs, i - 1) + if Delayed(sets[i - 1], refs) then 1 else 0
  }

  // scaleDownDelayRevisionLimit; None stands for no limit.
  predicate WithinLimit(n: int, limit: Option<int>) { limit.Some? ==> n <= limit.value }

  function DesiredCount(sets: seq<ReplicaSet>, refs: References, limit: Option<int>, now: int, replicas: int,
                        i: nat): int
    requires i < |sets|
  {
    if Delayed(sets[i], refs) && sets[i].deadline.At? && WithinLimit(DelayedBefore(sets, refs, i) + 1, limit)
       && sets[i].deadline.time > now
    then replicas else 0
  }

  function Visited(sets: seq<ReplicaSet>, refs: References, limit: Option<int>, now: int, replicas: int,
                   i: nat): ReplicaSet
    requires i < |sets|
  {
    var n := DesiredCount(sets, refs, limit, now, replicas, i);
    if refs.Holds(sets[i]) || sets[i].spec == n then sets[i] else ScaleTo(sets[i], n, replicas)
  }

  // The sets after the loop, in the order in which it visits them.
  function AfterLoop(sets: seq<ReplicaSet>, refs: References, limit: Option<int>, now: int,
                     replicas: int): seq<ReplicaSet> {
    seq(|sets|, i requires 0 <= i < |sets| => Visited(sets, refs, limit, now, replicas, i))
  }

  method ScaleDownLoop(oldRSs: seq<ReplicaSet>, refs: References, limit: Option<int>, now: int, replicas: int)
    returns (result: seq<ReplicaSet>, hasScaled: bool)
    ensures result == AfterLoop(NewestFirst(oldRSs), refs, limit, now, replicas)
    ensures hasScaled <==> result != NewestFirst(oldRSs)
  {
    hide NewestFirst, IsStillReferenced;
    var sets := NewestFirst(oldRSs);
    result := sets;
    hasScaled := false;
    var annotated := 0;
    for i := 0 to |sets|
      invariant |result| == |sets| && annotated == DelayedBefore(sets, refs, i)
      invariant forall j :: 0 <= j < i ==> result[j] == Visited(sets, refs, limit, now, replicas, j)
      invariant forall j :: i <= j < |sets| ==> result[j] == sets[j]
      invariant hasScaled <==> exists j :: 0 <= j < i && result[j] != sets[j]
    {
      var target := sets[i];
      if refs.Holds(target) { continue; }
      var desired := 0;
      if target.deadline != NoDeadline {
        annotated := annotated + 1;
        if target.deadline.Unreadable? {
        } else if limit.Some? && annotated > limit.value {
        } else if target.deadline.time > now {
          desired := replicas;
        }
      }
      if target.spec == desired { continue; }
      result := result[i := ScaleTo(target, desired, replicas)];
      hasScaled := true;
      assert result[i] != sets[i];
    }
  }

  /******* Who stays up *******/

  // How many sets that nothing refers to have a deadline and a higher revision.
  function NewerDelayed(sets: seq<ReplicaSet>, refs: References, revision: int): nat {
    if sets == [] then 0
    else NewerDelayed(sets[1..], refs, revision)
         + if !refs.Holds(sets[0]) && sets[0].deadline != NoDeadline && sets[0].revision > revision then 1 else 0
  }

  lemma {:induction false} NewerDelayedInsert(rs: ReplicaSet, sets: seq<ReplicaSet>, refs: References, revision: int)
    ensures NewerDelayed(Insert(rs, sets), refs, revision) == NewerDelayed([rs] + sets, refs, revision)
  {
    assert ([rs] + sets)[1..] == sets;
    if sets != [] && rs.revision < sets[0].revision {
      NewerDelayedInsert(rs, sets[1..], refs, revision);
      assert ([rs] + sets[1..])[1..] == sets[1..];
      assert Insert(rs, sets)[1..] == Insert(rs, sets[1..]);
    }
  }

  lemma {:induction false} NewerDelayedSorted(sets: seq<ReplicaSet>, refs: References, revision: int)
    ensures NewerDelayed(NewestFirst(sets), refs, revision) == NewerDelayed(sets, refs, revision)
  {
    if sets != [] {
      var rest := NewestFirst(sets[1..]);
      NewerDelayedSorted(sets[1..], refs, revision);
      NewerDelayedInsert(sets[0], rest, refs, revision);
      assert ([sets[0]] + rest)[1..] == rest;
    }
  }

  lemma {:induction false} NewerDelayedAppend(a: seq<ReplicaSet>, b: seq<ReplicaSet>, refs: References, revision: int)
    ensures NewerDelayed(a + b, refs, revision) == NewerDelayed(a, refs, revision) + NewerDelayed(b, refs, revision)
  {
    if a == [] {
      assert a + b == b;
    } else {
      assert (a + b)[1..] == a[1..] + b;
      NewerDelayedAppend(a[1..], b, refs, revision);
    }
  }

  lemma {:induction false} NoneNewer(sets: seq<ReplicaSet>, refs: References, revision: int)
    requires forall i :: 0 <= i < |sets| ==> sets[i].revision <= revision
    ensures NewerDelayed(sets, refs, revision) == 0
  {
    if sets != [] {
      NoneNewer(sets[1..], refs, revision);
    }
  }

  lemma {:induction false} AllNewer(sets: seq<ReplicaSet>, refs: References, revision: int, i: nat)
    requires i <= |sets| && forall j :: 0 <= j < i ==> sets[j].revision > revision
    ensures NewerDelayed(sets[..i], refs, revision) == DelayedBefore(sets, refs, i)
  {
    if i > 0 {
      AllNewer(sets, refs, revision, i - 1);
      assert sets[..i] == sets[..i - 1] + [sets[i - 1]];
      NewerDelayedAppend(sets[..i - 1], [sets[i - 1]], refs, revision);
    }
  }

  predicate DistinctRevisions(sets: seq<ReplicaSet>) {
    forall i, j :: 0 <= i < j < |sets| ==> sets[i].revision != sets[j].revision
  }

  // With the newest first, the delayed sets counted before a set are those that are newer.
  lemma {:induction false} CountedAreNewer(sets: seq<ReplicaSet>, refs: References, i: nat)
    requires IsNewestFirst(sets) && DistinctRevisions(sets) && i < |sets|
    ensures DelayedBefore(sets, refs, i) == NewerDelayed(sets, refs, sets[i].revision)
  {
    var revision := sets[i].revision;
    AllNewer(sets, refs, revision, i);
    NoneNewer(sets[i..], refs, revision);
    NewerDelayedAppend(sets[..i], sets[i..], refs, revision);
    assert sets == sets[..i] + sets[i..];
  }

  // Sorting by distinct revisions leaves them distinct.
  lemma {:induction false} SortedDistinct(sets: seq<ReplicaSet>)
    requires DistinctRevisions(sets)
    ensures DistinctRevisions(NewestFirst(sets))
  {
    NewestFirstSorts(sets);
    var sorted := NewestFirst(sets);
    forall i, j | 0 <= i < j < |sorted| ensures sorted[i].revision != sorted[j].revision {
      if sorted[i].revision == sorted[j].revision {
        assert sorted[i] in multiset(sets) && sorted[j] in multiset(sets);
        assert sorted[i] == sorted[j];
        MultiplicityOfTwo(sorted, i, j);
        OncePerRevision(sets, sorted[i]);
      }
    }
  }

  lemma {:induction false} MultiplicityOfTwo(sets: seq<ReplicaSet>, i: nat, j: nat)
    requires i < j < |sets| && sets[i] == sets[j]
    ensures multiset(sets)[sets[i]] >= 2
  {
    assert sets == sets[..j] + [sets[j]] + sets[j + 1..];
    assert sets[..j][i] == sets[i];
    assert sets[i] in multiset(sets[..j]);
  }

  lemma {:induction false} OncePerRevision(sets: seq<ReplicaSet>, rs: ReplicaSet)
    requires DistinctRevisions(sets)
    ensures multiset(sets)[rs] <= 1
  {
    if sets != [] {
      OncePerRevision(sets[1..], rs);
      assert sets == [sets[0]] + sets[1..];
      forall k | 0 <= k < |sets[1..]| ensures sets[1..][k] != sets[0] {
        assert sets[k + 1].revision != sets[0].revision;
      }
    }
  }

  // Whatever order the old sets come in: a set that nothing refers to is kept at full size exactly when its deadline
  // is still ahead and fewer delayed sets than the limit are newer; all others end at zero. So among the delayed
  // sets those that the limit cuts are older than those it keeps.
  lemma {:induction false} KeptExactlyWhen(oldRSs: seq<ReplicaSet>, refs: References, limit: Option<int>, now: int,
                                           replicas: int, i: nat)
    requires DistinctRevisions(oldRSs) && i < |oldRSs|
    ensures |NewestFirst(oldRSs)| == |oldRSs|
    ensures var sets := NewestFirst(oldRSs);
            var rs, rs' := sets[i], AfterLoop(sets, refs, limit, now, replicas)[i];
            if refs.Holds(rs) then rs' == rs
            else rs'.spec == if rs.deadline.At? && rs.deadline.time > now
                                && (limit.Some? ==> NewerDelayed(oldRSs, refs, rs.revision) < limit.value)
                             then replicas else 0
  {
    NewestFirstSorts(oldRSs);
    SameLength(oldRSs);
    SortedDistinct(oldRSs);
    var sets := NewestFirst(oldRSs);
    CountedAreNewer(sets, refs, i);
    NewerDelayedSorted(oldRSs, refs, sets[i].revision);
  }

  lemma {:induction false} SameLength(sets: seq<ReplicaSet>)
    ensures |NewestFirst(sets)| == |sets|
  {
    NewestFirstSorts(sets);
    assert |multiset(NewestFirst(sets))| == |NewestFirst(sets)| && |multiset(sets)| == |sets|;
  }

  // How many of the first i sets ask for pods although nothing refers to them.
  function StayingUp(sets: seq<ReplicaSet>, refs: References, i: nat): nat
    requires i <= |sets|
  {
    if i == 0 then 0 else StayingUp(sets, refs, i - 1) + if !refs.Holds(sets[i - 1]) && sets[i - 1].spec > 0 then 1 else 0
  }

  lemma {:induction false} StayingUpAreDelayed(sets: seq<ReplicaSet>, refs: References, limit: int, now: int,
                                               replicas: int, i: nat)
    requires i <= |sets| && limit >= 0
    ensures StayingUp(AfterLoop(sets, refs, Some(limit), now, replicas), refs, i) <= Min(limit, DelayedBefore(sets, refs, i))
  {
    if i > 0 {
      StayingUpAreDelayed(sets, refs, limit, now, replicas, i - 1);
    }
  }

  // After the loop no more unreferenced sets are up than the limit allows.
  lemma {:induction false} KeptWithinLimit(oldRSs: seq<ReplicaSet>, refs: References, limit: int, now: int,
                                           replicas: int)
    requires limit >= 0
    ensures var result := AfterLoop(NewestFirst(oldRSs), refs, Some(limit), now, replicas);
            StayingUp(result, refs, |result|) <= limit
  {
    var sets := NewestFirst(oldRSs);
    StayingUpAreDelayed(sets, refs, limit, now, replicas, |sets|);
  }

  // A set that the loop scales to zero loses its deadline, and one that it keeps still has it.
  lemma {:induction false} DeadlinesAfterLoop(sets: seq<ReplicaSet>, refs: References, limit: Option<int>, now: int,
                                              replicas: int, i: nat)
    requires i < |sets| && !refs.Holds(sets[i]) && sets[i].spec > 0 && replicas > 0
    ensures var rs := AfterLoop(sets, refs, limit, now, replicas)[i];
            && (rs.spec == 0 ==> rs.deadline == NoDeadline)
            && (rs.spec != 0 ==> rs.spec == replicas && rs.deadline.At? && rs.deadline.time > now)
  {
  }
}
