// The snapshot of a ReplicaSet that the reconcilers look at (utils/replicaset/replicaset.go).
module ReplicaSets {
  import opened Wrappers

  // The scale-down-deadline annotation, in seconds; it may not parse as a time.
  datatype Deadline = NoDeadline | At(time: int) | Unreadable

  // `spec` is the requested pod count, `available` the observed one; `desired` is the
  // desired-replicas annotation.
  datatype ReplicaSet = ReplicaSet(
    name: string,
    hash: string,
    revision: int,
    spec: int,
    available: int,
    desired: Option<int>,
    deadline: Deadline)

  // How many of the available pods will still be there once the ReplicaSet controller has
  // caught up with `spec`: it removes unavailable pods first.
  function Serving(rs: ReplicaSet): int { Min(rs.spec, rs.available) }

  function SpecSum(sets: seq<ReplicaSet>): int {
    if sets == [] then 0 else sets[0].spec + SpecSum(sets[1..])
  }

  function AvailableSum(sets: seq<ReplicaSet>): int {
    if sets == [] then 0 else sets[0].available + AvailableSum(sets[1..])
  }

  function ServingSum(sets: seq<ReplicaSet>): int {
    if sets == [] then 0 else Serving(sets[0]) + ServingSum(sets[1..])
  }

  function SpecOf(rs: Option<ReplicaSet>): int { if rs.Some? then rs.value.spec else 0 }

  function AvailableOf(rs: Option<ReplicaSet>): int { if rs.Some? then rs.value.available else 0 }

  function ServingOf(rs: Option<ReplicaSet>): int { if rs.Some? then Serving(rs.value) else 0 }

  ghost predicate NonNegative(sets: seq<ReplicaSet>) {
    forall i :: 0 <= i < |sets| ==> 0 <= sets[i].spec && 0 <= sets[i].available
  }

  // Every set has at most as many available pods as it asks for.
  ghost predicate WithinSpec(sets: seq<ReplicaSet>) {
    forall i :: 0 <= i < |sets| ==> 0 <= sets[i].available <= sets[i].spec
  }

  // Every set has exactly the pods that it asks for, all of them available.
  ghost predicate AllCaughtUp(sets: seq<ReplicaSet>) {
    forall i :: 0 <= i < |sets| ==> 0 <= sets[i].available == sets[i].spec
  }

  lemma {:induction false} SumsAppend(a: seq<ReplicaSet>, b: seq<ReplicaSet>)
    ensures SpecSum(a + b) == SpecSum(a) + SpecSum(b)
    ensures AvailableSum(a + b) == AvailableSum(a) + AvailableSum(b)
    ensures ServingSum(a + b) == ServingSum(a) + ServingSum(b)
  {
    if a == [] {
      assert a + b == b;
    } else {
      assert (a + b)[1..] == a[1..] + b;
      SumsAppend(a[1..], b);
    }
  }

  lemma {:induction false} PrefixSums(sets: seq<ReplicaSet>, i: nat)
    requires i < |sets|
    ensures SpecSum(sets[..i + 1]) == SpecSum(sets[..i]) + sets[i].spec
    ensures AvailableSum(sets[..i + 1]) == AvailableSum(sets[..i]) + sets[i].available
  {
    assert sets[..i + 1] == sets[..i] + [sets[i]];
    SumsAppend(sets[..i], [sets[i]]);
  }

  lemma {:induction false} SumsOrdered(sets: seq<ReplicaSet>)
    requires WithinSpec(sets)
    ensures 0 <= ServingSum(sets) == AvailableSum(sets) <= SpecSum(sets)
  {
    if sets != [] {
      SumsOrdered(sets[1..]);
    }
  }

  lemma {:induction false} SumsNonNegative(sets: seq<ReplicaSet>)
    requires NonNegative(sets)
    ensures SpecSum(sets) >= 0 && ServingSum(sets) >= 0 && AvailableSum(sets) >= 0
  {
    if sets != [] {
      SumsNonNegative(sets[1..]);
    }
  }

  lemma {:induction false} CaughtUpSums(sets: seq<ReplicaSet>)
    requires AllCaughtUp(sets)
    ensures AvailableSum(sets) == SpecSum(sets) >= 0
    ensures SpecSum(sets) == 0 ==> forall i :: 0 <= i < |sets| ==> sets[i].spec == 0
  {
    if sets != [] {
      CaughtUpSums(sets[1..]);
      assert forall i :: 0 < i < |sets| ==> sets[i] == sets[1..][i - 1];
    }
  }

  // The same sets after a scale-down.
  ghost predicate ScaledDown(before: seq<ReplicaSet>, after: seq<ReplicaSet>) {
    && |before| == |after|
    && forall i :: 0 <= i < |before| ==>
         0 <= after[i].spec <= before[i].spec && after[i] == before[i].(spec := after[i].spec)
  }

  // A scale-down takes at most as many pods out of service as it takes from the specs.
  lemma {:induction false} ScaleDownCost(before: seq<ReplicaSet>, after: seq<ReplicaSet>)
    requires ScaledDown(before, after)
    ensures 0 <= ServingSum(before) - ServingSum(after) <= SpecSum(before) - SpecSum(after)
  {
    if before != [] {
      assert forall i :: 0 <= i < |before[1..]| ==> after[1..][i] == after[i + 1] && before[1..][i] == before[i + 1];
      ScaleDownCost(before[1..], after[1..]);
    }
  }

  // GetReplicaCountForReplicaSets: the running total over the list.
  method GetReplicaCountForReplicaSets(sets: seq<ReplicaSet>) returns (total: int)
    ensures total == SpecSum(sets)
  {
    total := 0;
    for i := 0 to |sets|
      invariant total == SpecSum(sets[..i])
    {
      PrefixSums(sets, i);
      total := total + sets[i].spec;
    }
    assert sets[..|sets|] == sets;
  }

  // GetAvailableReplicaCountForReplicaSets: the same total over the available pods.
  method GetAvailableReplicaCountForReplicaSets(sets: seq<ReplicaSet>) returns (total: int)
    ensures total == AvailableSum(sets)
  {
    total := 0;
    for i := 0 to |sets|
      invariant total == AvailableSum(sets[..i])
    {
      PrefixSums(sets, i);
      total := total + sets[i].available;
    }
    assert sets[..|sets|] == sets;
  }

  // IsStillReferenced: the current, the stable and the active hash keep a set from being drained.
  predicate IsStillReferenced(stableHash: string, currentHash: string, activeHash: string, rs: ReplicaSet) {
    rs.hash != "" && (rs.hash == stableHash || rs.hash == currentHash || rs.hash == activeHash)
  }
}
