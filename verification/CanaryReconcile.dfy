// One canary reconcile over a snapshot of the cluster (rollout/canary.go, rollout/replicaset.go):
// the stable set first, then the new one, then the old ones, stopping after the first change.
// Basic canary only: the scale-down delay of old sets under traffic routing is not part of this model.
module CanaryReconcile {
  import opened Wrappers
  import opened ReplicaSets
  import opened CanaryPlanner

  // `otherRSs` lists the sets that are neither new nor stable, newest revision first. When the new
  // and the stable set have the same name they are one set, held in both fields.
  datatype Snapshot = Snapshot(newRS: Option<ReplicaSet>, stableRS: Option<ReplicaSet>, otherRSs: seq<ReplicaSet>) {
    predicate TwoSets() { CheckStableRSExists(newRS, stableRS) }

    // allRSs
    function AllRSs(): seq<ReplicaSet> {
      (if newRS.Some? then [newRS.value] else []) + (if TwoSets() then [stableRS.value] else []) + otherRSs
    }

    // The available pods of allRSs.
    function TotalAvailable(): int {
      AvailableOf(newRS) + (if TwoSets() then stableRS.value.available else 0) + AvailableSum(otherRSs)
    }

    lemma {:induction false} TotalAvailableIsSum()
      ensures AvailableSum(AllRSs()) == TotalAvailable()
    {
      var canary := if newRS.Some? then [newRS.value] else [];
      var stable := if TwoSets() then [stableRS.value] else [];
      SumsAppend(canary, stable);
      SumsAppend(canary + stable, otherRSs);
    }

    function WithNewSpec(n: int): Snapshot
      requires newRS.Some?
    {
      var rs := newRS.value.(spec := n);
      this.(newRS := Some(rs), stableRS := if stableRS.None? || TwoSets() then stableRS else Some(rs))
    }

    function WithStableSpec(n: int): Snapshot
      requires stableRS.Some?
    {
      this.(stableRS := Some(stableRS.value.(spec := n)))
    }
  }

  // The hashes that the status still refers to.
  datatype References = References(stableHash: string, currentHash: string) {
    predicate Holds(rs: ReplicaSet) { IsStillReferenced(stableHash, currentHash, "", rs) }
  }

  function ReferencesOf(ro: Rollout): References { References(ro.stableHash, ro.currentPodHash) }

  function MinAvailable(ro: Rollout): int { ReplicasOrDefault(ro) - MaxUnavailable(ro) }

  // The outcome of cleaning up old sets; `ok` is false when a set reports more available pods than
  // it asks for, which ends the cleanup with an error.
  datatype Cleanup = Cleanup(sets: seq<ReplicaSet>, scaledDown: int, ok: bool)

  // cleanupUnhealthyReplicas as a function of the old sets.
  function CleanedUp(sets: seq<ReplicaSet>): Cleanup {
    if sets == [] then Cleanup([], 0, true)
    else if sets[0].spec != 0 && sets[0].available > sets[0].spec then Cleanup(sets, 0, false)
    else
      var rest := CleanedUp(sets[1..]);
      var target := if sets[0].spec == 0 then 0 else sets[0].available;
      Cleanup([sets[0].(spec := target)] + rest.sets,
              if rest.ok then sets[0].spec - target + rest.scaledDown else 0, rest.ok)
  }

  // A cleanup that has dealt with the sets in `done`, scaling down `n` pods, and goes on with `rest`.
  ghost function Resumed(done: seq<ReplicaSet>, n: int, rest: seq<ReplicaSet>): Cleanup {
    var r := CleanedUp(rest);
    Cleanup(done + r.sets, if r.ok then n + r.scaledDown else 0, r.ok)
  }

  lemma {:induction false} ResumedStep(done: seq<ReplicaSet>, n: int, rest: seq<ReplicaSet>)
    requires rest != []
    ensures var rs := rest[0];
            var target := if rs.spec == 0 then 0 else rs.available;
            Resumed(done, n, rest)
            == if rs.spec != 0 && rs.available > rs.spec then Cleanup(done + rest, 0, false)
               else Resumed(done + [rs.(spec := target)], n + rs.spec - target, rest[1..])
  {
    var target := if rest[0].spec == 0 then 0 else rest[0].available;
    assert forall tail :: done + ([rest[0].(spec := target)] + tail) == done + [rest[0].(spec := target)] + tail;
  }

  // A cleanup that has yet to start, and one that has dealt with all sets.
  lemma {:induction false} ResumedEnds(sets: seq<ReplicaSet>, n: int)
    ensures Resumed([], 0, sets) == CleanedUp(sets)
    ensures Resumed(sets, n, []) == Cleanup(sets, n, true)
  {
    assert [] + CleanedUp(sets).sets == CleanedUp(sets).sets;
    assert sets + [] == sets;
  }

  // What the scale-down loop takes from a set while it may still take `budget` pods.
  function Cut(rs: ReplicaSet, refs: References, budget: int): int {
    if budget <= 0 || refs.Holds(rs) then 0 else Min(rs.spec, budget)
  }

  // The budget that is left when the loop reaches the i-th set.
  function BudgetAt(sets: seq<ReplicaSet>, refs: References, budget: int, i: nat): int
    requires i <= |sets|
  {
    if i == 0 then budget
    else
      var b := BudgetAt(sets, refs, budget, i - 1);
      b - Cut(sets[i - 1], refs, b)
  }

  // The sets after the scale-down loop.
  function Drained(sets: seq<ReplicaSet>, refs: References, budget: int): seq<ReplicaSet> {
    seq(|sets|, i requires 0 <= i < |sets| =>
      sets[i].(spec := sets[i].spec - Cut(sets[i], refs, BudgetAt(sets, refs, budget, i))))
  }

  // scaleDownOldReplicaSetsForCanary as a function: the old sets afterwards and the pods it counts as scaled down.
  function OldScaledDown(floor: int, refs: References, available: int, olds: seq<ReplicaSet>): (seq<ReplicaSet>, int) {
    var clean := CleanedUp(olds);
    var budget := available - floor;
    if !clean.ok || budget <= 0 then (clean.sets, 0)
    else
      var sets := Drained(clean.sets, refs, budget);
      (sets, clean.scaledDown + SpecSum(clean.sets) - SpecSum(sets))
  }

  // reconcileCanaryReplicaSets as a function of the snapshot, given the planned counts.
  function Applied(floor: int, refs: References, counts: (int, int), c: Snapshot): (Snapshot, bool) {
    if c.TwoSets() && counts.1 != c.stableRS.value.spec then (c.WithStableSpec(counts.1), true)
    else if c.newRS.Some? && counts.0 != c.newRS.value.spec then (c.WithNewSpec(counts.0), true)
    else if SpecSum(c.otherRSs) == 0 then (c, false)
    else
      var (sets, n) := OldScaledDown(floor, refs, c.TotalAvailable(), c.otherRSs);
      (c.(otherRSs := sets), n > 0)
  }

  function Reconciled(ro: Rollout, c: Snapshot): (Snapshot, bool) {
    Applied(MinAvailable(ro), ReferencesOf(ro), PlannedCounts(ro, c.newRS, c.stableRS, c.otherRSs), c)
  }

  lemma {:induction false} SpecSumUpdate(sets: seq<ReplicaSet>, i: nat, rs: ReplicaSet)
    requires i < |sets|
    ensures SpecSum(sets[i := rs]) == SpecSum(sets) - sets[i].spec + rs.spec
  {
    assert sets == sets[..i] + [sets[i]] + sets[i + 1..];
    assert sets[i := rs] == sets[..i] + [rs] + sets[i + 1..];
    SumsAppend(sets[..i] + [sets[i]], sets[i + 1..]);
    SumsAppend(sets[..i], [sets[i]]);
    SumsAppend(sets[..i] + [rs], sets[i + 1..]);
    SumsAppend(sets[..i], [rs]);
  }

  // A budget that has run out stays so.
  lemma {:induction false} ExhaustedBudget(sets: seq<ReplicaSet>, refs: References, budget: int, i: nat, j: nat)
    requires i <= j <= |sets| && BudgetAt(sets, refs, budget, i) <= 0
    ensures BudgetAt(sets, refs, budget, j) <= 0
    decreases j - i
  {
    hide IsStillReferenced;
    if i < j {
      ExhaustedBudget(sets, refs, budget, i, j - 1);
    }
  }

  // Nothing is taken from the sets after the one at which the budget ran out.
  lemma {:induction false} NothingTaken(sets: seq<ReplicaSet>, refs: References, budget: int, i: nat)
    requires i <= |sets| && BudgetAt(sets, refs, budget, i) <= 0
    ensures forall j :: i <= j < |sets| ==> Drained(sets, refs, budget)[j] == sets[j]
  {
    hide IsStillReferenced, BudgetAt;
    forall j | i <= j < |sets| ensures Drained(sets, refs, budget)[j] == sets[j] {
      ExhaustedBudget(sets, refs, budget, i, j);
    }
  }

  class RolloutContext {
    const rollout: Rollout
    var newRS: Option<ReplicaSet>
    var stableRS: Option<ReplicaSet>
    var otherRSs: seq<ReplicaSet>

    function Cluster(): Snapshot
      reads this
    {
      Snapshot(newRS, stableRS, otherRSs)
    }

    constructor (ro: Rollout, c: Snapshot)
      ensures rollout == ro && Cluster() == c
    {
      rollout := ro;
      newRS, stableRS, otherRSs := c.newRS, c.stableRS, c.otherRSs;
    }

    method ReconcileCanaryStableReplicaSet() returns (scaled: bool)
      modifies this
      ensures var counts := PlannedCounts(rollout, old(newRS), old(stableRS), old(otherRSs));
              scaled == (old(Cluster().TwoSets()) && counts.1 != old(stableRS.value.spec))
              && Cluster() == if scaled then old(Cluster()).WithStableSpec(counts.1) else old(Cluster())
    {
      if !CheckStableRSExists(newRS, stableRS) { return false; }
      var _, stableCount := CalculateReplicaCountsForCanary(rollout, newRS, stableRS, otherRSs);
      scaled := stableRS.value.spec != stableCount;
      stableRS := Some(stableRS.value.(spec := stableCount));
    }

    method ReconcileNewReplicaSet() returns (scaled: bool)
      modifies this
      ensures var counts := PlannedCounts(rollout, old(newRS), old(stableRS), old(otherRSs));
              scaled == (old(newRS).Some? && counts.0 != old(newRS.value.spec))
              && Cluster() == if scaled then old(Cluster()).WithNewSpec(counts.0) else old(Cluster())
    {
      if newRS.None? { return false; }
      var newCount, _ := CalculateReplicaCountsForCanary(rollout, newRS, stableRS, otherRSs);
      scaled := newRS.value.spec != newCount;
      if scaled {
        var sameSet := stableRS.Some? && !CheckStableRSExists(newRS, stableRS);
        newRS := Some(newRS.value.(spec := newCount));
        if sameSet { stableRS := newRS; }
      }
    }

    method CleanupUnhealthyReplicas() returns (scaledDown: int, ok: bool)
      modifies this`otherRSs
      ensures Cleanup(otherRSs, scaledDown, ok) == CleanedUp(old(otherRSs))
    {
      hide CleanedUp, Resumed;
      scaledDown := 0;
      ghost var olds := otherRSs;
      ResumedEnds(olds, scaledDown);
      assert olds[0..] == olds;
      for i := 0 to |otherRSs|
        invariant |otherRSs| == |olds| && otherRSs[i..] == olds[i..]
        invariant CleanedUp(olds) == Resumed(otherRSs[..i], scaledDown, olds[i..])
      {
        var target := otherRSs[i];
        assert olds[i..][0] == target && olds[i..][1..] == olds[i + 1..];
        ResumedStep(otherRSs[..i], scaledDown, olds[i..]);
        if target.spec != 0 && target.spec != target.available {
          if target.available > target.spec {
            assert otherRSs == otherRSs[..i] + olds[i..];
            return 0, false;
          }
          scaledDown := scaledDown + target.spec - target.available;
          otherRSs := otherRSs[i := target.(spec := target.available)];
        }
        assert otherRSs[..i + 1] == otherRSs[..i] + [otherRSs[i]];
      }
      ResumedEnds(otherRSs, scaledDown);
      assert otherRSs[..|otherRSs|] == otherRSs && olds[|olds|..] == [];
      return scaledDown, true;
    }

    // The loop of scaleDownOldReplicaSetsForCanary over the cleaned-up sets.
    method DrainOldReplicaSets(budget: int) returns (scaledDown: int)
      modifies this`otherRSs
      ensures otherRSs == Drained(old(otherRSs), ReferencesOf(rollout), budget)
      ensures scaledDown == SpecSum(old(otherRSs)) - SpecSum(otherRSs)
    {
      ghost var olds := otherRSs;
      var refs := ReferencesOf(rollout);
      var maxScaleDown := budget;
      scaledDown := 0;
      for i := 0 to |otherRSs|
        invariant |otherRSs| == |olds| && maxScaleDown == BudgetAt(olds, refs, budget, i)
        invariant forall j :: 0 <= j < i ==> otherRSs[j] == Drained(olds, refs, budget)[j]
        invariant forall j :: i <= j < |olds| ==> otherRSs[j] == olds[j]
        invariant scaledDown == SpecSum(olds) - SpecSum(otherRSs)
      {
        var target := otherRSs[i];
        if !refs.Holds(target) {
          if maxScaleDown <= 0 {
            NothingTaken(olds, refs, budget, i);
            return;
          }
          if target.spec != 0 {
            var desired := if target.spec > maxScaleDown then target.spec - maxScaleDown else 0;
            SpecSumUpdate(otherRSs, i, target.(spec := desired));
            otherRSs := otherRSs[i := target.(spec := desired)];
            maxScaleDown := maxScaleDown - (target.spec - desired);
            scaledDown := scaledDown + (target.spec - desired);
          }
        }
      }
    }

    method ScaleDownOldReplicaSetsForCanary() returns (totalScaledDown: int)
      modifies this`otherRSs
      ensures (otherRSs, totalScaledDown) ==
              OldScaledDown(MinAvailable(rollout), ReferencesOf(rollout), old(Cluster().TotalAvailable()), old(otherRSs))
    {
      hide MinAvailable, CleanedUp, Drained, SpecSum, AvailableSum;
      Cluster().TotalAvailableIsSum();
      var available := GetAvailableReplicaCountForReplicaSets(Cluster().AllRSs());
      var ok;
      totalScaledDown, ok := CleanupUnhealthyReplicas();
      if !ok { return 0; }
      var maxScaleDown := available - MinAvailable(rollout);
      if maxScaleDown <= 0 { return 0; }
      var n := DrainOldReplicaSets(maxScaleDown);
      totalScaledDown := totalScaledDown + n;
    }

    method ReconcileOtherReplicaSets() returns (hasScaled: bool)
      modifies this`otherRSs
      ensures var (sets, n) := OldScaledDown(MinAvailable(rollout), ReferencesOf(rollout), old(Cluster().TotalAvailable()), old(otherRSs));
              if SpecSum(old(otherRSs)) == 0 then otherRSs == old(otherRSs) && !hasScaled
              else otherRSs == sets && hasScaled == (n > 0)
    {
      var oldPods := GetReplicaCountForReplicaSets(otherRSs);
      if oldPods == 0 { return false; }
      var n := ScaleDownOldReplicaSetsForCanary();
      return n > 0;
    }

    method ReconcileCanaryReplicaSets() returns (scaled: bool)
      modifies this
      ensures (Cluster(), scaled) == Reconciled(rollout, old(Cluster()))
    {
      scaled := ReconcileCanaryStableReplicaSet();
      if scaled { return; }
      scaled := ReconcileNewReplicaSet();
      if scaled { return; }
      scaled := ReconcileOtherReplicaSets();
    }
  }
}
