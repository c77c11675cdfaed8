// The availability floor of a basic canary: exactly which reconciles take the pods in service below it.
module CanaryFloor {
  import opened Wrappers
  import opened ReplicaSets
  import opened CanaryPlanner
  import opened CanaryReconcile
  import opened CanaryRuns

  // The pods that are left after the reconcile, once the ReplicaSets have followed it, reach the
  // floor, or are as many as before.
  ghost predicate FloorKept(ro: Rollout, c: Snapshot) {
    TotalServing(Reconciled(ro, c).0)
    >= Min(TotalServing(c), ReplicasOrDefault(ro) - MaxUnavailable(ro))
  }

  /******* The new and the stable set *******/

  // The planner counts unavailable pods of a canary that has to shrink, and cuts the stable set
  // first. What matters is the size that the stable set is cut to: the pods that stay in it must
  // make up for what the canary's pods in service lack.
  function StableCut(b: Budget, c: Snapshot): int
    requires c.TwoSets()
  {
    var stable := c.stableRS.value;
    Max(b.stable, stable.spec - (b.canary + Serving(stable) - b.Floor()))
  }

  // The snapshots in which the planner's count does no harm: there is nothing to cut in one of the
  // two sets, old pods are left to go first, no budget is left for the stable set, or the cut leaves
  // enough of it.
  predicate ScalingSafe(b: Budget, c: Snapshot) {
    || c.newRS.None? || !c.TwoSets()
    || SpecSum(c.otherRSs) > 0
    || c.newRS.value.spec <= b.canary
    || c.stableRS.value.spec <= b.stable
    || b.canary + Serving(c.stableRS.value) <= b.Floor()
    || StableCut(b, c) >= Min(Serving(c.stableRS.value), b.Floor() - Serving(c.newRS.value))
  }

  // The planner changes the size of one of the two sets, so the old ones are left alone.
  predicate PlansChange(b: Budget, c: Snapshot) {
    || (c.TwoSets() && BasicCounts(b, c).1 != c.stableRS.value.spec)
    || (c.newRS.Some? && BasicCounts(b, c).0 != c.newRS.value.spec)
  }

  predicate CutsBoth(b: Budget, c: Snapshot) {
    && c.newRS.Some? && c.TwoSets() && SpecSum(c.otherRSs) <= 0
    && c.newRS.value.spec > b.canary && c.stableRS.value.spec > b.stable
    && b.canary + Serving(c.stableRS.value) > b.Floor()
  }

  // Both sets are above their targets and no old pods are left: the stable set is cut first.
  lemma {:induction false} BothShrink(b: Budget, refs: References, c: Snapshot)
    requires ValidBudget(b) && Sane(c) && CutsBoth(b, c)
    ensures Applied(b.Floor(), refs, BasicCounts(b, c), c).0 == c.WithStableSpec(StableCut(b, c)) && PlansChange(b, c)
  {
    hide OldScaledDown, SpecSum;
  }

  // Otherwise the stable set is not cut below what is in service.
  lemma {:induction false} StableSetKept(b: Budget, c: Snapshot)
    requires ValidBudget(b) && Sane(c) && c.TwoSets() && !CutsBoth(b, c) && 0 <= SpecSum(c.otherRSs)
    requires BasicCounts(b, c).1 < c.stableRS.value.spec
    ensures ServingOf(c.newRS) + Min(BasicCounts(b, c).1, c.stableRS.value.available)
            >= Min(ServingOf(c.newRS) + Serving(c.stableRS.value), b.Floor())
  {
    hide SpecSum;
  }

  lemma {:induction false} NewSetKept(b: Budget, c: Snapshot)
    requires ValidBudget(b) && Sane(c) && c.newRS.Some? && 0 <= SpecSum(c.otherRSs)
    requires c.TwoSets() ==> BasicCounts(b, c).1 == c.stableRS.value.spec
    requires BasicCounts(b, c).0 < c.newRS.value.spec
    ensures var stable := if c.TwoSets() then Serving(c.stableRS.value) else 0;
            Min(BasicCounts(b, c).0, c.newRS.value.available) + stable
            >= Min(Serving(c.newRS.value) + stable, b.Floor())
  {
    hide SpecSum;
  }

  lemma {:induction false} ChangeKeepsFloor(b: Budget, refs: References, c: Snapshot)
    requires ValidBudget(b) && Sane(c) && PlansChange(b, c)
    ensures TotalServing(Applied(b.Floor(), refs, BasicCounts(b, c), c).0) >= Min(TotalServing(c), b.Floor())
       <==> ScalingSafe(b, c)
  {
    hide OldScaledDown, SpecSum, ServingSum, BasicCounts;
    SumsNonNegative(c.otherRSs);
    if CutsBoth(b, c) {
      BothShrink(b, refs, c);
      NothingServing(c.otherRSs);
    } else if c.TwoSets() && BasicCounts(b, c).1 < c.stableRS.value.spec {
      StableSetKept(b, c);
    } else if c.newRS.Some? && BasicCounts(b, c).0 < c.newRS.value.spec
              && (c.TwoSets() ==> BasicCounts(b, c).1 == c.stableRS.value.spec) {
      NewSetKept(b, c);
    }
  }

  lemma {:induction false} NothingServing(sets: seq<ReplicaSet>)
    requires NonNegative(sets) && SpecSum(sets) <= 0
    ensures ServingSum(sets) == 0
  {
    if sets != [] {
      SumsNonNegative(sets[1..]);
      NothingServing(sets[1..]);
    }
  }

  /******* The old sets *******/

  // The pods in service that the drain may take: those of sets that nothing refers to.
  function Drainable(sets: seq<ReplicaSet>, refs: References, n: nat): int
    requires n <= |sets|
  {
    if n == 0 then 0 else Drainable(sets, refs, n - 1) + if refs.Holds(sets[n - 1]) then 0 else Serving(sets[n - 1])
  }

  // A set that reports more available pods than it asks for ends the cleanup with an error.
  predicate Overfull(sets: seq<ReplicaSet>) {
    exists i :: 0 <= i < |sets| && sets[i].spec != 0 && sets[i].available > sets[i].spec
  }

  // The drain counts available pods that are on their way out. That is harmless when there are none, when the floor is
  // not reached anyway, or when all that may be drained can be spared.
  predicate OldStageSafe(b: Budget, refs: References, c: Snapshot) {
    || PlansChange(b, c) || Overfull(c.otherRSs)
    || c.TotalAvailable() <= Max(b.Floor(), TotalServing(c))
    || Drainable(c.otherRSs, refs, |c.otherRSs|) <= Max(0, TotalServing(c) - b.Floor())
  }

  // Every pod that a set asks for is in service.
  ghost predicate Cleaned(sets: seq<ReplicaSet>) {
    forall i :: 0 <= i < |sets| ==> 0 <= Serving(sets[i]) == sets[i].spec
  }

  lemma {:induction false} CleanupCleans(sets: seq<ReplicaSet>)
    requires NonNegative(sets)
    ensures CleanedUp(sets).ok <==> !Overfull(sets)
    ensures CleanedUp(sets).ok ==> Cleaned(CleanedUp(sets).sets)
    ensures |CleanedUp(sets).sets| == |sets|
    ensures forall i :: 0 <= i < |sets| ==>
              Serving(CleanedUp(sets).sets[i]) == Serving(sets[i]) && CleanedUp(sets).sets[i].hash == sets[i].hash
  {
    if sets != [] {
      CleanupCleans(sets[1..]);
      assert forall i :: 0 < i < |sets| ==> sets[i] == sets[1..][i - 1];
      if Overfull(sets[1..]) {
        var i :| 0 <= i < |sets[1..]| && sets[1..][i].spec != 0 && sets[1..][i].available > sets[1..][i].spec;
        assert sets[i + 1].available > sets[i + 1].spec;
      }
    }
  }

  lemma {:induction false} SameDrainable(a: seq<ReplicaSet>, b: seq<ReplicaSet>, refs: References, n: nat)
    requires |a| == |b| && n <= |a|
    requires forall i :: 0 <= i < |a| ==> Serving(b[i]) == Serving(a[i]) && b[i].hash == a[i].hash
    ensures Drainable(a, refs, n) == Drainable(b, refs, n)
  {
    hide Serving;
    if n > 0 {
      SameDrainable(a, b, refs, n - 1);
    }
  }

  // The budget is spent on what may be drained, as far as it goes.
  lemma {:induction false} BudgetIsSpent(sets: seq<ReplicaSet>, refs: References, budget: int, i: nat)
    requires i <= |sets| && Cleaned(sets) && budget >= 0
    ensures 0 <= Drainable(sets, refs, i) && BudgetAt(sets, refs, budget, i) == Max(0, budget - Drainable(sets, refs, i))
  {
    hide Serving, IsStillReferenced;
    if i > 0 {
      BudgetIsSpent(sets, refs, budget, i - 1);
    }
  }

  lemma {:induction false} CleanedServes(sets: seq<ReplicaSet>)
    requires Cleaned(sets)
    ensures ServingSum(sets) == SpecSum(sets)
  {
    if sets != [] {
      assert forall i :: 0 <= i < |sets[1..]| ==> sets[1..][i] == sets[i + 1];
      CleanedServes(sets[1..]);
    }
  }

  lemma {:induction false} DrainedIsCleaned(sets: seq<ReplicaSet>, refs: References, budget: int)
    requires Cleaned(sets) && budget >= 0
    ensures Cleaned(Drained(sets, refs, budget))
  {
    hide BudgetAt, IsStillReferenced;
  }

  // What the drain takes out of service.
  lemma {:induction false} DrainTakes(sets: seq<ReplicaSet>, refs: References, budget: int)
    requires Cleaned(sets) && budget >= 0
    ensures ServingSum(sets) - ServingSum(Drained(sets, refs, budget)) == Min(budget, Drainable(sets, refs, |sets|))
  {
    hide BudgetAt, SpecSum, ServingSum, Drainable, Drained, Cleaned;
    var drained := Drained(sets, refs, budget);
    DrainedIsCleaned(sets, refs, budget);
    CleanedServes(sets);
    CleanedServes(drained);
    WholeDrain(sets, refs, budget);
    BudgetIsSpent(sets, refs, budget, |sets|);
  }

  lemma {:induction false} WholeDrain(sets: seq<ReplicaSet>, refs: References, budget: int)
    ensures SpecSum(sets) - SpecSum(Drained(sets, refs, budget)) == budget - BudgetAt(sets, refs, budget, |sets|)
  {
    hide BudgetAt, SpecSum;
    var drained := Drained(sets, refs, budget);
    DrainSpendsBudget(sets, refs, budget, |sets|);
    assert sets[..|sets|] == sets && drained[..|sets|] == drained;
  }

  // What the whole stage takes out of service.
  lemma {:induction false} OldStageTakes(b: Budget, refs: References, c: Snapshot)
    requires Sane(c)
    ensures var budget := c.TotalAvailable() - b.Floor();
            TotalServing(c) - TotalServing(c.(otherRSs := OldScaledDown(b.Floor(), refs, c.TotalAvailable(), c.otherRSs).0)) ==
            if Overfull(c.otherRSs) || budget <= 0 then 0 else Min(budget, Drainable(c.otherRSs, refs, |c.otherRSs|))
  {
    hide SpecSum, ServingSum, AvailableSum, Drained, CleanedUp, Cleaned, Overfull, Drainable;
    var budget, clean := c.TotalAvailable() - b.Floor(), CleanedUp(c.otherRSs);
    CleanupOnlyShrinks(c.otherRSs);
    CleanupCleans(c.otherRSs);
    if clean.ok && budget > 0 {
      DrainTakes(clean.sets, refs, budget);
      SameDrainable(c.otherRSs, clean.sets, refs, |clean.sets|);
    }
  }

  lemma {:induction false} OldStageKeepsFloor(b: Budget, refs: References, c: Snapshot)
    requires ValidBudget(b) && Sane(c) && !PlansChange(b, c)
    ensures TotalServing(Applied(b.Floor(), refs, BasicCounts(b, c), c).0) >= Min(TotalServing(c), b.Floor())
       <==> OldStageSafe(b, refs, c)
    ensures ScalingSafe(b, c)
  {
    hide OldScaledDown, SpecSum, ServingSum, BasicCounts, Overfull, Drainable, AvailableSum, StableCut;
    SumsNonNegative(c.otherRSs);
    OldStageTakes(b, refs, c);
    if CutsBoth(b, c) {
      BothShrink(b, refs, c);
    }
    NothingDrainable(c.otherRSs, refs);
  }

  lemma {:induction false} NothingDrainable(sets: seq<ReplicaSet>, refs: References)
    requires NonNegative(sets)
    ensures SpecSum(sets) == 0 ==> Drainable(sets, refs, |sets|) == 0
  {
    if SpecSum(sets) == 0 {
      NoSpecsServing(sets);
      NothingDrainableUpTo(sets, refs, |sets|);
    }
  }

  lemma {:induction false} NoSpecsServing(sets: seq<ReplicaSet>)
    requires NonNegative(sets) && SpecSum(sets) == 0
    ensures forall i :: 0 <= i < |sets| ==> Serving(sets[i]) == 0
  {
    if sets != [] {
      SumsNonNegative(sets[1..]);
      NoSpecsServing(sets[1..]);
      assert forall i :: 0 < i < |sets| ==> sets[i] == sets[1..][i - 1];
    }
  }

  lemma {:induction false} NothingDrainableUpTo(sets: seq<ReplicaSet>, refs: References, n: nat)
    requires n <= |sets| && forall i :: 0 <= i < |sets| ==> Serving(sets[i]) == 0
    ensures Drainable(sets, refs, n) == 0
  {
    if n > 0 {
      NothingDrainableUpTo(sets, refs, n - 1);
    }
  }

  /******* The reconcile *******/

  // A basic-canary reconcile takes the pods in service below the floor, and below what they were,
  // exactly when the snapshot is not safe for the stage that acts.
  lemma {:induction false} FloorKeptExactlyWhen(ro: Rollout, c: Snapshot)
    requires BasicCanary(ro) && Sane(c)
    ensures FloorKept(ro, c) <==> ScalingSafe(CurrentBudget(ro), c) && OldStageSafe(CurrentBudget(ro), ReferencesOf(ro), c)
  {
    hide CurrentBudget, MaxUnavailable, PlannedCounts, ScalingSafe, BasicCounts, Applied, Overfull, Drainable,
         TotalServing;
    var b := CurrentBudget(ro);
    ReconciledIsBasic(ro, c);
    BudgetIsValid(ro);
    if PlansChange(b, c) {
      ChangeKeepsFloor(b, ReferencesOf(ro), c);
    } else {
      OldStageKeepsFloor(b, ReferencesOf(ro), c);
    }
  }

  // A set among the old ones that the status still refers to keeps all pods that serve.
  lemma {:induction false} ReferencedIsNotDrained(ro: Rollout, c: Snapshot, i: nat)
    requires Sane(c) && i < |c.otherRSs| && c.otherRSs[i].hash != "" && c.otherRSs[i].hash in {ro.stableHash, ro.currentPodHash}
    ensures var sets := Reconciled(ro, c).0.otherRSs; |sets| == |c.otherRSs| && Serving(sets[i]) == Serving(c.otherRSs[i])
  {
    hide CleanedUp, PlannedCounts, MinAvailable, SpecSum, AvailableSum, BudgetAt;
    CleanupCleans(c.otherRSs);
  }

  // What the reconcile reports: a change of one of the two sets, or that old sets were scaled down; but not what the
  // cleanup took when it failed half-way or when no pod could be spared.
  lemma {:induction false} ReportsExactlyWhen(b: Budget, refs: References, c: Snapshot)
    requires ValidBudget(b) && Sane(c)
    ensures var (next, changed) := Applied(b.Floor(), refs, BasicCounts(b, c), c);
            changed <==>
              || PlansChange(b, c)
              || (!Overfull(c.otherRSs) && c.TotalAvailable() > b.replicas - b.unavailable && SpecSum(next.otherRSs) < SpecSum(c.otherRSs))
  {
    hide BasicCounts, Overfull, SpecSum, CleanedUp, Drained, AvailableSum;
    CleanupCounts(c.otherRSs);
    CleanupCleans(c.otherRSs);
    OldSetsOnlyShrink(b.Floor(), refs, c.TotalAvailable(), c.otherRSs);
    SumsNonNegative(c.otherRSs);
    NothingLeft(c, b, refs);
  }

  // Old sets without pods stay without.
  lemma {:induction false} NothingLeft(c: Snapshot, b: Budget, refs: References)
    requires Sane(c)
    ensures SpecSum(c.otherRSs) == 0 ==> SpecSum(OldScaledDown(b.Floor(), refs, c.TotalAvailable(), c.otherRSs).0) == 0
  {
    hide SpecSum, OldScaledDown, AvailableSum;
    var after := OldScaledDown(b.Floor(), refs, c.TotalAvailable(), c.otherRSs).0;
    OldSetsOnlyShrink(b.Floor(), refs, c.TotalAvailable(), c.otherRSs);
    SpecsNonNegative(after);
  }

  lemma {:induction false} SpecsNonNegative(sets: seq<ReplicaSet>)
    requires forall i :: 0 <= i < |sets| ==> 0 <= sets[i].spec
    ensures SpecSum(sets) >= 0
  {
    if sets != [] {
      SpecsNonNegative(sets[1..]);
    }
  }

  // The cleanup counts what it takes.
  lemma {:induction false} CleanupCounts(sets: seq<ReplicaSet>)
    ensures CleanedUp(sets).ok ==> CleanedUp(sets).scaledDown == SpecSum(sets) - SpecSum(CleanedUp(sets).sets)
    ensures !CleanedUp(sets).ok ==> CleanedUp(sets).scaledDown == 0
  {
    if sets != [] {
      CleanupCounts(sets[1..]);
    }
  }

  // No set reports more available pods than it asks for.
  ghost predicate Settled(c: Snapshot) {
    && (c.newRS.Some? ==> 0 <= c.newRS.value.available <= c.newRS.value.spec)
    && (c.TwoSets() ==> 0 <= c.stableRS.value.available <= c.stableRS.value.spec)
    && WithinSpec(c.otherRSs)
  }

  lemma {:induction false} SettledIsOldStageSafe(b: Budget, refs: References, c: Snapshot)
    requires Settled(c)
    ensures Sane(c) && OldStageSafe(b, refs, c)
  {
    hide PlansChange, Overfull, Drainable, ServingSum, AvailableSum, SpecSum;
    SumsOrdered(c.otherRSs);
  }

  // So when no pods are on their way out, only the first stage can miss the floor, and each of the hypotheses under
  // which it is promised keeps it: the canary is not above its target, or all its pods are available, or the stable set
  // is not above its target.
  lemma {:induction false} FloorHypotheses(ro: Rollout, c: Snapshot)
    requires BasicCanary(ro) && Settled(c) && c.newRS.Some? && c.TwoSets()
    requires var b := CurrentBudget(ro);
             || c.newRS.value.spec <= b.canary
             || c.newRS.value.available == c.newRS.value.spec
             || c.stableRS.value.spec <= b.stable
    ensures FloorKept(ro, c)
  {
    hide CurrentBudget, FloorKept, OldStageSafe;
    BudgetIsValid(ro);
    SettledIsOldStageSafe(CurrentBudget(ro), ReferencesOf(ro), c);
    FloorKeptExactlyWhen(ro, c);
  }

  // Exactly which canaries are safe next to every stable set, once no old sets are left: those not
  // above their target, and those whose available pods reach the floor with the stable target.
  lemma {:induction false} SafeCanaryExactlyWhen(ro: Rollout, canary: ReplicaSet)
    requires BasicCanary(ro) && 0 <= canary.available <= canary.spec
    ensures (forall stable: ReplicaSet | 0 <= stable.available <= stable.spec && stable.name != canary.name ::
               FloorKept(ro, Snapshot(Some(canary), Some(stable), [])))
       <==> var b := CurrentBudget(ro);
            canary.spec <= b.canary || canary.available + b.stable >= b.Floor()
  {
    hide CurrentBudget, FloorKept, OldStageSafe;
    var b := CurrentBudget(ro);
    BudgetIsValid(ro);
    forall stable: ReplicaSet | 0 <= stable.available <= stable.spec && stable.name != canary.name
      ensures FloorKept(ro, Snapshot(Some(canary), Some(stable), [])) <==> ScalingSafe(b, Snapshot(Some(canary), Some(stable), []))
    {
      SettledIsOldStageSafe(b, ReferencesOf(ro), Snapshot(Some(canary), Some(stable), []));
      FloorKeptExactlyWhen(ro, Snapshot(Some(canary), Some(stable), []));
    }
    if canary.spec > b.canary && canary.available + b.stable < b.Floor() {
      var stable := ReplicaSet(canary.name + ['-'], "", 0, b.stable + 1, b.stable + 1, None, NoDeadline);
      assert !ScalingSafe(b, Snapshot(Some(canary), Some(stable), []));
      assert !FloorKept(ro, Snapshot(Some(canary), Some(stable), []));
    }
  }

  // The old sets can take the pods in service below the floor too: the stable set has been cut, but its status still
  // counts the pods that it is about to lose.
  lemma {:induction false} LaggingStatusBreaksFloor(b: Budget, refs: References)
    requires b == Budget(4, 2, 2, false, 1, 1) && refs == References("s", "n")
    ensures var canary := ReplicaSet("n", "n", 3, 2, 0, None, NoDeadline);
            var stable := ReplicaSet("s", "s", 1, 2, 4, None, NoDeadline);
            var old' := ReplicaSet("o", "o", 2, 2, 2, None, NoDeadline);
            var c := Snapshot(Some(canary), Some(stable), [old']);
            && ValidBudget(b) && Sane(c) && ScalingSafe(b, c)
            && TotalServing(Applied(b.Floor(), refs, BasicCounts(b, c), c).0) < Min(TotalServing(c), b.Floor())
  {
    var canary := ReplicaSet("n", "n", 3, 2, 0, None, NoDeadline);
    var stable := ReplicaSet("s", "s", 1, 2, 4, None, NoDeadline);
    var old' := ReplicaSet("o", "o", 2, 2, 2, None, NoDeadline);
    var c := Snapshot(Some(canary), Some(stable), [old']);
    hide OldScaledDown;
    OldStageKeepsFloor(b, refs, c);
  }
}
