// Creating an object under a name that may be taken: base, base.1, base.2, ... (utils/analysis/helpers.go and
// rollout/experiment.go).
module CollisionCounter {
  import opened Wrappers

  // An AnalysisRun or Experiment: what semantic equality compares, the controller's UID, and whether it is completed.
  datatype Object = Object(spec: string, owner: Option<string>, finished: bool)

  type Store = map<string, Object>

  datatype Error = NoOwner | CreateFailed | GetFailed

  // What goes wrong with the API calls of an attempt.
  datatype Fault = NoFault | CreateFault | GetFault

  /******* Names *******/

  function Digit(n: nat): char
    requires n < 10
  {
    "0123456789"[n]
  }

  function Decimal(n: nat): (s: string)
    ensures |s| >= 1
  {
    if n < 10 then [Digit(n)] else Decimal(n / 10) + [Digit(n % 10)]
  }

  lemma {:induction false} DigitsDiffer(m: nat, n: nat)
    requires m < 10 && n < 10 && Digit(m) == Digit(n)
    ensures m == n
  {
  }

  lemma {:induction false} DecimalIsInjective(m: nat, n: nat)
    requires Decimal(m) == Decimal(n)
    ensures m == n
  {
    var s := Decimal(m);
    assert s[|s| - 1] == Digit(m % 10) == Digit(n % 10);
    DigitsDiffer(m % 10, n % 10);
    if m >= 10 && n >= 10 {
      assert s[..|s| - 1] == Decimal(m / 10) == Decimal(n / 10);
      DecimalIsInjective(m / 10, n / 10);
    } else {
      assert m >= 10 ==> |s| >= 2;
      assert n >= 10 ==> |s| >= 2;
    }
  }

  // The name of attempt n.
  function Name(base: string, n: nat): string { if n == 0 then base else base + "." + Decimal(n) }

  lemma {:induction false} NamesDiffer(base: string, m: nat, n: nat)
    requires Name(base, m) == Name(base, n)
    ensures m == n
  {
    assert m > 0 ==> |Name(base, m)| > |base|;
    assert n > 0 ==> |Name(base, n)| > |base|;
    if m > 0 && n > 0 {
      var prefix := base + ".";
      assert Decimal(m) == (prefix + Decimal(m))[|prefix|..] == (prefix + Decimal(n))[|prefix|..] == Decimal(n);
      DecimalIsInjective(m, n);
    }
  }

  // n names in use are n different objects.
  lemma {:induction false} NamesInUse(store: Store, base: string, n: nat)
    requires forall i :: 0 <= i < n ==> Name(base, i) in store
    ensures n <= |store|
  {
    if n > 0 {
      var last := Name(base, n - 1);
      var rest := store - {last};
      forall i | 0 <= i < n - 1 ensures Name(base, i) in rest {
        if Name(base, i) == last { NamesDiffer(base, i, n - 1); }
      }
      NamesInUse(rest, base, n - 1);
      assert store.Keys == rest.Keys + {last};
    }
  }

  /******* The search *******/

  // An unfinished object of the same controller that asks for the same: it was created before, and the cache is stale.
  predicate Reclaims(existing: Object, run: Object) {
    !existing.finished && existing.spec == run.spec && existing.owner.Some? && existing.owner == run.owner
  }

  predicate Usable(store: Store, base: string, run: Object, n: nat) {
    Name(base, n) !in store || Reclaims(store[Name(base, n)], run)
  }

  // The first attempt from n on that succeeds; the pigeonhole principle puts it within |store| + 1 attempts.
  function FirstUsable(store: Store, base: string, run: Object, n: nat): (r: nat)
    requires forall i :: 0 <= i < n ==> Name(base, i) in store
    ensures n <= r <= |store| && Usable(store, base, run, r)
    ensures forall i :: n <= i < r ==> !Usable(store, base, run, i)
    decreases |store| + 1 - n
  {
    NamesInUse(store, base, n);
    if Usable(store, base, run, n) then n else FirstUsable(store, base, run, n + 1)
  }

  class Cluster {
    var store: Store

    // CreateWithCollisionCounter: the name under which the object is found afterwards.
    method CreateWithCollisionCounter(base: string, run: Object, faults: nat -> Fault)
      returns (r: Result<string, Error>, ghost attempts: nat)
      modifies this
      ensures run.owner.None? ==> r == Err(NoOwner) && store == old(store)
      ensures attempts <= |old(store)| + 1
      ensures r.Err? ==> store == old(store)
      ensures r.Ok? ==>
                var n := FirstUsable(old(store), base, run, 0);
                && r.value == Name(base, n)
                && store == if Name(base, n) in old(store) then old(store) else old(store)[Name(base, n) := run]
      ensures run.owner.Some? && (forall i :: faults(i).NoFault?) ==> r.Ok?
    {
      hide Decimal, Reclaims;
      attempts := 0;
      if run.owner.None? { return Err(NoOwner), 0; }
      var collisionCount, name := 0, base;
      while true
        invariant store == old(store) && collisionCount == attempts && name == Name(base, collisionCount)
        invariant forall i :: 0 <= i < collisionCount ==> Name(base, i) in store
        invariant FirstUsable(store, base, run, 0) == FirstUsable(store, base, run, collisionCount)
        decreases |old(store)| + 1 - collisionCount
      {
        NamesInUse(store, base, collisionCount);
        attempts := attempts + 1;
        if faults(collisionCount).CreateFault? { return Err(CreateFailed), attempts; }
        if name !in store {
          store := store[name := run];
          return Ok(name), attempts;
        }
        if faults(collisionCount).GetFault? { return Err(GetFailed), attempts; }
        var existing := store[name];
        if Reclaims(existing, run) { return Ok(name), attempts; }
        NamesInUse(store, base, collisionCount + 1);
        collisionCount := collisionCount + 1;
        name := base + "." + Decimal(collisionCount);
      }
    }
  }

  /******* Calling again *******/

  // Objects keep what they are, may finish, and new ones may appear.
  predicate Evolves(before: Store, after: Store) {
    forall name :: name in before ==>
      && name in after
      && after[name].spec == before[name].spec && after[name].owner == before[name].owner
      && (before[name].finished ==> after[name].finished)
  }

  function StoreAfter(store: Store, base: string, run: Object): Store {
    var name := Name(base, FirstUsable(store, base, run, 0));
    if name in store then store else store[name := run]
  }

  // As long as the object that a call returned is unfinished, the same call returns it again and creates nothing,
  // whatever else has been created or has finished meanwhile.
  lemma {:induction false} SecondCallReturnsTheSame(store: Store, base: string, run: Object, later: Store)
    requires run.owner.Some? && !run.finished
    requires Evolves(StoreAfter(store, base, run), later)
    requires !later[Name(base, FirstUsable(store, base, run, 0))].finished
    ensures FirstUsable(later, base, run, 0) == FirstUsable(store, base, run, 0)
    ensures StoreAfter(later, base, run) == later
  {
    var n, m := FirstUsable(store, base, run, 0), FirstUsable(later, base, run, 0);
    var after := StoreAfter(store, base, run);
    assert Name(base, n) in after && Reclaims(after[Name(base, n)], run);
    forall i | 0 <= i < n ensures !Usable(later, base, run, i) {
      assert !Usable(store, base, run, i);
      assert Name(base, i) in store;
      if Name(base, i) == Name(base, n) { NamesDiffer(base, i, n); }
      assert after[Name(base, i)] == store[Name(base, i)];
    }
    assert Usable(later, base, run, n);
  }

  // What is returned is a fresh object or an unfinished, equal one of the same owner.
  lemma {:induction false} ReturnedIsOurs(store: Store, base: string, run: Object)
    requires run.owner.Some?
    ensures var name := Name(base, FirstUsable(store, base, run, 0));
            && name in StoreAfter(store, base, run)
            && StoreAfter(store, base, run)[name].spec == run.spec && StoreAfter(store, base, run)[name].owner == run.owner
            && (name in store ==> !store[name].finished && StoreAfter(store, base, run) == store)
            && (name !in store ==> StoreAfter(store, base, run)[name] == run && |StoreAfter(store, base, run)| == |store| + 1)
  {
    var name := Name(base, FirstUsable(store, base, run, 0));
    if name !in store {
      assert StoreAfter(store, base, run).Keys == store.Keys + {name};
    }
  }
}
