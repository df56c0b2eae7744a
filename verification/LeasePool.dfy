/** The durable lease pool of the runtimes of a namespace: index-named leases that are
    created on demand and never removed, and the readiness test that only counts them. */
module LeasePool {
  import opened Strings
  import opened Wrappers

  const LEASE_PREFIX := "flow-pool-member-"

  /** %02d */
  function Padded(i: nat): (s: string)
    ensures '-' !in s
  {
    if i < 10 then "0" + Decimal(i) else Decimal(i)
  }

  function LeaseName(runtime: string, index: nat): string {
    LEASE_PREFIX + runtime + "-" + Padded(index)
  }

  // ---------- Names are injective

  lemma PaddedInjective(i: nat, j: nat)
    requires Padded(i) == Padded(j)
    ensures i == j
  {
    if i < 10 && j < 10 {
      assert Padded(i)[1..] == Decimal(i) && Padded(j)[1..] == Decimal(j);
    } else if i < 10 {
      DecimalValue(j);
    } else if j < 10 {
      DecimalValue(i);
    }
    DecimalInjective(i, j);
  }

  /** A numeral of at least two digits, padded with one zero at most. */
  predicate TwoDigitNumeral(p: string, i: nat) {
    Digits(p) && Value(p) == i && |p| >= 2 && (|p| > 2 ==> p[0] != '0')
  }

  /** The name spells the prefix, the runtime and the index. */
  lemma LeaseNameReads(runtime: string, i: nat) returns (p: string)
    ensures TwoDigitNumeral(p, i) && LeaseName(runtime, i) == "flow-pool-member-" + runtime + "-" + p
  {
    p := Padded(i);
    DecimalValue(i);
    if i < 10 {
      assert p[..1] == "0" && p[0] == '0' && p[1] == Decimal(i)[0] && p[..1][..0] == "";
      assert Decimal(i)[..0] == "";
      assert Value(p) == 10 * Value(p[..1]) + (p[1] as int - '0' as int);
    }
  }

  /** Whatever dashes and digits the runtime names hold, two pools share no lease. */
  lemma LeaseNameInjective(a: string, i: nat, b: string, j: nat)
    requires LeaseName(a, i) == LeaseName(b, j)
    ensures a == b && i == j
  {
    LastSeparator(LEASE_PREFIX + a, Padded(i), LEASE_PREFIX + b, Padded(j), '-');
    PaddedInjective(i, j);
    var n := |LEASE_PREFIX|;
    assert (LEASE_PREFIX + a)[n..] == a && (LEASE_PREFIX + b)[n..] == b;
  }

  // ---------- Reconciling

  /** The leases of a namespace with the pool each is labelled for. */
  type Leases = map<string, string>

  /** The creation loop from an index on; creating a lease may fail, which ends it. */
  function Created(leases: Leases, runtime: string, index: nat, desired: int, fails: set<nat>): (Leases, bool)
    decreases desired - index
  {
    if index >= desired then (leases, true)
    else
      var name := LeaseName(runtime, index);
      if name in leases && leases[name] == runtime then Created(leases, runtime, index + 1, desired, fails)
      else if index in fails then (leases, false)
      else if name in leases then Created(leases, runtime, index + 1, desired, fails)  // already exists
      else Created(leases[name := runtime], runtime, index + 1, desired, fails)
  }

  datatype Deployment = Found | NotFound | Unreadable

  /** What a reconcile meets: whether the runtime has persistence, what reading the
      Deployment gives, whether the leases can be listed, and which creations fail. */
  datatype Calls = Calls(durable: bool, deployment: Deployment, listed: bool, fails: set<nat>)

  /** Without the Deployment no lease is created, since it would have no owner. */
  function Reconciled(leases: Leases, runtime: string, desired: int, calls: Calls): (Leases, bool) {
    if !calls.durable then (leases, true)
    else if calls.deployment.Unreadable? || !calls.listed then (leases, false)
    else if calls.deployment.NotFound? then (leases, true)
    else Created(leases, runtime, 0, desired, calls.fails)
  }

  /** The creation loop runs: the only way a reconcile changes anything. */
  predicate Creates(calls: Calls) {
    calls.durable && calls.deployment.Found? && calls.listed
  }

  /** No creation below the count fails. */
  predicate NoCreationFails(fails: set<nat>, desired: int) {
    forall i | i in fails :: i >= desired
  }

  /** A read whose failure ends the reconcile. */
  predicate ReadFails(calls: Calls) {
    calls.durable && (calls.deployment.Unreadable? || !calls.listed)
  }

  ghost predicate IsLease(name: string, runtime: string, desired: int) {
    exists i: nat :: i < desired && name == LeaseName(runtime, i)
  }

  /** What a reconcile leaves, whatever leases there were: nothing is lost, nothing else is
      created, and without a failing creation every index below the count has its lease. */
  ghost predicate Provides(before: Leases, after: Leases, ok: bool, runtime: string, desired: int, calls: Calls) {
    && (forall name | name in before :: name in after && after[name] == before[name])
    && (forall name | name in after && name !in before :: after[name] == runtime && IsLease(name, runtime, desired))
    && (!Creates(calls) ==> after == before && ok == !ReadFails(calls))
    && (Creates(calls) && NoCreationFails(calls.fails, desired) ==>
          ok && forall i: nat | i < desired :: LeaseName(runtime, i) in after)
    && (Creates(calls) && !ok ==> exists i: nat :: i < desired && i in calls.fails)
  }

  /** The loop goes past an index unless creating its lease fails. */
  lemma CreatedStep(leases: Leases, runtime: string, index: nat, desired: int, fails: set<nat>)
    requires index < desired
    ensures var name := LeaseName(runtime, index);
            Created(leases, runtime, index, desired, fails)
            == if !(name in leases && leases[name] == runtime) && index in fails then (leases, false)
               else Created(if name in leases then leases else leases[name := runtime],
                            runtime, index + 1, desired, fails)
  {
  }

  lemma {:induction false} CreatedKeeps(leases: Leases, runtime: string, index: nat, desired: int, fails: set<nat>)
    ensures var after := Created(leases, runtime, index, desired, fails).0;
            && (forall name | name in leases :: name in after && after[name] == leases[name])
            && (forall name | name in after && name !in leases ::
                  after[name] == runtime && IsLease(name, runtime, desired))
    decreases desired - index
  {
    if index < desired {
      var name := LeaseName(runtime, index);
      CreatedStep(leases, runtime, index, desired, fails);
      assert IsLease(name, runtime, desired);
      CreatedKeeps(if name in leases then leases else leases[name := runtime], runtime, index + 1, desired, fails);
    }
  }

  lemma {:induction false} CreatedSucceeds(leases: Leases, runtime: string, index: nat, desired: int, fails: set<nat>)
    ensures Created(leases, runtime, index, desired, fails).1 || exists j: nat :: j < desired && j in fails
    decreases desired - index
  {
    if index < desired {
      var name := LeaseName(runtime, index);
      CreatedStep(leases, runtime, index, desired, fails);
      CreatedSucceeds(if name in leases then leases else leases[name := runtime], runtime, index + 1, desired, fails);
    }
  }

  lemma {:induction false} CreatedFills(leases: Leases, runtime: string, index: nat, desired: int, fails: set<nat>,
                                       i: nat)
    requires NoCreationFails(fails, desired) && index <= i < desired
    ensures LeaseName(runtime, i) in Created(leases, runtime, index, desired, fails).0
    decreases desired - index
  {
    var name := LeaseName(runtime, index);
    var next := if name in leases then leases else leases[name := runtime];
    CreatedStep(leases, runtime, index, desired, fails);
    if i == index {
      CreatedKeeps(next, runtime, index + 1, desired, fails);
    } else {
      CreatedFills(next, runtime, index + 1, desired, fails, i);
    }
  }

  lemma ReconciledProvides(leases: Leases, runtime: string, desired: int, calls: Calls)
    ensures var (after, ok) := Reconciled(leases, runtime, desired, calls);
            Provides(leases, after, ok, runtime, desired, calls)
  {
    CreatedKeeps(leases, runtime, 0, desired, calls.fails);
    CreatedSucceeds(leases, runtime, 0, desired, calls.fails);
    forall i: nat | i < desired && NoCreationFails(calls.fails, desired)
      ensures LeaseName(runtime, i) in Created(leases, runtime, 0, desired, calls.fails).0
    {
      CreatedFills(leases, runtime, 0, desired, calls.fails, i);
    }
  }

  class LeaseStore {
    var leases: Leases

    constructor ()
      ensures leases == map[]
    {
      leases := map[];
    }

    function Listed(pool: string): set<string>
      reads this
    {
      set name | name in leases && leases[name] == pool
    }

    /** The list of existing leases is read once, before the loop. */
    method ReconcileLeases(runtime: string, desired: int, calls: Calls) returns (ok: bool)
      modifies this
      ensures (leases, ok) == Reconciled(old(leases), runtime, desired, calls)
      ensures Provides(old(leases), leases, ok, runtime, desired, calls)
      ensures forall size: nat | Pool(old(leases), runtime, size)
                                 && Creates(calls) && NoCreationFails(calls.fails, desired) ::
                Pool(leases, runtime, Max(size, desired))
    {
      ReconciledProvides(leases, runtime, desired, calls);
      ReconciledPool(leases, runtime, desired, calls);
      if !calls.durable {
        return true;
      }
      if calls.deployment.Unreadable? {
        return false;
      }
      var deploymentFound := calls.deployment.Found?;
      if !calls.listed {
        return false;
      }
      var existing := Listed(runtime);
      var i := 0;
      while i < desired
        invariant 0 <= i
        invariant deploymentFound ==> Created(leases, runtime, i, desired, calls.fails)
                                      == Created(old(leases), runtime, 0, desired, calls.fails)
        invariant !deploymentFound ==> leases == old(leases)
        invariant forall j: nat | i <= j ::
            LeaseName(runtime, j) in existing
            <==> LeaseName(runtime, j) in leases && leases[LeaseName(runtime, j)] == runtime
      {
        var name := LeaseName(runtime, i);
        if name in existing || !deploymentFound {
          i := i + 1;
          continue;
        }
        if i in calls.fails {
          return false;
        }
        forall j: nat | i + 1 <= j
          ensures LeaseName(runtime, j) != name
        {
          if LeaseName(runtime, j) == name {
            LeaseNameInjective(runtime, j, runtime, i);
          }
        }
        if name !in leases {
          leases := leases[name := runtime];
        }
        i := i + 1;
      }
      return true;
    }

    /** The condition LeaseReady: at least as many leases as desired replicas. It is left
        as it is without persistence, and when the leases cannot be listed. */
    method LeaseReady(runtime: string, desired: int, durable: bool, listed: bool, ghost size: nat)
      returns (ready: Option<bool>, ok: bool)
      requires Pool(leases, runtime, size)
      ensures ok == (durable ==> listed)
      ensures ready.Some? <==> durable && listed
      ensures ready.Some? ==> (ready.value <==> forall i: nat | i < desired :: LeaseName(runtime, i) in leases)
    {
      if !durable {
        return None, true;
      }
      if !listed {
        return None, false;
      }
      PoolCount(leases, runtime, size);
      var enough := |Listed(runtime)| >= desired;
      if !enough {
        assert LeaseName(runtime, size) !in leases;
      }
      return Some(enough), true;
    }
  }

  // ---------- The pool invariant

  /** The runtime's leases are exactly those of the indexes 0 to size - 1. */
  ghost predicate Pool(leases: Leases, runtime: string, size: nat) {
    && (forall i: nat :: LeaseName(runtime, i) in leases <==> i < size)
    && (forall i: nat | i < size :: leases[LeaseName(runtime, i)] == runtime)
    && (forall name | name in leases && leases[name] == runtime :: IsMember(name, runtime, size))
  }

  ghost predicate IsMember(name: string, runtime: string, size: nat) {
    exists i: nat :: i < size && name == LeaseName(runtime, i)
  }

  function Max(a: int, b: int): int {
    if a < b then b else a
  }

  function Names(runtime: string, size: nat): set<string> {
    if size == 0 then {} else Names(runtime, size - 1) + {LeaseName(runtime, size - 1)}
  }

  lemma {:induction false} NamesMember(runtime: string, size: nat, name: string)
    ensures name in Names(runtime, size) <==> IsMember(name, runtime, size)
  {
    if size > 0 {
      NamesMember(runtime, size - 1, name);
      MemberStep(name, runtime, size - 1);
    }
  }

  lemma MemberStep(name: string, runtime: string, size: nat)
    ensures IsMember(name, runtime, size + 1) <==> IsMember(name, runtime, size) || name == LeaseName(runtime, size)
  {
  }

  lemma {:induction false} NamesCount(runtime: string, size: nat)
    ensures |Names(runtime, size)| == size
  {
    if size > 0 {
      NamesCount(runtime, size - 1);
      var last := LeaseName(runtime, size - 1);
      NamesMember(runtime, size - 1, last);
      if last in Names(runtime, size - 1) {
        var i: nat :| i < size - 1 && last == LeaseName(runtime, i);
        LeaseNameInjective(runtime, i, runtime, size - 1);
      }
    }
  }

  lemma PoolCount(leases: Leases, runtime: string, size: nat)
    requires Pool(leases, runtime, size)
    ensures |set name | name in leases && leases[name] == runtime| == size
  {
    NamesCount(runtime, size);
    forall name
      ensures name in Names(runtime, size) <==> name in leases && leases[name] == runtime
    {
      NamesMember(runtime, size, name);
    }
    assert (set name | name in leases && leases[name] == runtime) == Names(runtime, size);
  }

  /** One more lease at the end makes the pool one larger. */
  lemma PoolGrows(leases: Leases, runtime: string, size: nat)
    requires Pool(leases, runtime, size)
    ensures Pool(leases[LeaseName(runtime, size) := runtime], runtime, size + 1)
  {
    var name := LeaseName(runtime, size);
    var grown := leases[name := runtime];
    forall i: nat | LeaseName(runtime, i) == name
      ensures i == size
    {
      LeaseNameInjective(runtime, i, runtime, size);
    }
    forall n | n in grown && grown[n] == runtime
      ensures IsMember(n, runtime, size + 1)
    {
      if n == name {
        assert size < size + 1 && n == LeaseName(runtime, size);
      } else {
        assert IsMember(n, runtime, size);
      }
    }
  }

  /** And it touches no other pool. */
  lemma OtherPoolStays(leases: Leases, runtime: string, index: nat, other: string, size: nat)
    requires other != runtime && Pool(leases, other, size)
    ensures Pool(leases[LeaseName(runtime, index) := runtime], other, size)
  {
    forall i: nat
      ensures LeaseName(other, i) != LeaseName(runtime, index)
    {
      if LeaseName(other, i) == LeaseName(runtime, index) {
        LeaseNameInjective(other, i, runtime, index);
      }
    }
    assert LeaseName(runtime, index) in leases ==> leases[LeaseName(runtime, index)] != other;
  }

  lemma CreatedExisting(leases: Leases, runtime: string, index: nat, desired: int, fails: set<nat>, size: nat)
    requires Pool(leases, runtime, size) && index < size && index < desired
    ensures Created(leases, runtime, index, desired, fails) == Created(leases, runtime, index + 1, desired, fails)
  {
  }

  lemma CreatedNew(leases: Leases, runtime: string, size: nat, desired: int, fails: set<nat>)
    requires Pool(leases, runtime, size) && size < desired
    ensures Created(leases, runtime, size, desired, fails)
            == if size in fails then (leases, false)
               else Created(leases[LeaseName(runtime, size) := runtime], runtime, size + 1, desired, fails)
  {
  }

  /** The pool has grown to some size, and all the way when nothing failed. */
  ghost predicate Grown(result: (Leases, bool), runtime: string, desired: int, size: nat, size': nat) {
    size <= size' <= Max(size, desired) && Pool(result.0, runtime, size') && (result.1 ==> size' == Max(size, desired))
  }

  /** The loop extends the initial segment, however far it gets. */
  lemma {:induction false} CreatedPool(leases: Leases, runtime: string, index: nat, desired: int, fails: set<nat>,
                                       size: nat)
    returns (size': nat)
    requires Pool(leases, runtime, size) && index <= size
    ensures Grown(Created(leases, runtime, index, desired, fails), runtime, desired, size, size')
    decreases desired - index
  {
    if index >= desired {
      size' := size;
    } else if index < size {
      CreatedExisting(leases, runtime, index, desired, fails, size);
      size' := CreatedPool(leases, runtime, index + 1, desired, fails, size);
    } else {
      CreatedNew(leases, runtime, size, desired, fails);
      if size in fails {
        size' := size;
      } else {
        PoolGrows(leases, runtime, size);
        size' := CreatedPool(leases[LeaseName(runtime, size) := runtime], runtime, size + 1, desired, fails, size + 1);
      }
    }
  }

  /** Without a failing creation the pool grows to exactly the count, and never shrinks. */
  lemma ReconciledPool(leases: Leases, runtime: string, desired: int, calls: Calls)
    ensures forall size: nat | Pool(leases, runtime, size) && Creates(calls) && NoCreationFails(calls.fails, desired) ::
              Pool(Reconciled(leases, runtime, desired, calls).0, runtime, Max(size, desired))
  {
    forall size: nat | Pool(leases, runtime, size) && Creates(calls) && NoCreationFails(calls.fails, desired)
      ensures Pool(Reconciled(leases, runtime, desired, calls).0, runtime, Max(size, desired))
    {
      CreatedSucceeds(leases, runtime, 0, desired, calls.fails);
      var size' := CreatedPool(leases, runtime, 0, desired, calls.fails, size);
    }
  }

  lemma {:induction false} CreatedKeepsOthers(leases: Leases, runtime: string, index: nat, desired: int,
                                              fails: set<nat>,
                                              other: string, size: nat)
    requires other != runtime && Pool(leases, other, size)
    ensures Pool(Created(leases, runtime, index, desired, fails).0, other, size)
    decreases desired - index
  {
    if index < desired {
      var name := LeaseName(runtime, index);
      if name in leases {
        CreatedKeepsOthers(leases, runtime, index + 1, desired, fails, other, size);
      } else if index !in fails {
        OtherPoolStays(leases, runtime, index, other, size);
        CreatedKeepsOthers(leases[name := runtime], runtime, index + 1, desired, fails, other, size);
      }
    }
  }

  // ---------- Every run

  /** A reconcile of some runtime: the replicas asked for, and what it meets. */
  datatype Event = Reconcile(runtime: string, desired: int, calls: Calls)

  function Run(leases: Leases, events: seq<Event>): Leases
    decreases |events|
  {
    if events == [] then leases
    else
      var e := events[|events| - 1];
      Reconciled(Run(leases, events[..|events| - 1]), e.runtime, e.desired, e.calls).0
  }

  /** The largest replica count ever asked for a runtime, at least zero. */
  function Largest(events: seq<Event>, runtime: string): nat
    decreases |events|
  {
    if events == [] then 0
    else
      var e := events[|events| - 1];
      var before := Largest(events[..|events| - 1], runtime);
      if e.runtime == runtime then Max(before, e.desired) else before
  }

  ghost predicate HasPool(leases: Leases, runtime: string, most: nat) {
    exists size: nat :: size <= most && Pool(leases, runtime, size)
  }

  /** From an empty namespace, through any replica changes, missing Deployments and
      failed calls, every pool is an initial segment of the indexes that never
      exceeds the largest replica count asked for. */
  lemma {:induction false} PoolsAreSegments(events: seq<Event>, runtime: string)
    ensures HasPool(Run(map[], events), runtime, Largest(events, runtime))
    decreases |events|
  {
    if events == [] {
      assert Pool(map[], runtime, 0);
    } else {
      var front, e := events[..|events| - 1], events[|events| - 1];
      PoolsAreSegments(front, runtime);
      PoolsAreSegments(front, e.runtime);
      var leases := Run(map[], front);
      var size: nat :| size <= Largest(front, runtime) && Pool(leases, runtime, size);
      var own: nat :| own <= Largest(front, e.runtime) && Pool(leases, e.runtime, own);
      if Creates(e.calls) {
        var own' := CreatedPool(leases, e.runtime, 0, e.desired, e.calls.fails, own);
        assert Pool(Run(map[], events), e.runtime, own');
        if e.runtime != runtime {
          CreatedKeepsOthers(leases, e.runtime, 0, e.desired, e.calls.fails, runtime, size);
          assert Pool(Run(map[], events), runtime, size);
        }
      } else {
        assert Pool(Run(map[], events), runtime, size);
      }
    }
  }

  /** Pools never shrink over any run, scale-down included. */
  lemma {:induction false} LeasesPersist(leases: Leases, events: seq<Event>)
    ensures forall name | name in leases ::
              name in Run(leases, events) && Run(leases, events)[name] == leases[name]
    decreases |events|
  {
    if events != [] {
      var front, e := events[..|events| - 1], events[|events| - 1];
      LeasesPersist(leases, front);
      ReconciledProvides(Run(leases, front), e.runtime, e.desired, e.calls);
    }
  }

  /** Once a reconcile has met the Deployment and no failure, every index below its count
      has a lease, whatever reconciles follow. */
  lemma {:induction false} LeasesProvided(leases: Leases, events: seq<Event>, n: nat, i: nat)
    requires n < |events| && i < events[n].desired
    requires Creates(events[n].calls) && NoCreationFails(events[n].calls.fails, events[n].desired)
    ensures LeaseName(events[n].runtime, i) in Run(leases, events)
    decreases |events|
  {
    var front, e := events[..|events| - 1], events[|events| - 1];
    ReconciledProvides(Run(leases, front), e.runtime, e.desired, e.calls);
    if n < |front| {
      assert front[n] == events[n];
      LeasesProvided(leases, front, n, i);
    }
  }

  /** After every run, counting the leases of a pool tells whether each index has one. */
  lemma CountIsExact(events: seq<Event>, runtime: string, desired: int)
    ensures var leases := Run(map[], events);
            |set name | name in leases && leases[name] == runtime| >= desired
            <==> forall i: nat | i < desired :: LeaseName(runtime, i) in leases
  {
    PoolsAreSegments(events, runtime);
    var leases := Run(map[], events);
    var size: nat :| size <= Largest(events, runtime) && Pool(leases, runtime, size);
    PoolCount(leases, runtime, size);
    if size < desired {
      assert LeaseName(runtime, size) !in leases;
    }
  }
}
