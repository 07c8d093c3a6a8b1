/** What holds of every ledger run. */
module LedgerTheorems {
  // And why everything that was reserved can be given back.

  import opened Common
  import opened Sums
  import opened LedgerModel
  import opened LedgerSafety

  datatype Op =
    | DoAdmit(key: Name, tenant: Name, bytes: int, caps: map<Bucket, nat>)
    | DoAcquire(key: Name, bucket: Bucket, capacity: int, physical: bool)
    | DoActivate(key: Name, id: nat, used: int)
    | DoSetUsed(key: Name, id: nat, used: int)
    | DoRetain(key: Name, id: nat)
    | DoRelease(key: Name, id: nat)
    | DoClose(key: Name)

  function Do(L: Ledger, op: Op): Ledger {
    match op
    case DoAdmit(key, tenant, bytes, caps) => Admit(L, key, tenant, bytes, caps).0
    case DoAcquire(key, bucket, capacity, physical) => Acquire(L, key, bucket, capacity, physical).0
    case DoActivate(key, id, used) => Activate(L, key, id, used).0
    case DoSetUsed(key, id, used) => SetUsed(L, key, id, used).0
    case DoRetain(key, id) => Retain(L, key, id).0
    case DoRelease(key, id) => Release(L, key, id).0
    case DoClose(key) => Close(L, key)
  }

  function Run(L: Ledger, ops: seq<Op>): Ledger
    decreases |ops|
  {
    if ops == [] then L else Run(Do(L, ops[0]), ops[1..])
  }

  lemma {:induction false} RunAppends(L: Ledger, ops: seq<Op>, more: seq<Op>)
    ensures Run(L, ops + more) == Run(Run(L, ops), more)
    decreases |ops|
  {
    if ops == [] {
      assert ops + more == more;
    } else {
      assert (ops + more)[1..] == ops[1..] + more;
      RunAppends(Do(L, ops[0]), ops[1..], more);
    }
  }

  lemma {:induction false} FreshValid(globalLimit: nat, tenantLimit: nat)
    ensures Valid(Fresh(globalLimit, tenantLimit))
  {
    var L := Fresh(globalLimit, tenantLimit);
    forall t ensures TenantOk(L, t) { WeighEmpty(L.sessions, ForTenant(t)); }
    WeighEmpty(L.sessions, LimitOf);
    WeighEmpty(L.sessions, PhysicalIn);
    WeighEmpty(L.sessions, LeasesIn);
  }

  lemma {:induction false} DoKeeps(L: Ledger, op: Op)
    requires Valid(L)
    ensures Valid(Do(L, op))
  {
    match op
    case DoAdmit(key, tenant, bytes, caps) => AdmitKeeps(L, key, tenant, bytes, caps);
    case DoAcquire(key, bucket, capacity, physical) => AcquireKeeps(L, key, bucket, capacity, physical);
    case DoActivate(key, id, used) => ActivateKeeps(L, key, id, used);
    case DoSetUsed(key, id, used) => SetUsedKeeps(L, key, id, used);
    case DoRetain(key, id) => RetainKeeps(L, key, id);
    case DoRelease(key, id) => ReleaseKeeps(L, key, id);
    case DoClose(key) => CloseKeeps(L, key);
  }

  lemma {:induction false} RunKeeps(L: Ledger, ops: seq<Op>)
    requires Valid(L)
    ensures Valid(Run(L, ops))
    decreases |ops|
  {
    if ops != [] {
      DoKeeps(L, ops[0]);
      RunKeeps(Do(L, ops[0]), ops[1..]);
    }
  }

  /** After any run from an empty ledger every total is the sum it stands for and every limit holds. */
  lemma {:induction false} Conservation(globalLimit: nat, tenantLimit: nat, ops: seq<Op>)
    ensures Valid(Run(Fresh(globalLimit, tenantLimit), ops))
  {
    FreshValid(globalLimit, tenantLimit);
    RunKeeps(Fresh(globalLimit, tenantLimit), ops);
  }

  // ------------------------------------------------------------------ limits across scopes

  lemma {:induction false} PhysicalWithinReserved(a: Account)
    ensures PhysicalIn(a) <= Weigh(a.leases, CapacityOf)
  {
    WeighMonotone(a.leases, PhysicalOf, CapacityOf);
  }

  /** Physical bytes are covered by reservations, and those by the global allowance: no scope has to be re-checked. */
  lemma {:induction false} PhysicalWithinGlobal(L: Ledger)
    requires Valid(L)
    ensures 0 <= L.physicalBytes <= L.globalReserved <= L.globalLimit
  {
    forall k | k in L.sessions ensures PhysicalIn(L.sessions[k]) <= LimitOf(L.sessions[k]) {
      assert SessionOk(L, k);
      PhysicalWithinReserved(L.sessions[k]);
    }
    WeighMonotone(L.sessions, PhysicalIn, LimitOf);
  }

  // ------------------------------------------------------------------ refusals

  predicate Refuses(L: Ledger, op: Op) {
    match op
    case DoAdmit(key, tenant, bytes, caps) => Admit(L, key, tenant, bytes, caps).1.Some?
    case DoAcquire(key, bucket, capacity, physical) => Acquire(L, key, bucket, capacity, physical).1.Err?
    case DoActivate(key, id, used) => Activate(L, key, id, used).1.Some?
    case DoSetUsed(key, id, used) => SetUsed(L, key, id, used).1.Some?
    case DoRetain(key, id) => Retain(L, key, id).1.Some?
    case DoRelease(key, id) => !Alive(L, key, id)
    case DoClose(key) => key !in L.sessions || L.sessions[key].closed
  }

  lemma {:induction false} RefusedBooks(L: Ledger, scope: Scope)
    ensures Books(Refused(L, scope)) == Books(L)
  {}

  /** A refused operation moves counters of refusals and nothing else. */
  lemma {:induction false} RefusalChangesNothing(L: Ledger, op: Op)
    requires Refuses(L, op)
    ensures Books(Do(L, op)) == Books(L)
  {
    match op
    case DoAdmit(key, tenant, bytes, caps) => RefusedBooks(L, AdmitCheck(L, key, tenant, bytes).value);
    case DoAcquire(key, bucket, capacity, physical) =>
      AcquireIs(L, key, bucket, capacity, physical);
      RefusedBooks(L, AcquireCheck(L, key, bucket, capacity).value);
    case _ =>
  }

  // ------------------------------------------------------------------ exactly once

  /** A lease name of the past that no account holds. */
  ghost predicate Spent(L: Ledger, id: nat) {
    id <= L.generation && forall k :: !Alive(L, k, id)
  }

  lemma {:induction false} SettledHolds(L: Ledger, key: Name, k: Name, id: nat)
    requires key in L.sessions && Alive(Settled(L, key), k, id)
    ensures Alive(L, k, id)
  {}

  lemma {:induction false} ReleaseHolds(L: Ledger, key: Name, id: nat, k: Name, i: nat)
    requires Alive(Release(L, key, id).0, k, i)
    ensures Alive(L, k, i) && (k == key && i == id ==> L.sessions[key].leases[id].refs > 1)
  {
    if Alive(L, key, id) && L.sessions[key].leases[id].refs <= 1 {
      SettledHolds(Refunded(L, key, id), key, k, i);
    }
  }

  lemma {:induction false} CloseHolds(L: Ledger, key: Name, k: Name, i: nat)
    requires Alive(Close(L, key), k, i)
    ensures Alive(L, k, i)
  {
    if key in L.sessions && !L.sessions[key].closed {
      SettledHolds(WithAccount(L, key, Drained(L.sessions[key])), key, k, i);
    }
  }

  lemma {:induction false} AcquireHolds(L: Ledger, op: Op, k: Name, i: nat)
    requires op.DoAcquire? && Alive(Do(L, op), k, i)
    ensures Alive(L, k, i) || (op.key == k && i == L.generation + 1)
  {
    AcquireIs(L, op.key, op.bucket, op.capacity, op.physical);
  }

  /** Only `acquire` gives an account a lease it did not hold, and that lease is new. */
  lemma {:induction false} HeldBefore(L: Ledger, op: Op, k: Name, id: nat)
    requires Alive(Do(L, op), k, id)
    ensures Alive(L, k, id) || (op.DoAcquire? && op.key == k && id == L.generation + 1)
  {
    match op
    case DoAcquire(_, _, _, _) => AcquireHolds(L, op, k, id);
    case DoRelease(key, i) => ReleaseHolds(L, key, i, k, id);
    case DoClose(key) => CloseHolds(L, key, k, id);
    case _ =>
  }

  lemma {:induction false} HeldIsOld(L: Ledger, k: Name, id: nat)
    requires AllSessions(L) && Alive(L, k, id)
    ensures id <= L.generation
  {
    assert SessionOk(L, k);
    assert LeaseOk(L.generation, L.sessions[k], id);
  }

  lemma {:induction false} GenerationGrows(L: Ledger, op: Op)
    ensures Do(L, op).generation >= L.generation
  {
    if op.DoAcquire? { AcquireIs(L, op.key, op.bucket, op.capacity, op.physical); }
  }

  lemma {:induction false} SpentStays(L: Ledger, op: Op, id: nat)
    requires Spent(L, id)
    ensures Spent(Do(L, op), id)
  {
    GenerationGrows(L, op);
    forall k ensures !Alive(Do(L, op), k, id) {
      assert !Alive(L, k, id);
      if Alive(Do(L, op), k, id) { HeldBefore(L, op, k, id); }
    }
  }

  lemma {:induction false} SpentForever(L: Ledger, ops: seq<Op>, id: nat)
    requires Spent(L, id)
    ensures Spent(Run(L, ops), id)
    decreases |ops|
  {
    if ops != [] {
      SpentStays(L, ops[0], id);
      SpentForever(Do(L, ops[0]), ops[1..], id);
    }
  }

  /** Two accounts never hold a lease of the same name. */
  ghost predicate OneHolder(L: Ledger) {
    forall k, j, id :: Alive(L, k, id) && Alive(L, j, id) ==> k == j
  }

  lemma {:induction false} OneHolderStays(L: Ledger, op: Op)
    requires AllSessions(L) && OneHolder(L)
    ensures OneHolder(Do(L, op))
  {
    forall k, j, id | Alive(Do(L, op), k, id) && Alive(Do(L, op), j, id) ensures k == j {
      HeldBefore(L, op, k, id);
      HeldBefore(L, op, j, id);
      if Alive(L, k, id) { HeldIsOld(L, k, id); }
      if Alive(L, j, id) { HeldIsOld(L, j, id); }
    }
  }

  lemma {:induction false} OneHolderAlways(L: Ledger, ops: seq<Op>)
    requires Valid(L) && OneHolder(L)
    ensures OneHolder(Run(L, ops))
    decreases |ops|
  {
    if ops != [] {
      OneHolderStays(L, ops[0]);
      DoKeeps(L, ops[0]);
      OneHolderAlways(Do(L, ops[0]), ops[1..]);
    }
  }

  /**
   * Once a release has returned a lease's capacity no later release of it returns anything: whatever runs in
   * between, it reports false and moves one misuse counter.
   */
  lemma {:induction false} ReturnedOnce(L: Ledger, key: Name, id: nat, ops: seq<Op>)
    requires Valid(L) && OneHolder(L) && Alive(L, key, id)
    requires Release(L, key, id).1
    ensures var L' := Run(Release(L, key, id).0, ops);
      !Release(L', key, id).1 && Books(Release(L', key, id).0) == Books(L')
  {
    var L1 := Release(L, key, id).0;
    HeldIsOld(L, key, id);
    GenerationGrows(L, DoRelease(key, id));
    forall k ensures !Alive(L1, k, id) {
      if Alive(L1, k, id) { ReleaseHolds(L, key, id, k, id); }
    }
    SpentForever(L1, ops, id);
    assert !Alive(Run(L1, ops), key, id);
  }

  // ------------------------------------------------------------------ reference counts

  function ReleaseTimes(L: Ledger, key: Name, id: nat, n: nat): Ledger
    decreases n
  {
    if n == 0 then L else ReleaseTimes(Release(L, key, id).0, key, id, n - 1)
  }

  /** Fewer releases than references return nothing. */
  lemma {:induction false} EarlierReleasesReturnNothing(L: Ledger, key: Name, id: nat, n: nat)
    requires Alive(L, key, id) && n < L.sessions[key].leases[id].refs
    ensures ReleaseTimes(L, key, id, n)
         == WithAccount(L, key, WithRefs(L.sessions[key], id, L.sessions[key].leases[id].refs - n))
    decreases n
  {
    var a := L.sessions[key];
    if n == 0 {
      assert a.leases[id := a.leases[id].(refs := a.leases[id].refs)] == a.leases;
      assert L.sessions[key := a] == L.sessions;
    } else {
      var refs := a.leases[id].refs;
      var L1 := WithAccount(L, key, WithRefs(a, id, refs - 1));
      EarlierReleasesReturnNothing(L1, key, id, n - 1);
      assert WithRefs(L1.sessions[key], id, refs - n).leases == WithRefs(a, id, refs - n).leases;
      assert WithAccount(L1, key, WithRefs(a, id, refs - n)).sessions
          == WithAccount(L, key, WithRefs(a, id, refs - n)).sessions;
    }
  }

  lemma {:induction false} OneRelease(L: Ledger, key: Name, id: nat)
    requires Alive(L, key, id) && L.sessions[key].leases[id].refs == 1
    ensures var L' := Release(L, key, id).0;
      var l := L.sessions[key].leases[id];
      && L'.physicalBytes == L.physicalBytes - PhysicalOf(l)
      && L'.tally.returned == L.tally.returned + 1
      && (key in L'.sessions ==>
            L'.sessions[key] == Returned(L.sessions[key], id) && L'.globalReserved == L.globalReserved)
      && (key !in L'.sessions ==>
            L.sessions[key].closed && L.sessions[key].leases.Keys == {id}
            && L'.globalReserved == L.globalReserved - L.sessions[key].limit)
  {
    var a := L.sessions[key];
    if a.leases - {id} == map[] {
      assert forall i :: i in a.leases && i != id ==> i in a.leases - {id};
      assert a.leases.Keys == {id};
    }
  }

  /** As many releases as references return exactly the lease's capacity, whatever happened before. */
  lemma {:induction false} LastReleaseReturnsAll(L: Ledger, key: Name, id: nat)
    requires Alive(L, key, id) && L.sessions[key].leases[id].refs >= 1
    ensures var L' := ReleaseTimes(L, key, id, L.sessions[key].leases[id].refs);
      var l := L.sessions[key].leases[id];
      && L'.physicalBytes == L.physicalBytes - PhysicalOf(l)
      && L'.tally.returned == L.tally.returned + 1
      && (key in L'.sessions ==>
            L'.sessions[key] == Returned(L.sessions[key], id) && L'.globalReserved == L.globalReserved)
      && (key !in L'.sessions ==>
            L.sessions[key].closed && L.sessions[key].leases.Keys == {id}
            && L'.globalReserved == L.globalReserved - L.sessions[key].limit)
  {
    var a := L.sessions[key];
    var n := a.leases[id].refs - 1;
    EarlierReleasesReturnNothing(L, key, id, n);
    ReleaseTimesSplit(L, key, id, n);
    var L1 := ReleaseTimes(L, key, id, n);
    OneRelease(L1, key, id);
    assert L1.sessions[key].leases.Keys == a.leases.Keys;
    assert Returned(L1.sessions[key], id) == Returned(a, id) by {
      assert L1.sessions[key].leases - {id} == a.leases - {id};
    }
  }

  lemma {:induction false} ReleaseTimesSplit(L: Ledger, key: Name, id: nat, n: nat)
    ensures ReleaseTimes(L, key, id, n + 1) == Release(ReleaseTimes(L, key, id, n), key, id).0
    decreases n
  {
    if n > 0 { ReleaseTimesSplit(Release(L, key, id).0, key, id, n - 1); }
  }

  // ------------------------------------------------------------------ everything comes back

  /** With no session left every total is zero and every reservation ever made has been returned. */
  lemma {:induction false} EmptyIsZero(L: Ledger)
    requires Valid(L) && L.sessions == map[]
    ensures L.globalReserved == 0 && L.physicalBytes == 0 && L.tenants == map[]
    ensures L.tally.acquired == L.tally.returned && L.tally.admitted == L.tally.finished
  {
    WeighEmpty(L.sessions, LimitOf);
    WeighEmpty(L.sessions, PhysicalIn);
    WeighEmpty(L.sessions, LeasesIn);
    forall t ensures t !in L.tenants {
      assert TenantOk(L, t);
      WeighEmpty(L.sessions, ForTenant(t));
    }
  }

  /** Once every account is closed and every lease released, every total is zero. */
  lemma {:induction false} AllClosedIsZero(L: Ledger)
    requires Valid(L)
    requires forall k :: k in L.sessions ==> L.sessions[k].closed && L.sessions[k].leases == map[]
    ensures L.sessions == map[] && L.globalReserved == 0 && L.physicalBytes == 0 && L.tenants == map[]
    ensures L.tally.acquired == L.tally.returned && L.tally.admitted == L.tally.finished
  {
    forall k ensures k !in L.sessions { assert SessionOk(L, k); }
    EmptyIsZero(L);
  }

  function RefsOf(l: Lease): nat { l.refs }

  /** References still held in an account, and one for being open. */
  ghost function Owed(a: Account): nat { Weigh(a.leases, RefsOf) + if a.closed then 0 else 1 }

  ghost function AllOwed(L: Ledger): nat { Weigh(L.sessions, Owed) }

  lemma {:induction false} OwedReplaced(L: Ledger, key: Name, a: Account)
    requires key in L.sessions && Owed(a) < Owed(L.sessions[key])
    ensures Weigh(L.sessions[key := a], Owed) < AllOwed(L)
  {
    WeighReplace(L.sessions, Owed, key, a);
  }

  lemma {:induction false} SettledOwes(L: Ledger, key: Name)
    requires key in L.sessions
    ensures AllOwed(Settled(L, key)) <= AllOwed(L)
  {
    WeighRemove(L.sessions, Owed, key);
  }

  lemma {:induction false} CloseOwes(L: Ledger, key: Name)
    requires key in L.sessions && !L.sessions[key].closed
    ensures AllOwed(Close(L, key)) < AllOwed(L)
  {
    var a := L.sessions[key];
    WeighSame(a.leases, Drained(a).leases, RefsOf);
    OwedReplaced(L, key, Drained(a));
    SettledOwes(WithAccount(L, key, Drained(a)), key);
  }

  lemma {:induction false} ReleaseOwes(L: Ledger, key: Name, id: nat)
    requires Alive(L, key, id) && L.sessions[key].leases[id].refs >= 1
    ensures AllOwed(Release(L, key, id).0) < AllOwed(L)
  {
    var a := L.sessions[key];
    var refs := a.leases[id].refs;
    if refs > 1 {
      WeighReplace(a.leases, RefsOf, id, a.leases[id].(refs := refs - 1));
      OwedReplaced(L, key, WithRefs(a, id, refs - 1));
    } else {
      WeighRemove(a.leases, RefsOf, id);
      OwedReplaced(L, key, Returned(a, id));
      SettledOwes(Refunded(L, key, id), key);
    }
  }

  predicate GivesBack(op: Op) { op.DoClose? || op.DoRelease? }

  predicate OnlyGivesBack(ops: seq<Op>) { forall op :: op in ops ==> GivesBack(op) }

  lemma {:induction false} GiveBackThen(L: Ledger, op: Op, rest: seq<Op>)
    ensures Run(L, [op] + rest) == Run(Do(L, op), rest)
    ensures GivesBack(op) && OnlyGivesBack(rest) ==> OnlyGivesBack([op] + rest)
  {
    assert ([op] + rest)[1..] == rest;
  }

  lemma {:induction false} ClosedHolds(L: Ledger, key: Name) returns (id: nat)
    requires AllSessions(L) && key in L.sessions && L.sessions[key].closed
    ensures Alive(L, key, id) && L.sessions[key].leases[id].refs >= 1
  {
    assert SessionOk(L, key);
    id :| id in L.sessions[key].leases;
    assert LeaseOk(L.generation, L.sessions[key], id);
  }

  lemma {:induction false} NextGiveBack(L: Ledger) returns (op: Op)
    requires AllSessions(L) && L.sessions != map[]
    ensures GivesBack(op) && AllOwed(Do(L, op)) < AllOwed(L)
  {
    hide AllOwed, Release, Close;
    var key :| key in L.sessions;
    if L.sessions[key].closed {
      var id := ClosedHolds(L, key);
      op := DoRelease(key, id);
      assert AllOwed(Do(L, op)) < AllOwed(L) by { ReleaseOwes(L, key, id); }
    } else {
      op := DoClose(key);
      assert AllOwed(Do(L, op)) < AllOwed(L) by { CloseOwes(L, key); }
    }
  }

  /** From any reachable ledger, closing accounts and releasing what they hold leads to zero: nothing is stuck. */
  lemma {:induction false} Drains(L: Ledger) returns (ops: seq<Op>)
    requires Valid(L)
    ensures OnlyGivesBack(ops) && Run(L, ops).sessions == map[]
    decreases AllOwed(L)
  {
    ops := [];
    if L.sessions != map[] {
      var first := NextGiveBack(L);
      DoKeeps(L, first);
      var rest := Drains(Do(L, first));
      ops := [first] + rest;
      GiveBackThen(L, first, rest);
    }
  }

  // ------------------------------------------------------------------ the oracle

  ghost predicate BucketReconciles(a: Account, b: Bucket) { Get(a.byBucket, b) == Weigh(a.leases, InBucket(b)) }

  predicate Fits(l: Lease) { l.used <= l.capacity }

  predicate AllFit(leases: map<nat, Lease>) { forall id :: id in leases ==> Fits(leases[id]) }

  /** What `reconcile` finds no error in. */
  ghost predicate AccountReconciles(a: Account) {
    && a.reserved == Weigh(a.leases, CapacityOf)
    && (forall b :: BucketReconciles(a, b))
    && a.reserved <= a.limit
    && AllFit(a.leases)
  }

  ghost predicate AllReconcile(sessions: map<Name, Account>) {
    forall k :: k in sessions ==> AccountReconciles(sessions[k])
  }

  ghost predicate TenantReconciles(L: Ledger, t: Name) {
    t in L.tenants ==> Weigh(L.sessions, ForTenant(t)) == L.tenants[t]
  }

  ghost predicate Reconciles(L: Ledger) {
    && AllReconcile(L.sessions)
    && Weigh(L.sessions, LimitOf) == L.globalReserved
    && (forall t :: TenantReconciles(L, t))
    && L.globalReserved <= L.globalLimit
  }

  lemma {:induction false} ValidReconciles(L: Ledger)
    requires Valid(L)
    ensures Reconciles(L)
  {
    forall k | k in L.sessions ensures AccountReconciles(L.sessions[k]) {
      assert SessionOk(L, k);
      var a := L.sessions[k];
      forall b ensures BucketReconciles(a, b) { assert BucketOk(a, b); }
      forall id | id in a.leases ensures Fits(a.leases[id]) {
        assert LeaseOk(L.generation, a, id);
      }
    }
    forall t ensures TenantReconciles(L, t) { assert TenantOk(L, t); }
  }

  /** The oracle is always satisfied, and the physical bytes it recomputes are the running ones. */
  lemma {:induction false} ReconcileAlwaysOk(globalLimit: nat, tenantLimit: nat, ops: seq<Op>)
    ensures var L := Run(Fresh(globalLimit, tenantLimit), ops);
      Reconciles(L) && Weigh(L.sessions, PhysicalIn) == L.physicalBytes
  {
    Conservation(globalLimit, tenantLimit, ops);
    ValidReconciles(Run(Fresh(globalLimit, tenantLimit), ops));
  }
}
