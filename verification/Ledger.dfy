/** The reservation controller: one object whose running totals and tables the operations change in place. */
module RamLedger {
  import opened Common
  import opened Sums
  import L = LedgerModel
  import opened LedgerTheorems

  const BUCKETS: seq<L.Bucket> := [
    L.Receive, L.Reassembly, L.QueuedOut, L.InflightOut, L.Bridge, L.VfsBytes,
    L.History, L.Workspace, L.Metadata, L.Codec, L.WorkerRuntime]

  const NO_LEASES: map<nat, L.Lease> := map[]

  const NO_SESSIONS: map<Name, L.Account> := map[]

  class Controller {
    const globalLimit: nat
    const tenantLimit: nat
    var globalReserved: int
    var tenants: map<Name, int>
    var sessions: map<Name, L.Account>
    var physicalBytes: int
    var gen: nat
    var tally: L.Tally
    var rejects: L.Rejects
    var violations: L.Violations

    ghost function State(): L.Ledger
      reads this
    {
      L.Ledger(globalLimit, tenantLimit, globalReserved, tenants, sessions, physicalBytes, gen, tally, rejects,
          violations)
    }

    constructor (globalBytes: nat, tenantBytes: nat)
      ensures State() == L.Fresh(globalBytes, tenantBytes)
    {
      globalLimit, tenantLimit := globalBytes, tenantBytes;
      globalReserved, tenants, sessions := 0, map[], map[];
      physicalBytes, gen := 0, 0;
      tally, rejects, violations := L.Tally(0, 0, 0, 0), L.Rejects(0, 0, 0, 0, 0), L.Violations(0, 0);
    }

    method Admit(key: Name, tenant: Name, bytes: int, caps: map<L.Bucket, nat>) returns (refused: Option<L.Scope>)
      modifies this
      ensures (State(), refused) == L.Admit(old(State()), key, tenant, bytes, caps)
    {
      if key in sessions { return Some(L.AlreadyAdmitted); }
      if bytes <= 0 || bytes > L.MAX_SAFE { return Some(L.BadExtent); }
      var t := if tenant in tenants then tenants[tenant] else 0;
      if t + bytes > tenantLimit {
        rejects := rejects.(tenant := rejects.tenant + 1);
        return Some(L.OverTenant);
      }
      if globalReserved + bytes > globalLimit {
        rejects := rejects.(overall := rejects.overall + 1);
        return Some(L.OverGlobal);
      }
      tenants := tenants[tenant := t + bytes];
      globalReserved := globalReserved + bytes;
      sessions := sessions[key := L.OpenAccount(tenant, bytes, caps)];
      tally := tally.(admitted := tally.admitted + 1);
      refused := None;
    }

    method Acquire(key: Name, bucket: L.Bucket, capacity: int, physical: bool) returns (got: Result<nat, L.Scope>)
      modifies this
      ensures (State(), got) == L.Acquire(old(State()), key, bucket, capacity, physical)
    {
      if key !in sessions || sessions[key].closed {
        rejects := rejects.(closed := rejects.closed + 1);
        return Err(L.AccountClosed);
      }
      if capacity < 0 || capacity > L.MAX_SAFE { return Err(L.BadExtent); }
      var a := sessions[key];
      var held := if bucket in a.byBucket then a.byBucket[bucket] else 0;
      if bucket in a.caps && held + capacity > a.caps[bucket] {
        rejects := rejects.(bucket := rejects.bucket + 1);
        return Err(L.OverBucket);
      }
      if a.reserved + capacity > a.limit {
        rejects := rejects.(session := rejects.session + 1);
        return Err(L.OverSession);
      }
      if gen >= L.MAX_SAFE - 1 { return Err(L.NoGeneration); }
      gen := gen + 1;
      var lease := L.Lease(gen, bucket, capacity, 0, physical, 1, L.Reserved);
      a := a.(reserved := a.reserved + capacity,
              byBucket := a.byBucket[bucket := held + capacity],
              leases := a.leases[gen := lease]);
      sessions := sessions[key := a];
      if physical { physicalBytes := physicalBytes + capacity; }
      tally := tally.(acquired := tally.acquired + 1);
      got := Ok(gen);
    }

    method Activate(key: Name, id: nat, used: int) returns (refused: Option<L.Scope>)
      modifies this
      ensures (State(), refused) == L.Activate(old(State()), key, id, used)
    {
      if key !in sessions || id !in sessions[key].leases { return Some(L.Stale); }
      var a := sessions[key];
      if used < 0 || used > a.leases[id].capacity { return Some(L.BadExtent); }
      sessions := sessions[key := a.(leases := a.leases[id := a.leases[id].(used := used, state := L.Active)])];
      refused := None;
    }

    method SetUsed(key: Name, id: nat, used: int) returns (refused: Option<L.Scope>)
      modifies this
      ensures (State(), refused) == L.SetUsed(old(State()), key, id, used)
    {
      if key !in sessions || id !in sessions[key].leases { return Some(L.Stale); }
      var a := sessions[key];
      if used < 0 || used > a.leases[id].capacity { return Some(L.BadExtent); }
      sessions := sessions[key := a.(leases := a.leases[id := a.leases[id].(used := used)])];
      refused := None;
    }

    method Retain(key: Name, id: nat) returns (refused: Option<L.Scope>)
      modifies this
      ensures (State(), refused) == L.Retain(old(State()), key, id)
    {
      if key !in sessions || id !in sessions[key].leases { return Some(L.Stale); }
      var a := sessions[key];
      sessions := sessions[key := a.(leases := a.leases[id := a.leases[id].(refs := a.leases[id].refs + 1)])];
      refused := None;
    }

    /** `_finishClose` */
    method FinishClose(key: Name)
      requires key in sessions
      modifies this
      ensures State() == L.FinishClose(old(State()), key)
    {
      var a := sessions[key];
      sessions := sessions - {key};
      var t := (if a.tenant in tenants then tenants[a.tenant] else 0) - a.limit;
      if t > 0 { tenants := tenants[a.tenant := t]; } else { tenants := tenants - {a.tenant}; }
      globalReserved := globalReserved - a.limit;
      tally := tally.(finished := tally.finished + 1);
    }

    /** `_return` */
    method Return(key: Name, id: nat)
      requires key in sessions && id in sessions[key].leases
      modifies this
      ensures State() == L.Settled(L.Refunded(old(State()), key, id), key)
    {
      var a := sessions[key];
      var l := a.leases[id];
      var held := if l.bucket in a.byBucket then a.byBucket[l.bucket] else 0;
      a := a.(reserved := a.reserved - l.capacity,
              byBucket := a.byBucket[l.bucket := held - l.capacity],
              leases := a.leases - {id});
      sessions := sessions[key := a];
      if l.physical { physicalBytes := physicalBytes - l.capacity; }
      tally := tally.(returned := tally.returned + 1);
      if a.closed && a.leases == map[] { FinishClose(key); }
    }

    method Release(key: Name, id: nat) returns (last: bool)
      modifies this
      ensures (State(), last) == L.Release(old(State()), key, id)
    {
      if key !in sessions || id !in sessions[key].leases {
        violations := violations.(duplicateRelease := violations.duplicateRelease + 1);
        return false;
      }
      var a := sessions[key];
      if a.leases[id].refs > 1 {
        sessions := sessions[key := a.(leases := a.leases[id := a.leases[id].(refs := a.leases[id].refs - 1)])];
        return false;
      }
      Return(key, id);
      last := true;
    }

    method Close(key: Name)
      modifies this
      ensures State() == L.Close(old(State()), key)
    {
      if key !in sessions || sessions[key].closed { return; }
      var a := sessions[key].(closed := true);
      ghost var a0 := sessions[key];
      var todo := a.leases.Keys;
      while todo != {}
        invariant todo <= a0.leases.Keys && a.leases.Keys == a0.leases.Keys
        invariant a == a0.(closed := true, leases := a.leases)
        invariant forall i :: i in a0.leases ==>
          a.leases[i] == if i in todo then a0.leases[i] else a0.leases[i].(state := L.Draining)
        decreases |todo|
      {
        var i :| i in todo;
        a := a.(leases := a.leases[i := a.leases[i].(state := L.Draining)]);
        todo := todo - {i};
      }
      assert a.leases == L.Drained(a0).leases;
      sessions := sessions[key := a];
      if a.leases == map[] { FinishClose(key); }
    }

    /** Recomputes an account's totals from its leases. */
    static method SumLeases(a: L.Account)
      returns (sum: nat, physical: nat, found: map<L.Bucket, nat>, fits: bool)
      ensures sum == Weigh(a.leases, L.CapacityOf) && physical == L.PhysicalIn(a)
      ensures forall b :: FoundIs(found, a.leases, b)
      ensures fits <==> AllFit(a.leases)
    {
      sum, physical, fits := 0, 0, true;
      found := map b | b in BUCKETS :: 0;
      var todo := a.leases.Keys;
      ghost var seen := NO_LEASES;
      SumStarts(found);
      while todo != {}
        invariant todo <= a.leases.Keys && seen == a.leases - todo
        invariant Summed(seen, sum, physical, fits)
        invariant forall b :: FoundIs(found, seen, b)
        decreases |todo|
      {
        var i :| i in todo;
        var l := a.leases[i];
        ghost var next := seen[i := l];
        Visit(a.leases, todo, seen, i, next);
        SumStep(seen, next, i, l, sum, physical, fits);
        sum, physical := sum + l.capacity, physical + L.PhysicalOf(l);
        fits := fits && Fits(l);
        assert FoundIs(found, seen, l.bucket);
        ghost var was := found;
        found := found[l.bucket := found[l.bucket] + l.capacity];
        FoundStep(was, found, seen, next, i, l);
        seen := next;
        todo := todo - {i};
      }
      assert seen == a.leases;
    }

    static method Audit(a: L.Account) returns (ok: bool, physical: nat)
      ensures ok <==> AccountReconciles(a)
      ensures physical == L.PhysicalIn(a)
    {
      var sum, found, fits;
      sum, physical, found, fits := SumLeases(a);
      var books := true;
      for k := 0 to |BUCKETS|
        invariant books <==> forall j :: 0 <= j < k ==> BucketReconciles(a, BUCKETS[j])
      {
        var b := BUCKETS[k];
        assert FoundIs(found, a.leases, b);
        if found[b] != (if b in a.byBucket then a.byBucket[b] else 0) { books := false; }
      }
      BucketsComplete(a);
      ok := fits && books && sum == a.reserved && a.reserved <= a.limit;
    }

    method SumSessions() returns (ok: bool, sum: nat, sumPhysical: nat, per: map<Name, nat>)
      ensures ok <==> AllReconcile(sessions)
      ensures sum == Weigh(sessions, L.LimitOf) && sumPhysical == Weigh(sessions, L.PhysicalIn)
      ensures forall t :: PerTenant(per, sessions, t)
    {
      ok, sum, sumPhysical, per := true, 0, 0, map[];
      var todo := sessions.Keys;
      ghost var seen := NO_SESSIONS;
      ReconcileStarts();
      while todo != {}
        invariant todo <= sessions.Keys && seen == sessions - todo
        invariant sum == Weigh(seen, L.LimitOf) && sumPhysical == Weigh(seen, L.PhysicalIn)
        invariant forall t :: PerTenant(per, seen, t)
        invariant ok <==> AllReconcile(seen)
        decreases |todo|
      {
        var k :| k in todo;
        var a := sessions[k];
        var fine, physical := Audit(a);
        ghost var next := seen[k := a];
        Visit(sessions, todo, seen, k, next);
        ReconcileStep(seen, next, k, a);
        ghost var was := per;
        sum, sumPhysical := sum + a.limit, sumPhysical + physical;
        per := per[a.tenant := (if a.tenant in per then per[a.tenant] else 0) + a.limit];
        PerTenantStep(was, per, seen, next, k, a);
        ok := ok && fine;
        seen := next;
        todo := todo - {k};
      }
      assert seen == sessions;
    }

    /** The oracle: every total recomputed from the leaves and compared with the running one. */
    method Reconcile() returns (ok: bool, sumPhysical: nat)
      ensures ok <==> Reconciles(State())
      ensures sumPhysical == Weigh(sessions, L.PhysicalIn)
    {
      var sum, per;
      ok, sum, sumPhysical, per := SumSessions();
      var names := tenants.Keys;
      var shares := true;
      while names != {}
        invariant names <= tenants.Keys
        invariant shares <==> forall t :: t !in names ==> TenantReconciles(State(), t)
        decreases |names|
      {
        var t :| t in names;
        assert PerTenant(per, sessions, t);
        ghost var before := names;
        var share := if t in per then per[t] else 0;
        assert TenantReconciles(State(), t) <==> share == tenants[t];
        shares := shares && share == tenants[t];
        names := names - {t};
        assert forall s :: s !in names <==> s !in before || s == t;
      }
      ok := ok && shares && sum == globalReserved && globalReserved <= globalLimit;
    }
  }

  // ------------------------------------------------------------------ steps of the oracle's loops

  ghost predicate PerTenant(per: map<Name, nat>, seen: map<Name, L.Account>, t: Name) {
    (if t in per then per[t] else 0) == Weigh(seen, L.ForTenant(t))
  }

  ghost predicate FoundIs(found: map<L.Bucket, nat>, seen: map<nat, L.Lease>, b: L.Bucket) {
    b in found && found[b] == Weigh(seen, L.InBucket(b))
  }

  lemma {:induction false} AllBuckets(b: L.Bucket)
    ensures b in BUCKETS
  {
    var k := match b
      case Receive => 0 case Reassembly => 1 case QueuedOut => 2 case InflightOut => 3 case Bridge => 4
      case VfsBytes => 5 case History => 6 case Workspace => 7 case Metadata => 8 case Codec => 9
      case WorkerRuntime => 10;
    assert BUCKETS[k] == b;
  }

  lemma {:induction false} BucketsComplete(a: L.Account)
    ensures (forall j :: 0 <= j < |BUCKETS| ==> BucketReconciles(a, BUCKETS[j])) <==> forall b :: BucketReconciles(a, b)
  {
    if forall j :: 0 <= j < |BUCKETS| ==> BucketReconciles(a, BUCKETS[j]) {
      forall b ensures BucketReconciles(a, b) {
        AllBuckets(b);
        var j :| 0 <= j < |BUCKETS| && BUCKETS[j] == b;
      }
    }
  }

  lemma {:induction false} SumStarts(found: map<L.Bucket, nat>)
    requires found == map b | b in BUCKETS :: 0
    ensures Weigh(NO_LEASES, L.CapacityOf) == 0 && Weigh(NO_LEASES, L.PhysicalOf) == 0
    ensures forall b :: FoundIs(found, NO_LEASES, b)
  {
    WeighEmpty(NO_LEASES, L.CapacityOf);
    WeighEmpty(NO_LEASES, L.PhysicalOf);
    forall b ensures FoundIs(found, NO_LEASES, b) {
      AllBuckets(b);
      WeighEmpty(NO_LEASES, L.InBucket(b));
    }
  }

  ghost predicate Summed(seen: map<nat, L.Lease>, sum: nat, physical: nat, fits: bool) {
    && sum == Weigh(seen, L.CapacityOf)
    && physical == Weigh(seen, L.PhysicalOf)
    && (fits <==> AllFit(seen))
  }

  lemma {:induction false} SumStep(
    seen: map<nat, L.Lease>, next: map<nat, L.Lease>, i: nat, l: L.Lease, sum: nat, physical: nat, fits: bool)
    requires i !in seen && next == seen[i := l] && Summed(seen, sum, physical, fits)
    ensures Summed(next, sum + l.capacity, physical + L.PhysicalOf(l), fits && Fits(l))
  {
    WeighAdd(seen, L.CapacityOf, i, l);
    WeighAdd(seen, L.PhysicalOf, i, l);
    if AllFit(next) {
      assert Fits(next[i]);
      forall id | id in seen ensures Fits(seen[id]) { assert Fits(next[id]); }
    }
  }

  lemma {:induction false} FoundStep(
    was: map<L.Bucket, nat>, found: map<L.Bucket, nat>,
    seen: map<nat, L.Lease>, next: map<nat, L.Lease>, i: nat, l: L.Lease)
    requires i !in seen && next == seen[i := l] && forall b :: FoundIs(was, seen, b)
    requires l.bucket in was && found == was[l.bucket := was[l.bucket] + l.capacity]
    ensures forall b :: FoundIs(found, next, b)
  {
    forall b ensures FoundIs(found, next, b) {
      assert FoundIs(was, seen, b);
      WeighAdd(seen, L.InBucket(b), i, l);
    }
  }

  lemma {:induction false} ReconcileStarts()
    ensures Weigh(NO_SESSIONS, L.LimitOf) == 0 && Weigh(NO_SESSIONS, L.PhysicalIn) == 0
    ensures forall t :: PerTenant(map[], NO_SESSIONS, t)
  {
    WeighEmpty(NO_SESSIONS, L.LimitOf);
    WeighEmpty(NO_SESSIONS, L.PhysicalIn);
    forall t ensures PerTenant(map[], NO_SESSIONS, t) { WeighEmpty(NO_SESSIONS, L.ForTenant(t)); }
  }

  lemma {:induction false} ReconcileStep(seen: map<Name, L.Account>, next: map<Name, L.Account>, k: Name, a: L.Account)
    requires k !in seen && next == seen[k := a]
    ensures Weigh(next, L.LimitOf) == Weigh(seen, L.LimitOf) + a.limit
    ensures Weigh(next, L.PhysicalIn) == Weigh(seen, L.PhysicalIn) + L.PhysicalIn(a)
    ensures AllReconcile(next) <==> AllReconcile(seen) && AccountReconciles(a)
  {
    WeighAdd(seen, L.LimitOf, k, a);
    WeighAdd(seen, L.PhysicalIn, k, a);
    if AllReconcile(next) {
      assert AccountReconciles(next[k]);
      forall j | j in seen ensures AccountReconciles(seen[j]) { assert AccountReconciles(next[j]); }
    }
  }

  lemma {:induction false} PerTenantStep(
    was: map<Name, nat>, per: map<Name, nat>,
    seen: map<Name, L.Account>, next: map<Name, L.Account>, k: Name, a: L.Account)
    requires k !in seen && next == seen[k := a] && forall t :: PerTenant(was, seen, t)
    requires per == was[a.tenant := (if a.tenant in was then was[a.tenant] else 0) + a.limit]
    ensures forall t :: PerTenant(per, next, t)
  {
    forall t ensures PerTenant(per, next, t) {
      assert PerTenant(was, seen, t);
      WeighAdd(seen, L.ForTenant(t), k, a);
    }
  }
}
