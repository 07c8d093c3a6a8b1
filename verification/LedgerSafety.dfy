/** Every operation of the ledger keeps its totals exact, its limits, and each reservation returned once. */
module LedgerSafety {
  import opened Common
  import opened Sums
  import opened LedgerModel

  // ------------------------------------------------------------------ accounts

  lemma {:induction false} FreshAccountOk(generation: nat, tenant: Name, limit: nat, caps: map<Bucket, nat>)
    requires limit > 0
    ensures AccountOk(generation, OpenAccount(tenant, limit, caps))
  {
    var a := OpenAccount(tenant, limit, caps);
    WeighEmpty(a.leases, CapacityOf);
    forall b ensures BucketOk(a, b) { WeighEmpty(a.leases, InBucket(b)); }
  }

  lemma {:induction false} OlderAccountOk(generation: nat, later: nat, a: Account)
    requires AccountOk(generation, a) && generation <= later
    ensures AccountOk(later, a)
  {
    forall id ensures LeaseOk(later, a, id) { assert LeaseOk(generation, a, id); }
  }

  lemma {:induction false} GrantKeeps(generation: nat, a: Account, id: nat, l: Lease)
    requires AccountOk(generation, a) && generation < id
    requires l.generation == id && l.refs >= 1 && l.used <= l.capacity
    requires !OverCap(a, l.bucket, l.capacity) && a.reserved + l.capacity <= a.limit
    ensures AccountOk(id, Granted(a, id, l))
  {
    var a' := Granted(a, id, l);
    assert id !in a.leases by { assert LeaseOk(generation, a, id); }
    WeighAdd(a.leases, CapacityOf, id, l);
    forall b ensures BucketOk(a', b) {
      assert BucketOk(a, b);
      WeighAdd(a.leases, InBucket(b), id, l);
    }
    forall i ensures LeaseOk(id, a', i) { assert LeaseOk(generation, a, i); }
  }

  lemma {:induction false} ReturnKeeps(generation: nat, a: Account, id: nat)
    requires AccountOk(generation, a) && id in a.leases
    ensures AccountOk(generation, Returned(a, id))
  {
    var a' := Returned(a, id);
    WeighRemove(a.leases, CapacityOf, id);
    forall b ensures BucketOk(a', b) {
      assert BucketOk(a, b);
      WeighRemove(a.leases, InBucket(b), id);
    }
    forall i ensures LeaseOk(generation, a', i) { assert LeaseOk(generation, a, i); }
  }

  /** Same ids, and each lease with the same size, bucket and backing. */
  ghost predicate SameHoldings(a: Account, a': Account) {
    && a'.leases.Keys == a.leases.Keys
    && forall i :: i in a.leases ==> SameHolding(a.leases[i], a'.leases[i])
  }

  ghost predicate SameHolding(l: Lease, l': Lease) {
    && l'.capacity == l.capacity && l'.bucket == l.bucket && l'.physical == l.physical
    && l'.generation == l.generation
    && l'.refs >= 1 && l'.used <= l'.capacity
  }

  lemma {:induction false} SameHoldingsKeep(generation: nat, a: Account, a': Account)
    requires AccountOk(generation, a) && SameHoldings(a, a')
    requires a'.limit == a.limit && a'.caps == a.caps && a'.reserved == a.reserved && a'.byBucket == a.byBucket
    ensures AccountOk(generation, a') && PhysicalIn(a') == PhysicalIn(a) && LeasesIn(a') == LeasesIn(a)
  {
    WeighSame(a.leases, a'.leases, CapacityOf);
    WeighSame(a.leases, a'.leases, PhysicalOf);
    assert |a'.leases.Keys| == |a.leases.Keys|;
    forall b ensures BucketOk(a', b) {
      assert BucketOk(a, b);
      WeighSame(a.leases, a'.leases, InBucket(b));
    }
    forall i ensures LeaseOk(generation, a', i) {
      assert LeaseOk(generation, a, i);
      assert i in a.leases ==> SameHolding(a.leases[i], a'.leases[i]);
    }
  }

  // ------------------------------------------------------------------ one account replaced, added or gone

  lemma {:induction false} TenantReplaced(L: Ledger, L': Ledger, key: Name, a: Account, t: Name)
    requires TenantOk(L, t) && key in L.sessions
    requires a.limit == L.sessions[key].limit && a.tenant == L.sessions[key].tenant
    requires L'.sessions == L.sessions[key := a] && L'.tenants == L.tenants && L'.tenantLimit == L.tenantLimit
    ensures TenantOk(L', t)
  {
    WeighReplace(L.sessions, ForTenant(t), key, a);
  }

  /** Replacing one account by another with the same limit moves the totals by what that account moved. */
  lemma {:induction false} TotalsReplaced(L: Ledger, L': Ledger, key: Name, a: Account)
    requires Totals(L) && key in L.sessions && a.limit == L.sessions[key].limit
    requires L'.sessions == L.sessions[key := a]
    requires L'.globalReserved == L.globalReserved && L'.globalLimit == L.globalLimit
    requires L'.physicalBytes == L.physicalBytes + PhysicalIn(a) - PhysicalIn(L.sessions[key])
    requires L'.tally.admitted == L.tally.admitted && L'.tally.finished == L.tally.finished
    requires L'.tally.acquired - L'.tally.returned
          == L.tally.acquired - L.tally.returned + LeasesIn(a) - LeasesIn(L.sessions[key])
    ensures Totals(L')
  {
    WeighReplace(L.sessions, LimitOf, key, a);
    WeighReplace(L.sessions, PhysicalIn, key, a);
    WeighReplace(L.sessions, LeasesIn, key, a);
    assert L'.sessions.Keys == L.sessions.Keys;
    assert |L'.sessions| == |L'.sessions.Keys| && |L.sessions| == |L.sessions.Keys|;
  }

  lemma {:induction false} TenantsReplaced(L: Ledger, L': Ledger, key: Name, a: Account)
    requires AllTenants(L) && key in L.sessions
    requires a.limit == L.sessions[key].limit && a.tenant == L.sessions[key].tenant
    requires L'.sessions == L.sessions[key := a] && L'.tenants == L.tenants && L'.tenantLimit == L.tenantLimit
    ensures AllTenants(L')
  {
    forall t ensures TenantOk(L', t) {
      assert TenantOk(L, t);
      TenantReplaced(L, L', key, a, t);
    }
  }

  lemma {:induction false} OthersReplaced(L: Ledger, L': Ledger, key: Name, a: Account)
    requires AllSessions(L)
    requires L'.sessions == L.sessions[key := a] && L'.generation >= L.generation
    ensures forall k :: k != key ==> SessionOk(L', k)
  {
    forall k | k != key ensures SessionOk(L', k) {
      assert SessionOk(L, k);
      if k in L.sessions { OlderAccountOk(L.generation, L'.generation, L.sessions[k]); }
    }
  }

  lemma {:induction false} SessionsReplaced(L: Ledger, L': Ledger, key: Name, a: Account)
    requires AllSessions(L)
    requires AccountOk(L'.generation, a) && (a.closed ==> a.leases != map[])
    requires L'.sessions == L.sessions[key := a] && L'.generation >= L.generation
    ensures AllSessions(L')
  {
    OthersReplaced(L, L', key, a);
    forall k ensures SessionOk(L', k) { assert k != key ==> SessionOk(L', k); }
  }

  lemma {:induction false} TenantFinished(L: Ledger, key: Name, t: Name)
    requires key in L.sessions && TenantOk(L, t) && L.sessions[key].limit > 0
    ensures TenantOk(FinishClose(L, key), t)
  {
    WeighRemove(L.sessions, ForTenant(t), key);
  }

  lemma {:induction false} TotalsFinished(L: Ledger, key: Name)
    requires key in L.sessions && L.sessions[key].leases == map[] && Totals(L)
    ensures Totals(FinishClose(L, key))
  {
    hide Weigh;
    WeighRemove(L.sessions, LimitOf, key);
    WeighRemove(L.sessions, PhysicalIn, key);
    WeighRemove(L.sessions, LeasesIn, key);
    WeighEmpty(L.sessions[key].leases, PhysicalOf);
    assert |FinishClose(L, key).sessions| == |L.sessions| - 1;
  }

  lemma {:induction false} TenantsFinished(L: Ledger, key: Name)
    requires key in L.sessions && L.sessions[key].limit > 0 && AllTenants(L)
    ensures AllTenants(FinishClose(L, key))
  {
    forall t ensures TenantOk(FinishClose(L, key), t) {
      assert TenantOk(L, t);
      TenantFinished(L, key, t);
    }
  }

  lemma {:induction false} SessionsFinished(L: Ledger, key: Name)
    requires key in L.sessions && forall k :: k != key ==> SessionOk(L, k)
    ensures AllSessions(FinishClose(L, key))
  {
    forall k ensures SessionOk(FinishClose(L, key), k) { assert k != key ==> SessionOk(L, k); }
  }

  lemma {:induction false} TenantAdmitted(L: Ledger, L': Ledger, key: Name, a: Account, t: Name)
    requires TenantOk(L, t) && key !in L.sessions && a.limit > 0
    requires L'.sessions == L.sessions[key := a] && L'.tenantLimit == L.tenantLimit
    requires L'.tenants == L.tenants[a.tenant := Get(L.tenants, a.tenant) + a.limit]
    requires Get(L.tenants, a.tenant) + a.limit <= L.tenantLimit
    ensures TenantOk(L', t)
  {
    WeighAdd(L.sessions, ForTenant(t), key, a);
  }

  lemma {:induction false} TotalsAdmitted(L: Ledger, L': Ledger, key: Name, a: Account)
    requires Totals(L) && key !in L.sessions && a.leases == map[]
    requires L'.sessions == L.sessions[key := a] && L'.globalLimit == L.globalLimit
    requires L'.globalReserved == L.globalReserved + a.limit <= L.globalLimit
    requires L'.physicalBytes == L.physicalBytes && L'.tally == L.tally.(admitted := L.tally.admitted + 1)
    ensures Totals(L')
  {
    WeighAdd(L.sessions, LimitOf, key, a);
    WeighAdd(L.sessions, PhysicalIn, key, a);
    WeighAdd(L.sessions, LeasesIn, key, a);
    WeighEmpty(a.leases, PhysicalOf);
    assert |L'.sessions| == |L.sessions| + 1;
  }

  // ------------------------------------------------------------------ operations

  /** Everything but the counters of refusals and misuse. */
  function Books(L: Ledger): Ledger { L.(rejects := Rejects(0, 0, 0, 0, 0), violations := Violations(0, 0)) }

  lemma {:induction false} SameSessions(L: Ledger, L': Ledger)
    requires AllSessions(L) && L'.sessions == L.sessions && L'.generation == L.generation
    ensures AllSessions(L')
  {
    forall k ensures SessionOk(L', k) { assert SessionOk(L, k); }
  }

  lemma {:induction false} SameTenants(L: Ledger, L': Ledger)
    requires AllTenants(L)
    requires L'.sessions == L.sessions && L'.tenants == L.tenants && L'.tenantLimit == L.tenantLimit
    ensures AllTenants(L')
  {
    forall t ensures TenantOk(L', t) { assert TenantOk(L, t); }
  }

  lemma {:induction false} CountingKeeps(L: Ledger, rejects: Rejects, violations: Violations)
    requires Valid(L)
    ensures Valid(L.(rejects := rejects, violations := violations))
  {
    SameSessions(L, L.(rejects := rejects, violations := violations));
    SameTenants(L, L.(rejects := rejects, violations := violations));
  }

  lemma {:induction false} RefusedKeeps(L: Ledger, scope: Scope)
    requires Valid(L)
    ensures Valid(Refused(L, scope))
  {
    CountingKeeps(L, Refused(L, scope).rejects, L.violations);
  }

  lemma {:induction false} SessionsAdmitted(L: Ledger, L': Ledger, key: Name, a: Account)
    requires AllSessions(L) && AccountOk(L.generation, a) && !a.closed
    requires L'.sessions == L.sessions[key := a] && L'.generation == L.generation
    ensures AllSessions(L')
  {
    forall k ensures SessionOk(L', k) { assert SessionOk(L, k); }
  }

  lemma {:induction false} TenantsAdmitted(L: Ledger, L': Ledger, key: Name, a: Account)
    requires AllTenants(L) && key !in L.sessions && a.limit > 0
    requires L'.sessions == L.sessions[key := a] && L'.tenantLimit == L.tenantLimit
    requires L'.tenants == L.tenants[a.tenant := Get(L.tenants, a.tenant) + a.limit]
    requires Get(L.tenants, a.tenant) + a.limit <= L.tenantLimit
    ensures AllTenants(L')
  {
    forall t ensures TenantOk(L', t) {
      assert TenantOk(L, t);
      TenantAdmitted(L, L', key, a, t);
    }
  }

  lemma {:induction false} AdmittedTotals(L: Ledger, key: Name, a: Account)
    requires Totals(L) && key !in L.sessions && a.leases == map[] && L.globalReserved + a.limit <= L.globalLimit
    ensures Totals(Admitted(L, key, a))
  {
    TotalsAdmitted(L, Admitted(L, key, a), key, a);
  }

  lemma {:induction false} AdmittedTenants(L: Ledger, key: Name, a: Account)
    requires AllTenants(L) && key !in L.sessions && a.limit > 0
    requires Get(L.tenants, a.tenant) + a.limit <= L.tenantLimit
    ensures AllTenants(Admitted(L, key, a))
  {
    TenantsAdmitted(L, Admitted(L, key, a), key, a);
  }

  lemma {:induction false} AdmittedKeeps(L: Ledger, key: Name, a: Account)
    requires Valid(L) && key !in L.sessions && a.leases == map[] && !a.closed && a.limit > 0
    requires AccountOk(L.generation, a)
    requires Get(L.tenants, a.tenant) + a.limit <= L.tenantLimit && L.globalReserved + a.limit <= L.globalLimit
    ensures Valid(Admitted(L, key, a))
  {
    AdmittedTotals(L, key, a);
    AdmittedTenants(L, key, a);
    SessionsAdmitted(L, Admitted(L, key, a), key, a);
  }

  lemma {:induction false} AdmitKeeps(L: Ledger, key: Name, tenant: Name, bytes: int, caps: map<Bucket, nat>)
    requires Valid(L)
    ensures Valid(Admit(L, key, tenant, bytes, caps).0)
  {
    match AdmitCheck(L, key, tenant, bytes)
    case Some(scope) => RefusedKeeps(L, scope);
    case None =>
      FreshAccountOk(L.generation, tenant, bytes, caps);
      AdmittedKeeps(L, key, OpenAccount(tenant, bytes, caps));
  }

  lemma {:induction false} IssuedKeeps(L: Ledger, key: Name, l: Lease)
    requires Valid(L) && AcquireCheck(L, key, l.bucket, l.capacity) == None
    requires l.generation == L.generation + 1 && l.refs >= 1 && l.used <= l.capacity
    ensures Valid(Issued(L, key, l))
  {
    assert SessionOk(L, key);
    var a, id := L.sessions[key], l.generation;
    assert id !in a.leases by { assert LeaseOk(L.generation, a, id); }
    WeighAdd(a.leases, PhysicalOf, id, l);
    GrantKeeps(L.generation, a, id, l);
    TotalsReplaced(L, Issued(L, key, l), key, Granted(a, id, l));
    TenantsReplaced(L, Issued(L, key, l), key, Granted(a, id, l));
    SessionsReplaced(L, Issued(L, key, l), key, Granted(a, id, l));
  }

  lemma {:induction false} AcquireIs(L: Ledger, key: Name, bucket: Bucket, capacity: int, physical: bool)
    ensures var check := AcquireCheck(L, key, bucket, capacity);
      Acquire(L, key, bucket, capacity, physical) ==
      if check == None
      then (Issued(L, key, Lease(L.generation + 1, bucket, capacity, 0, physical, 1, Reserved)), Ok(L.generation + 1))
      else (Refused(L, check.value), Err(check.value))
  {}

  lemma {:induction false} AcquireKeeps(L: Ledger, key: Name, bucket: Bucket, capacity: int, physical: bool)
    requires Valid(L)
    ensures Valid(Acquire(L, key, bucket, capacity, physical).0)
  {
    if AcquireCheck(L, key, bucket, capacity) == None {
      IssuedKeeps(L, key, Lease(L.generation + 1, bucket, capacity, 0, physical, 1, Reserved));
    } else {
      RefusedKeeps(L, AcquireCheck(L, key, bucket, capacity).value);
    }
    AcquireIs(L, key, bucket, capacity, physical);
  }

  lemma {:induction false} HoldKeeps(L: Ledger, key: Name, a: Account)
    requires Valid(L) && key in L.sessions && SameHoldings(L.sessions[key], a)
    requires a.limit == L.sessions[key].limit && a.tenant == L.sessions[key].tenant
    requires a.caps == L.sessions[key].caps && a.reserved == L.sessions[key].reserved
    requires a.byBucket == L.sessions[key].byBucket
    requires a.closed ==> a.leases != map[]
    ensures Valid(WithAccount(L, key, a))
  {
    assert SessionOk(L, key);
    SameHoldingsKeep(L.generation, L.sessions[key], a);
    TotalsReplaced(L, WithAccount(L, key, a), key, a);
    TenantsReplaced(L, WithAccount(L, key, a), key, a);
    SessionsReplaced(L, WithAccount(L, key, a), key, a);
  }

  lemma {:induction false} OneLeaseHeld(generation: nat, a: Account, id: nat, l: Lease, a': Account)
    requires AccountOk(generation, a) && id in a.leases && SameHolding(a.leases[id], l)
    requires a' == a.(leases := a.leases[id := l])
    ensures SameHoldings(a, a')
  {
    forall i | i in a.leases ensures SameHolding(a.leases[i], a'.leases[i]) { assert LeaseOk(generation, a, i); }
  }

  lemma {:induction false} ActivateKeeps(L: Ledger, key: Name, id: nat, used: int)
    requires Valid(L)
    ensures Valid(Activate(L, key, id, used).0)
  {
    var (L', refused) := Activate(L, key, id, used);
    if refused == None {
      assert SessionOk(L, key);
      var a := L.sessions[key];
      assert LeaseOk(L.generation, a, id);
      var l := a.leases[id].(used := used, state := Active);
      OneLeaseHeld(L.generation, a, id, l, L'.sessions[key]);
      HoldKeeps(L, key, L'.sessions[key]);
    }
  }

  lemma {:induction false} SetUsedKeeps(L: Ledger, key: Name, id: nat, used: int)
    requires Valid(L)
    ensures Valid(SetUsed(L, key, id, used).0)
  {
    var (L', refused) := SetUsed(L, key, id, used);
    if refused == None {
      assert SessionOk(L, key);
      var a := L.sessions[key];
      assert LeaseOk(L.generation, a, id);
      OneLeaseHeld(L.generation, a, id, a.leases[id].(used := used), L'.sessions[key]);
      HoldKeeps(L, key, L'.sessions[key]);
    }
  }

  lemma {:induction false} RefsKeep(L: Ledger, key: Name, id: nat, refs: nat)
    requires Valid(L) && Alive(L, key, id) && refs >= 1
    ensures Valid(WithAccount(L, key, WithRefs(L.sessions[key], id, refs)))
  {
    assert SessionOk(L, key);
    var a := L.sessions[key];
    assert LeaseOk(L.generation, a, id);
    OneLeaseHeld(L.generation, a, id, a.leases[id].(refs := refs), WithRefs(a, id, refs));
    HoldKeeps(L, key, WithRefs(a, id, refs));
  }

  lemma {:induction false} RetainKeeps(L: Ledger, key: Name, id: nat)
    requires Valid(L)
    ensures Valid(Retain(L, key, id).0)
  {
    if Alive(L, key, id) { RefsKeep(L, key, id, L.sessions[key].leases[id].refs + 1); }
  }

  /** What holds between the return of a lease, or the closing of an account, and the account leaving. */
  ghost predicate Unsettled(L: Ledger, key: Name) {
    && key in L.sessions && AccountOk(L.generation, L.sessions[key])
    && (forall k :: k != key ==> SessionOk(L, k))
    && AllTenants(L)
    && Totals(L)
  }

  lemma {:induction false} SettledKeeps(L: Ledger, key: Name)
    requires Unsettled(L, key)
    ensures Valid(Settled(L, key))
  {
    if L.sessions[key].closed && L.sessions[key].leases == map[] {
      TotalsFinished(L, key);
      TenantsFinished(L, key);
      SessionsFinished(L, key);
    } else {
      forall k ensures SessionOk(L, k) { assert k != key ==> SessionOk(L, k); }
    }
  }

  lemma {:induction false} DrainedUnsettled(L: Ledger, key: Name)
    requires Valid(L) && key in L.sessions
    ensures Unsettled(WithAccount(L, key, Drained(L.sessions[key])), key)
  {
    assert SessionOk(L, key);
    var a := L.sessions[key];
    assert Drained(a).leases.Keys == a.leases.Keys;
    forall i | i in a.leases ensures SameHolding(a.leases[i], Drained(a).leases[i]) {
      assert LeaseOk(L.generation, a, i);
    }
    SameHoldingsKeep(L.generation, a, Drained(a));
    TotalsReplaced(L, WithAccount(L, key, Drained(a)), key, Drained(a));
    TenantsReplaced(L, WithAccount(L, key, Drained(a)), key, Drained(a));
    OthersReplaced(L, WithAccount(L, key, Drained(a)), key, Drained(a));
  }

  lemma {:induction false} CloseKeeps(L: Ledger, key: Name)
    requires Valid(L)
    ensures Valid(Close(L, key))
  {
    if key in L.sessions && !L.sessions[key].closed {
      DrainedUnsettled(L, key);
      SettledKeeps(WithAccount(L, key, Drained(L.sessions[key])), key);
    }
  }

  lemma {:induction false} RefundedUnsettled(L: Ledger, key: Name, id: nat)
    requires Valid(L) && Alive(L, key, id)
    ensures Unsettled(Refunded(L, key, id), key)
  {
    assert SessionOk(L, key);
    var a := L.sessions[key];
    ReturnKeeps(L.generation, a, id);
    WeighRemove(a.leases, PhysicalOf, id);
    assert |a.leases| == |Returned(a, id).leases| + 1;
    TotalsReplaced(L, Refunded(L, key, id), key, Returned(a, id));
    TenantsReplaced(L, Refunded(L, key, id), key, Returned(a, id));
    OthersReplaced(L, Refunded(L, key, id), key, Returned(a, id));
  }

  lemma {:induction false} ReleaseKeeps(L: Ledger, key: Name, id: nat)
    requires Valid(L)
    ensures Valid(Release(L, key, id).0)
  {
    if !Alive(L, key, id) {
      CountingKeeps(L, L.rejects, Misused(L).violations);
    } else if L.sessions[key].leases[id].refs > 1 {
      RefsKeep(L, key, id, L.sessions[key].leases[id].refs - 1);
    } else {
      RefundedUnsettled(L, key, id);
      SettledKeeps(Refunded(L, key, id), key);
    }
  }
}
