/**
 * The reservation controller of runtime/hermit/ram/ledger.js as a value, and its operations as functions on it.
 *
 * An account is named by its session key and a lease by its allocation id within the account. A lease object in
 * state RELEASED is a lease that is no longer in its account. High-water marks are left out.
 */
module LedgerModel {
  import opened Common
  import opened Sums

  datatype Bucket =
    | Receive | Reassembly | QueuedOut | InflightOut | Bridge | VfsBytes
    | History | Workspace | Metadata | Codec | WorkerRuntime

  datatype LeaseState = Reserved | Active | Draining

  datatype Lease = Lease(
    generation: nat, bucket: Bucket, capacity: nat, used: nat, physical: bool, refs: nat, state: LeaseState)

  datatype Account = Account(
    tenant: Name, limit: nat, caps: map<Bucket, nat>,
    reserved: int, byBucket: map<Bucket, int>, leases: map<nat, Lease>, closed: bool)

  datatype Tally = Tally(admitted: nat, finished: nat, acquired: nat, returned: nat)

  datatype Rejects = Rejects(overall: nat, tenant: nat, session: nat, bucket: nat, closed: nat)

  datatype Violations = Violations(duplicateRelease: nat, staleHandle: nat)

  datatype Ledger = Ledger(
    globalLimit: nat, tenantLimit: nat,
    globalReserved: int, tenants: map<Name, int>, sessions: map<Name, Account>,
    physicalBytes: int, generation: nat, tally: Tally, rejects: Rejects, violations: Violations)

  datatype Scope = OverGlobal | OverTenant | OverSession | OverBucket | AccountClosed | AlreadyAdmitted | BadExtent
      | NoGeneration | Stale

  function Fresh(globalLimit: nat, tenantLimit: nat): Ledger {
    Ledger(globalLimit, tenantLimit, 0, map[], map[], 0, 0,
           Tally(0, 0, 0, 0), Rejects(0, 0, 0, 0, 0), Violations(0, 0))
  }

  // ------------------------------------------------------------------ accounts

  function Get<K>(m: map<K, int>, k: K): int { if k in m then m[k] else 0 }

  function OpenAccount(tenant: Name, limit: nat, caps: map<Bucket, nat>): Account {
    Account(tenant, limit, caps, 0, map[], map[], false)
  }

  /** `Number.MAX_SAFE_INTEGER`. */
  const MAX_SAFE: nat := 9007199254740991

  predicate OverCap(a: Account, bucket: Bucket, capacity: int) {
    bucket in a.caps && Get(a.byBucket, bucket) + capacity > a.caps[bucket]
  }

  function Granted(a: Account, id: nat, l: Lease): Account {
    a.(reserved := a.reserved + l.capacity,
       byBucket := a.byBucket[l.bucket := Get(a.byBucket, l.bucket) + l.capacity],
       leases := a.leases[id := l])
  }

  function Returned(a: Account, id: nat): Account
    requires id in a.leases
  {
    var l := a.leases[id];
    a.(reserved := a.reserved - l.capacity,
       byBucket := a.byBucket[l.bucket := Get(a.byBucket, l.bucket) - l.capacity],
       leases := a.leases - {id})
  }

  function WithRefs(a: Account, id: nat, refs: nat): Account
    requires id in a.leases
  {
    a.(leases := a.leases[id := a.leases[id].(refs := refs)])
  }

  function Drained(a: Account): Account {
    a.(closed := true, leases := map i | i in a.leases :: a.leases[i].(state := Draining))
  }

  // ------------------------------------------------------------------ ledger operations

  function WithAccount(L: Ledger, key: Name, a: Account): Ledger { L.(sessions := L.sessions[key := a]) }

  /** What a refusal leaves behind: one count. */
  function Refused(L: Ledger, scope: Scope): Ledger {
    var r := L.rejects;
    L.(rejects := match scope
                  case OverGlobal => r.(overall := r.overall + 1)
                  case OverTenant => r.(tenant := r.tenant + 1)
                  case OverSession => r.(session := r.session + 1)
                  case OverBucket => r.(bucket := r.bucket + 1)
                  case AccountClosed => r.(closed := r.closed + 1)
                  case _ => r)
  }

  function Admitted(L: Ledger, key: Name, a: Account): Ledger {
    L.(tenants := L.tenants[a.tenant := Get(L.tenants, a.tenant) + a.limit],
       globalReserved := L.globalReserved + a.limit,
       sessions := L.sessions[key := a],
       tally := L.tally.(admitted := L.tally.admitted + 1))
  }

  /** The whole reservation is charged to tenant and global now, or nothing is. */
  function AdmitCheck(L: Ledger, key: Name, tenant: Name, bytes: int): Option<Scope> {
    if key in L.sessions then Some(AlreadyAdmitted)
    else if bytes <= 0 || bytes > MAX_SAFE then Some(BadExtent)
    else if Get(L.tenants, tenant) + bytes > L.tenantLimit then Some(OverTenant)
    else if L.globalReserved + bytes > L.globalLimit then Some(OverGlobal)
    else None
  }

  function Admit(L: Ledger, key: Name, tenant: Name, bytes: int, caps: map<Bucket, nat>): (Ledger, Option<Scope>) {
    match AdmitCheck(L, key, tenant, bytes)
    case Some(scope) => (Refused(L, scope), Some(scope))
    case None => (Admitted(L, key, OpenAccount(tenant, bytes, caps)), None)
  }

  /** All scopes are checked before anything changes. */
  function AcquireCheck(L: Ledger, key: Name, bucket: Bucket, capacity: int): Option<Scope> {
    if key !in L.sessions || L.sessions[key].closed then Some(AccountClosed)
    else if capacity < 0 || capacity > MAX_SAFE then Some(BadExtent)
    else if OverCap(L.sessions[key], bucket, capacity) then Some(OverBucket)
    else if L.sessions[key].reserved + capacity > L.sessions[key].limit then Some(OverSession)
    else if L.generation >= MAX_SAFE - 1 then Some(NoGeneration)
    else None
  }

  function Issued(L: Ledger, key: Name, l: Lease): Ledger
    requires key in L.sessions
  {
    L.(sessions := L.sessions[key := Granted(L.sessions[key], l.generation, l)],
       generation := l.generation,
       physicalBytes := L.physicalBytes + PhysicalOf(l),
       tally := L.tally.(acquired := L.tally.acquired + 1))
  }

  /** A lease is named by its generation, the next one of the ledger. */
  function Acquire(L: Ledger, key: Name, bucket: Bucket, capacity: int, physical: bool): (Ledger, Result<nat, Scope>) {
    match AcquireCheck(L, key, bucket, capacity)
    case Some(scope) => (Refused(L, scope), Err(scope))
    case None => (Issued(L, key, Lease(L.generation + 1, bucket, capacity, 0, physical, 1, Reserved)),
        Ok(L.generation + 1))
  }

  predicate Alive(L: Ledger, key: Name, id: nat) { key in L.sessions && id in L.sessions[key].leases }

  function Activate(L: Ledger, key: Name, id: nat, used: int): (Ledger, Option<Scope>) {
    if !Alive(L, key, id) then (L, Some(Stale))
    else
      var a := L.sessions[key];
      if used < 0 || used > a.leases[id].capacity then (L, Some(BadExtent))
      else (WithAccount(L, key, a.(leases := a.leases[id := a.leases[id].(used := used, state := Active)])), None)
  }

  /** `setUsed` on a lease whatever its state. */
  function SetUsed(L: Ledger, key: Name, id: nat, used: int): (Ledger, Option<Scope>) {
    if !Alive(L, key, id) then (L, Some(Stale))
    else
      var a := L.sessions[key];
      if used < 0 || used > a.leases[id].capacity then (L, Some(BadExtent))
      else (WithAccount(L, key, a.(leases := a.leases[id := a.leases[id].(used := used)])), None)
  }

  function Retain(L: Ledger, key: Name, id: nat): (Ledger, Option<Scope>) {
    if !Alive(L, key, id) then (L, Some(Stale))
    else (WithAccount(L, key, WithRefs(L.sessions[key], id, L.sessions[key].leases[id].refs + 1)), None)
  }

  function FinishClose(L: Ledger, key: Name): Ledger
    requires key in L.sessions
  {
    var a := L.sessions[key];
    var t := Get(L.tenants, a.tenant) - a.limit;
    L.(sessions := L.sessions - {key},
       tenants := if t > 0 then L.tenants[a.tenant := t] else L.tenants - {a.tenant},
       globalReserved := L.globalReserved - a.limit,
       tally := L.tally.(finished := L.tally.finished + 1))
  }

  function Misused(L: Ledger): Ledger {
    L.(violations := L.violations.(duplicateRelease := L.violations.duplicateRelease + 1))
  }

  function Refunded(L: Ledger, key: Name, id: nat): Ledger
    requires Alive(L, key, id)
  {
    L.(sessions := L.sessions[key := Returned(L.sessions[key], id)],
       physicalBytes := L.physicalBytes - PhysicalOf(L.sessions[key].leases[id]),
       tally := L.tally.(returned := L.tally.returned + 1))
  }

  /** An account that is closed and has no lease left is gone. */
  function Settled(L: Ledger, key: Name): Ledger
    requires key in L.sessions
  {
    if L.sessions[key].closed && L.sessions[key].leases == map[] then FinishClose(L, key) else L
  }

  /** The result is true when the last reference went and the capacity was returned. */
  function Release(L: Ledger, key: Name, id: nat): (Ledger, bool) {
    if !Alive(L, key, id) then (Misused(L), false)
    else if L.sessions[key].leases[id].refs > 1 then
      (WithAccount(L, key, WithRefs(L.sessions[key], id, L.sessions[key].leases[id].refs - 1)), false)
    else (Settled(Refunded(L, key, id), key), true)
  }

  /** No new leases; the reservation is returned when the last lease has completed. */
  function Close(L: Ledger, key: Name): Ledger {
    if key !in L.sessions || L.sessions[key].closed then L
    else Settled(WithAccount(L, key, Drained(L.sessions[key])), key)
  }

  // ------------------------------------------------------------------ what the totals should be

  function CapacityOf(l: Lease): nat { l.capacity }

  function PhysicalOf(l: Lease): nat { if l.physical then l.capacity else 0 }

  function InBucket(b: Bucket): Lease -> nat { (l: Lease) => if l.bucket == b then l.capacity else 0 }

  function LimitOf(a: Account): nat { a.limit }

  function ForTenant(t: Name): Account -> nat { (a: Account) => if a.tenant == t then a.limit else 0 }

  ghost function PhysicalIn(a: Account): nat { Weigh(a.leases, PhysicalOf) }

  ghost function LeasesIn(a: Account): nat { |a.leases| }

  ghost predicate LeaseOk(generation: nat, a: Account, id: nat) {
    id in a.leases ==>
      && a.leases[id].refs >= 1
      && a.leases[id].used <= a.leases[id].capacity
      && a.leases[id].generation == id
      && id <= generation
  }

  ghost predicate BucketOk(a: Account, b: Bucket) {
    && Get(a.byBucket, b) == Weigh(a.leases, InBucket(b))
    && (b in a.caps ==> Get(a.byBucket, b) <= a.caps[b])
  }

  ghost predicate AccountOk(generation: nat, a: Account) {
    && a.reserved == Weigh(a.leases, CapacityOf)
    && a.reserved <= a.limit
    && a.limit > 0
    && (forall b :: BucketOk(a, b))
    && (forall id :: LeaseOk(generation, a, id))
  }

  /** A closed account with no lease left is no longer a session. */
  ghost predicate SessionOk(L: Ledger, key: Name) {
    key in L.sessions ==>
      && AccountOk(L.generation, L.sessions[key])
      && (L.sessions[key].closed ==> L.sessions[key].leases != map[])
  }

  ghost predicate TenantOk(L: Ledger, t: Name) {
    && Get(L.tenants, t) == Weigh(L.sessions, ForTenant(t))
    && Get(L.tenants, t) <= L.tenantLimit
    && (t in L.tenants ==> L.tenants[t] > 0)
  }

  /** Every running total equals the sum it stands for. */
  ghost predicate Totals(L: Ledger) {
    && L.globalReserved == Weigh(L.sessions, LimitOf)
    && L.globalReserved <= L.globalLimit
    && L.physicalBytes == Weigh(L.sessions, PhysicalIn)
    && L.tally.acquired == L.tally.returned + Weigh(L.sessions, LeasesIn)
    && L.tally.admitted == L.tally.finished + |L.sessions|
  }

  ghost predicate AllSessions(L: Ledger) { forall key :: SessionOk(L, key) }

  ghost predicate AllTenants(L: Ledger) { forall t :: TenantOk(L, t) }

  ghost predicate Valid(L: Ledger) { AllSessions(L) && AllTenants(L) && Totals(L) }
}
