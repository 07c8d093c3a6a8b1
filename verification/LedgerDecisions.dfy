/** When the controller grants and when it refuses, by the sums over what is held. */
module LedgerDecisions {
  // runtime/hermit/ram/ledger.js. In a valid ledger the running totals the program compares are these sums.

  import opened Common
  import opened Sums
  import opened LedgerModel

  /** The account takes leases. */
  predicate OpenIn(L: Ledger, key: Name) { key in L.sessions && !L.sessions[key].closed }

  /** The bytes a bucket's live leases charge, with this many more, stay within the bucket's cap if it has one. */
  ghost predicate BucketRoom(a: Account, b: Bucket, more: int) {
    b in a.caps ==> Weigh(a.leases, InBucket(b)) + more <= a.caps[b]
  }

  ghost predicate SessionRoom(a: Account, more: int) { Weigh(a.leases, CapacityOf) + more <= a.limit }

  ghost predicate TenantRoom(L: Ledger, t: Name, more: int) { Weigh(L.sessions, ForTenant(t)) + more <= L.tenantLimit }

  ghost predicate GlobalRoom(L: Ledger, more: int) { Weigh(L.sessions, LimitOf) + more <= L.globalLimit }

  /**
   * A reservation is granted exactly when the account is open, the extent is an unsigned safe integer, the bucket and
   * the account have room beside everything they hold, and a generation is left. A refusal names the first of these
   * that fails.
   */
  lemma {:induction false} AcquireDecided(L: Ledger, key: Name, bucket: Bucket, capacity: int, physical: bool)
    requires Valid(L)
    ensures var got := Acquire(L, key, bucket, capacity, physical).1;
      && (got.Ok? <==>
            && OpenIn(L, key) && 0 <= capacity <= 0x1F_FFFF_FFFF_FFFF
            && BucketRoom(L.sessions[key], bucket, capacity) && SessionRoom(L.sessions[key], capacity)
            && L.generation + 1 < 0x1F_FFFF_FFFF_FFFF)
      && (!OpenIn(L, key) ==> got == Err(AccountClosed))
      && (OpenIn(L, key) ==>
            && (!(0 <= capacity <= 0x1F_FFFF_FFFF_FFFF) ==> got == Err(BadExtent))
            && (0 <= capacity <= 0x1F_FFFF_FFFF_FFFF ==>
                  && (!BucketRoom(L.sessions[key], bucket, capacity) ==> got == Err(OverBucket))
                  && (BucketRoom(L.sessions[key], bucket, capacity) ==>
                        && (!SessionRoom(L.sessions[key], capacity) ==> got == Err(OverSession))
                        && (SessionRoom(L.sessions[key], capacity) ==> got.Ok? || got == Err(NoGeneration)))))
  {
    if OpenIn(L, key) {
      var a := L.sessions[key];
      assert a.reserved == Weigh(a.leases, CapacityOf)
          && Get(a.byBucket, bucket) == Weigh(a.leases, InBucket(bucket)) by {
        assert SessionOk(L, key);
        assert BucketOk(a, bucket);
      }
      hide Valid;
    }
  }

  /** A granted lease: one reference, nothing used yet, a name never given before, beside the account's others. */
  lemma {:induction false} AcquiredLease(L: Ledger, key: Name, bucket: Bucket, capacity: int, physical: bool)
    requires Valid(L) && Acquire(L, key, bucket, capacity, physical).1.Ok?
    ensures var (after, got) := Acquire(L, key, bucket, capacity, physical);
      && key in L.sessions && key in after.sessions && after.sessions.Keys == L.sessions.Keys
      && (forall k :: k in L.sessions && k != key ==> after.sessions[k] == L.sessions[k])
      && got.value !in L.sessions[key].leases && got.value == L.generation + 1 == after.generation
      && after.sessions[key].leases ==
        L.sessions[key].leases[got.value := Lease(got.value, bucket, capacity, 0, physical, 1, Reserved)]
      && after.sessions[key].limit == L.sessions[key].limit && !after.sessions[key].closed
      && after.physicalBytes == L.physicalBytes + (if physical then capacity else 0)
  {
    assert SessionOk(L, key);
    assert LeaseOk(L.generation, L.sessions[key], L.generation + 1);
  }

  /**
   * An account is admitted exactly when its key is free, the reservation is a positive safe integer, and its tenant
   * and the whole server have room beside everything admitted. A refusal names the first of these that fails.
   */
  lemma {:induction false} AdmitDecided(L: Ledger, key: Name, tenant: Name, bytes: int, caps: map<Bucket, nat>)
    requires Valid(L)
    ensures var (after, refused) := Admit(L, key, tenant, bytes, caps);
      && (refused.None? <==>
            && key !in L.sessions && 0 < bytes <= 0x1F_FFFF_FFFF_FFFF
            && TenantRoom(L, tenant, bytes) && GlobalRoom(L, bytes))
      && (key in L.sessions ==> refused == Some(AlreadyAdmitted))
      && (key !in L.sessions ==>
            && (!(0 < bytes <= 0x1F_FFFF_FFFF_FFFF) ==> refused == Some(BadExtent))
            && (0 < bytes <= 0x1F_FFFF_FFFF_FFFF ==>
                  && (!TenantRoom(L, tenant, bytes) ==> refused == Some(OverTenant))
                  && (TenantRoom(L, tenant, bytes) && !GlobalRoom(L, bytes) ==> refused == Some(OverGlobal))))
      && (refused.None? ==>
            && bytes > 0
            && after.sessions == L.sessions[key := Account(tenant, bytes, caps, 0, map[], map[], false)])
  {
    assert TenantOk(L, tenant);
  }

  /** A refusal counts once, under its own scope, and moves nothing else. */
  lemma {:induction false} RefusalCounted(L: Ledger, key: Name, tenant: Name, bucket: Bucket, n: int, physical: bool,
      caps: map<Bucket, nat>)
    ensures var (after, got) := Acquire(L, key, bucket, n, physical); var r := L.rejects;
      && (got.Err? ==> after.(rejects := r) == L)
      && after.rejects ==
        (if got == Err(AccountClosed) then r.(closed := r.closed + 1)
         else if got == Err(OverBucket) then r.(bucket := r.bucket + 1)
         else if got == Err(OverSession) then r.(session := r.session + 1)
         else r)
    ensures var (after, refused) := Admit(L, key, tenant, n, caps); var r := L.rejects;
      && (refused.Some? ==> after.(rejects := r) == L)
      && after.rejects ==
        (if refused == Some(OverTenant) then r.(tenant := r.tenant + 1)
         else if refused == Some(OverGlobal) then r.(overall := r.overall + 1)
         else r)
  {}

  predicate Known(L: Ledger, key: Name, id: nat) { key in L.sessions && id in L.sessions[key].leases }

  /** Everything but this lease is as before. */
  predicate OnlyLease(L: Ledger, after: Ledger, key: Name, id: nat, l: Lease) {
    && key in L.sessions
    && after == L.(sessions := L.sessions[key := L.sessions[key].(leases := L.sessions[key].leases[id := l])])
  }

  /** A live lease takes an extent within its capacity and one more user; a lease that is gone is refused. */
  lemma {:induction false} LeaseDecided(L: Ledger, key: Name, id: nat, used: int)
    ensures var (a, s, r) := (Activate(L, key, id, used), SetUsed(L, key, id, used), Retain(L, key, id));
      && (!Known(L, key, id) ==> a == (L, Some(Stale)) && s == (L, Some(Stale)) && r == (L, Some(Stale)))
      && (Known(L, key, id) ==>
            var l := L.sessions[key].leases[id];
            && (0 <= used <= l.capacity ==>
                  && a.1.None? && OnlyLease(L, a.0, key, id, l.(used := used, state := Active))
                  && s.1.None? && OnlyLease(L, s.0, key, id, l.(used := used)))
            && (!(0 <= used <= l.capacity) ==> a == (L, Some(BadExtent)) && s == (L, Some(BadExtent)))
            && r.1.None? && OnlyLease(L, r.0, key, id, l.(refs := l.refs + 1)))
  {}

  /**
   * A release that is not the last takes one reference. The last one takes the lease out of its account, and with the
   * last lease of a closed account the account's whole reservation goes back. A lease that is gone is counted misused.
   */
  lemma {:induction false} ReleaseDecided(L: Ledger, key: Name, id: nat)
    requires Valid(L)
    ensures var (after, last) := Release(L, key, id);
      && (!Known(L, key, id) ==>
            && !last && after.sessions == L.sessions && after.globalReserved == L.globalReserved
            && after.violations.duplicateRelease == L.violations.duplicateRelease + 1)
      && (Known(L, key, id) && L.sessions[key].leases[id].refs > 1 ==>
            var l := L.sessions[key].leases[id];
            !last && OnlyLease(L, after, key, id, l.(refs := l.refs - 1)))
      && (Known(L, key, id) && L.sessions[key].leases[id].refs == 1 ==>
            var rest := L.sessions[key].leases - {id};
            && last
            && (forall k :: k in L.sessions && k != key ==> k in after.sessions && after.sessions[k] == L.sessions[k])
            && (key in after.sessions <==> !(L.sessions[key].closed && rest == map[]))
            && (key in after.sessions ==> after.sessions[key].leases == rest)
            && (key in after.sessions ==> after.globalReserved == L.globalReserved)
            && (key !in after.sessions ==> after.globalReserved == L.globalReserved - L.sessions[key].limit))
  {}

  /**
   * A closed account takes no more leases. It is gone at once if it holds none; otherwise its leases drain, with what
   * they hold, and its reservation stays.
   */
  lemma {:induction false} CloseDecided(L: Ledger, key: Name)
    requires Valid(L) && OpenIn(L, key)
    ensures var after := Close(L, key);
      && (L.sessions[key].leases == map[] ==>
            && after.sessions == L.sessions - {key}
            && after.globalReserved == L.globalReserved - L.sessions[key].limit)
      && (L.sessions[key].leases != map[] ==>
            && key in after.sessions && after.sessions[key].closed
            && after.sessions[key].leases.Keys == L.sessions[key].leases.Keys
            && (forall id :: id in L.sessions[key].leases ==>
                  after.sessions[key].leases[id] == L.sessions[key].leases[id].(state := Draining))
            && after.globalReserved == L.globalReserved)
      && !OpenIn(after, key)
  {
    var a := L.sessions[key];
    var d := Drained(a);
    assert d.leases.Keys == a.leases.Keys;
    if a.leases != map[] {
      var id :| id in a.leases;
      assert id in d.leases;
    } else {
      assert d.leases == map[];
      assert L.sessions[key := d] - {key} == L.sessions - {key};
    }
  }
}
