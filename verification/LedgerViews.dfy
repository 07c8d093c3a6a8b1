/** The leases of one account in one bucket, and what each operation does to them. */
module LedgerViews {
  import opened Common
  import opened Sums
  import opened LedgerModel
  import opened LedgerSafety
  import opened LedgerTheorems

  function LeasesOf(L: Ledger, key: Name): map<nat, Lease> {
    if key in L.sessions then L.sessions[key].leases else map[]
  }

  function OfKind(leases: map<nat, Lease>, b: Bucket): map<nat, Lease> {
    map id | id in leases && leases[id].bucket == b :: leases[id]
  }

  /** The account's leases of one bucket. */
  function Kind(L: Ledger, key: Name, b: Bucket): map<nat, Lease> { OfKind(LeasesOf(L, key), b) }

  function Charged(id: nat, b: Bucket, capacity: nat, used: nat, physical: bool): Lease {
    Lease(id, b, capacity, used, physical, 1, Active)
  }

  /** A lease that is acquired and activated at once is a new one, and the only change. */
  lemma {:induction false} AcquireLeases(L: Ledger, key: Name, b: Bucket, capacity: nat, used: nat, physical: bool)
    requires Valid(L) && AcquireCheck(L, key, b, capacity) == None && used <= capacity
    ensures var id := L.generation + 1; var got := Acquire(L, key, b, capacity, physical);
      && id !in LeasesOf(L, key) && got.1 == Ok(id) && Activate(got.0, key, id, used).1 == None
      && LeasesOf(Activate(got.0, key, id, used).0, key) ==
          LeasesOf(L, key)[id := Charged(id, b, capacity, used, physical)]
      && Activate(got.0, key, id, used).0.generation == id
  {
    assert SessionOk(L, key);
    assert LeaseOk(L.generation, L.sessions[key], L.generation + 1);
    AcquireIs(L, key, b, capacity, physical);
  }

  /** The last reference takes the lease out of the account. */
  lemma {:induction false} ReleaseLeases(L: Ledger, key: Name, id: nat)
    requires Alive(L, key, id) && L.sessions[key].leases[id].refs == 1
    ensures Release(L, key, id).1 && LeasesOf(Release(L, key, id).0, key) == LeasesOf(L, key) - {id}
    ensures Release(L, key, id).0.rejects == L.rejects && Release(L, key, id).0.generation == L.generation
  {}

  /** Closing leaves the leases what they are, but draining. */
  lemma {:induction false} CloseLeases(L: Ledger, key: Name)
    ensures LeasesOf(Close(L, key), key).Keys == LeasesOf(L, key).Keys
    ensures forall id :: id in LeasesOf(L, key) ==>
      LeasesOf(Close(L, key), key)[id] == LeasesOf(L, key)[id].(state := LeasesOf(Close(L, key), key)[id].state)
    ensures Close(L, key).generation == L.generation
    ensures key in Close(L, key).sessions ==> Close(L, key).sessions[key].closed
  {}

  // ------------------------------------------------------------------ what others do

  /** An operation on another account, or on another bucket of this one. */
  predicate Elsewhere(L: Ledger, key: Name, b: Bucket, op: Op) {
    match op
    case DoAdmit(_, _, _, _) => true
    case DoAcquire(k, bucket, _, _) => k != key || bucket != b
    case DoActivate(k, id, _) => k != key || id !in Kind(L, key, b)
    case DoSetUsed(k, id, _) => k != key || id !in Kind(L, key, b)
    case DoRetain(k, id) => k != key || id !in Kind(L, key, b)
    case DoRelease(k, id) => k != key || id !in Kind(L, key, b)
    case DoClose(k) => k != key
  }

  lemma {:induction false} OtherKind(leases: map<nat, Lease>, b: Bucket, id: nat, l: Lease)
    requires l.bucket != b && (id in leases ==> leases[id].bucket != b)
    ensures OfKind(leases[id := l], b) == OfKind(leases, b) == OfKind(leases - {id}, b)
  {}

  predicate Names(op: Op, key: Name) {
    match op
    case DoAdmit(k, _, _, _) => k == key
    case DoAcquire(k, _, _, _) => k == key
    case DoActivate(k, _, _) => k == key
    case DoSetUsed(k, _, _) => k == key
    case DoRetain(k, _) => k == key
    case DoRelease(k, _) => k == key
    case DoClose(k) => k == key
  }

  lemma {:induction false} OtherAccount(L: Ledger, key: Name, op: Op)
    requires !Names(op, key)
    ensures LeasesOf(Do(L, op), key) == LeasesOf(L, key)
  {
    if op.DoAcquire? { AcquireIs(L, op.key, op.bucket, op.capacity, op.physical); }
  }

  lemma {:induction false} AcquireElsewhere(L: Ledger, key: Name, b: Bucket, op: Op)
    requires Valid(L) && op.DoAcquire? && op.key == key && op.bucket != b
    ensures Kind(Do(L, op), key, b) == Kind(L, key, b)
  {
    AcquireIs(L, key, op.bucket, op.capacity, op.physical);
    if AcquireCheck(L, key, op.bucket, op.capacity) == None {
      assert SessionOk(L, key);
      assert LeaseOk(L.generation, L.sessions[key], L.generation + 1);
      OtherKind(LeasesOf(L, key), b, L.generation + 1,
                Lease(L.generation + 1, op.bucket, op.capacity, 0, op.physical, 1, Reserved));
    }
  }

  /** What an operation on a lease leaves of it. */
  lemma {:induction false} LeaseElsewhere(L: Ledger, key: Name, b: Bucket, op: Op, id: nat)
    requires op == DoRetain(key, id) || op == DoRelease(key, id)
      || (op.DoActivate? && op.key == key && op.id == id) || (op.DoSetUsed? && op.key == key && op.id == id)
    requires id !in Kind(L, key, b)
    ensures Kind(Do(L, op), key, b) == Kind(L, key, b)
  {
    if Alive(L, key, id) {
      var l := LeasesOf(L, key)[id];
      match op
      case DoActivate(_, _, used) =>
        if 0 <= used <= l.capacity { OtherKind(LeasesOf(L, key), b, id, l.(used := used, state := Active)); }
      case DoSetUsed(_, _, used) =>
        if 0 <= used <= l.capacity { OtherKind(LeasesOf(L, key), b, id, l.(used := used)); }
      case DoRetain(_, _) => OtherKind(LeasesOf(L, key), b, id, l.(refs := l.refs + 1));
      case DoRelease(_, _) => OtherKind(LeasesOf(L, key), b, id, if l.refs > 1 then l.(refs := l.refs - 1) else l);
    }
  }

  /** Operations elsewhere leave the leases of this bucket alone. */
  lemma {:induction false} ElsewhereKeeps(L: Ledger, key: Name, b: Bucket, op: Op)
    requires Valid(L) && Elsewhere(L, key, b, op)
    ensures Kind(Do(L, op), key, b) == Kind(L, key, b)
  {
    hide OfKind, Valid, Activate, SetUsed, Retain, Release, Acquire;
    if !Names(op, key) {
      OtherAccount(L, key, op);
    } else {
      match op
      case DoAdmit(_, _, _, _) =>
      case DoAcquire(_, _, _, _) => AcquireElsewhere(L, key, b, op);
      case DoActivate(_, id, _) => LeaseElsewhere(L, key, b, op, id);
      case DoSetUsed(_, id, _) => LeaseElsewhere(L, key, b, op, id);
      case DoRetain(_, id) => LeaseElsewhere(L, key, b, op, id);
      case DoRelease(_, id) => LeaseElsewhere(L, key, b, op, id);
    }
  }

  // ------------------------------------------------------------------ the total of a bucket

  lemma {:induction false} KindWithout(leases: map<nat, Lease>, b: Bucket, id: nat)
    ensures OfKind(leases - {id}, b) == OfKind(leases, b) - {id}
    ensures id !in OfKind(leases, b) ==> OfKind(leases - {id}, b) == OfKind(leases, b)
  {}

  lemma {:induction false} NoneOfKind(b: Bucket)
    ensures Weigh(OfKind(map[], b), CapacityOf) == 0
  {
    WeighEmpty(OfKind(map[], b), CapacityOf);
  }

  lemma {:induction false} KindWeighs(leases: map<nat, Lease>, b: Bucket)
    ensures Weigh(leases, InBucket(b)) == Weigh(OfKind(leases, b), CapacityOf)
    decreases |leases|
  {
    hide OfKind;
    if leases == map[] {
      WeighEmpty(leases, InBucket(b));
      NoneOfKind(b);
    } else {
      var id :| id in leases;
      WeighRemove(leases, InBucket(b), id);
      KindWithout(leases, b, id);
      KindWeighs(leases - {id}, b);
      KindOne(leases, b, id);
    }
  }

  lemma {:induction false} KindOne(leases: map<nat, Lease>, b: Bucket, id: nat)
    requires id in leases
    ensures Weigh(OfKind(leases, b), CapacityOf) ==
        Weigh(OfKind(leases, b) - {id}, CapacityOf) + InBucket(b)(leases[id])
  {
    var some := OfKind(leases, b);
    if id in some { WeighRemove(some, CapacityOf, id); } else { assert some - {id} == some; }
  }

  /** The running total of a bucket is what its leases charge. */
  lemma {:induction false} KindTotal(L: Ledger, key: Name, b: Bucket)
    requires Valid(L) && key in L.sessions
    ensures Get(L.sessions[key].byBucket, b) == Weigh(Kind(L, key, b), CapacityOf)
  {
    assert SessionOk(L, key);
    assert BucketOk(L.sessions[key], b);
    KindWeighs(LeasesOf(L, key), b);
  }
}
