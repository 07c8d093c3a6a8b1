/** Operations and their admission. */
module Admission {
  // runtime/hermit/ram/descriptor.js: which operations an authenticated connection may start, and that each gives back
  // exactly one reference for every lease it names. A handle is a lease name and a generation. The structural schema
  // walk of untrusted descriptors is one flag here.

  import opened Common
  import opened LedgerModel
  import opened Sums
  import RamLedger

  datatype Kind = KReceive | KSend | KInput | KOutput | KResize | KSignal | KClose

  datatype Payload = Utf8 | Binary | NoPayload

  datatype Phase = Authenticated | Opening | Running | Finishing | Closed

  datatype BufferRef = BufferRef(id: nat, handleGeneration: nat, generation: nat, offset: nat, length: nat,
      capacity: nat, writes: bool)

  datatype Descriptor = Descriptor(
    kind: Kind, payload: Payload, buffers: seq<BufferRef>,
    reservation: nat, sessionLimit: nat,
    principal: Name, session: Name, epoch: Name, plan: Name, mutable: bool, trusted: bool)

  /** What the admission controller of one connection reads. */
  datatype Context = Context(principal: Name, session: Name, epoch: Name, plan: Name, phase: Phase)

  datatype Reason =
    | BadSchema | BufferExtent | OverSessionLimit | Immutable
    | WrongPhase | WrongPayload | WrongOwner | WrongEpoch | WrongPlan | WrongLimit
    | StaleHandle | StaleGeneration | LeaseExtent | WrongReservation

  function Phases(kind: Kind): set<Phase> {
    match kind
    case KInput | KResize | KSignal => {Running}
    case KOutput => {Running, Finishing}
    case _ => {Authenticated, Opening, Running, Finishing}
  }

  function Payloads(kind: Kind): set<Payload> {
    match kind
    case KReceive | KSend => {Utf8, Binary}
    case KInput | KOutput => {Binary}
    case _ => {NoPayload}
  }

  // ------------------------------------------------------------------ describing and admitting

  function TotalCapacity(leases: seq<Lease>): nat {
    if leases == [] then 0 else leases[0].capacity + TotalCapacity(leases[1..])
  }

  function Describe(c: Context, limit: nat, kind: Kind, payload: Payload, leases: seq<Lease>,
      mutable: bool): Descriptor {
    Descriptor(
      kind, payload,
      seq(|leases|, i requires 0 <= i < |leases| =>
        BufferRef(leases[i].generation, leases[i].generation, leases[i].generation, 0, leases[i].used,
            leases[i].capacity, mutable)),
      TotalCapacity(leases), limit, c.principal, c.session, c.epoch, c.plan, mutable, true)
  }

  predicate WithinDeclared(b: BufferRef) { b.offset <= b.capacity && b.length <= b.capacity - b.offset }

  /** The checks on the descriptor alone. */
  function ShapeRefusal(d: Descriptor, schemaOk: bool): Option<Reason> {
    if d.trusted then (if d.reservation > d.sessionLimit then Some(OverSessionLimit) else None)
    else if !schemaOk then Some(BadSchema)
    else if exists b :: b in d.buffers && !WithinDeclared(b) then Some(BufferExtent)
    else if d.reservation > d.sessionLimit then Some(OverSessionLimit)
    else if !d.mutable && exists b :: b in d.buffers && b.writes then Some(Immutable)
    else None
  }

  /** The checks against the connection. */
  function ContextRefusal(c: Context, limit: nat, d: Descriptor): Option<Reason> {
    if c.phase !in Phases(d.kind) then Some(WrongPhase)
    else if d.payload !in Payloads(d.kind) then Some(WrongPayload)
    else if d.principal != c.principal || d.session != c.session then Some(WrongOwner)
    else if d.epoch != c.epoch then Some(WrongEpoch)
    else if d.plan != c.plan then Some(WrongPlan)
    else if d.sessionLimit != limit then Some(WrongLimit)
    else None
  }

  function BufferRefusal(a: Account, b: BufferRef): Option<Reason> {
    if b.id !in a.leases || a.leases[b.id].generation != b.handleGeneration then Some(StaleHandle)
    else if a.leases[b.id].generation != b.generation then Some(StaleGeneration)
    else if b.capacity != a.leases[b.id].capacity || b.offset + b.length > a.leases[b.id].used then Some(LeaseExtent)
    else None
  }

  /** The capacity of the leases the buffers name, in the order of the list; the first bad buffer refuses. */
  function Resolve(a: Account, buffers: seq<BufferRef>): Result<(seq<nat>, nat), Reason> {
    if buffers == [] then Ok(([], 0))
    else
      match BufferRefusal(a, buffers[0])
      case Some(reason) => Err(reason)
      case None =>
        match Resolve(a, buffers[1..])
        case Err(reason) => Err(reason)
        case Ok((ids, total)) => Ok(([buffers[0].id] + ids, a.leases[buffers[0].id].capacity + total))
  }

  /** The names of the leases the admitted operation will release. */
  function Admit(c: Context, a: Account, d: Descriptor, schemaOk: bool): Result<seq<nat>, Reason> {
    match ShapeRefusal(d, schemaOk)
    case Some(reason) => Err(reason)
    case None =>
      match ContextRefusal(c, a.limit, d)
      case Some(reason) => Err(reason)
      case None =>
        match Resolve(a, d.buffers)
        case Err(reason) => Err(reason)
        case Ok((ids, total)) => if total == d.reservation then Ok(ids) else Err(WrongReservation)
  }

  // ------------------------------------------------------------------ what is admitted

  ghost predicate HeldBy(a: Account, l: Lease) { l.generation in a.leases && a.leases[l.generation] == l }

  /** A lease as the account has it, under its own name. */
  ghost predicate Names(a: Account, leases: seq<Lease>) {
    forall i :: 0 <= i < |leases| ==> HeldBy(a, leases[i])
  }

  function NamesOf(leases: seq<Lease>): seq<nat> {
    if leases == [] then [] else [leases[0].generation] + NamesOf(leases[1..])
  }

  lemma {:induction false} ResolvesDescribed(c: Context, a: Account, kind: Kind, payload: Payload, leases: seq<Lease>,
      mutable: bool)
    requires Names(a, leases)
    ensures Resolve(a, Describe(c, a.limit, kind, payload, leases, mutable).buffers) ==
        Ok((NamesOf(leases), TotalCapacity(leases)))
    decreases |leases|
  {
    var buffers := Describe(c, a.limit, kind, payload, leases, mutable).buffers;
    if leases != [] {
      assert HeldBy(a, leases[0]);
      assert Names(a, leases[1..]) by {
        forall i | 0 <= i < |leases[1..]| ensures HeldBy(a, leases[1..][i]) { assert HeldBy(a, leases[i + 1]); }
      }
      ResolvesDescribed(c, a, kind, payload, leases[1..], mutable);
      assert buffers[1..] == Describe(c, a.limit, kind, payload, leases[1..], mutable).buffers;
    }
  }

  /**
   * A description the server built over leases it still holds is admitted exactly when the connection's phase allows
   * the operation, the operation carries such a payload, the plan has not changed since, and the named leases fit
   * in the session's limit together.
   */
  lemma {:induction false} AdmitsDescribed(
    before: Context, now: Context, a: Account, kind: Kind, payload: Payload, leases: seq<Lease>, mutable: bool,
    schemaOk: bool)
    requires Names(a, leases)
    requires now.principal == before.principal && now.session == before.session && now.epoch == before.epoch
    ensures var d := Describe(before, a.limit, kind, payload, leases, mutable);
      Admit(now, a, d, schemaOk).Ok? <==>
        (now.phase in Phases(kind) && payload in Payloads(kind) && now.plan == before.plan
            && TotalCapacity(leases) <= a.limit)
    ensures var d := Describe(before, a.limit, kind, payload, leases, mutable);
      Admit(now, a, d, schemaOk).Ok? ==> Admit(now, a, d, schemaOk).value == NamesOf(leases)
  {
    ResolvesDescribed(before, a, kind, payload, leases, mutable);
  }

  /**
   * So the output of a session that has not ended is always admitted: its one lease fits in its own session's limit.
   */
  lemma {:induction false} OutputIsAdmitted(c: Context, generation: nat, a: Account, l: Lease, schemaOk: bool)
    requires AccountOk(generation, a) && HeldBy(a, l) && (c.phase == Running || c.phase == Finishing)
    ensures Admit(c, a, Describe(c, a.limit, KOutput, Binary, [l], false), schemaOk) == Ok([l.generation])
  {
    AdmitsDescribed(c, c, a, KOutput, Binary, [l], false, schemaOk);
    WeighRemove(a.leases, CapacityOf, l.generation);
    assert [l][1..] == [];
    assert TotalCapacity([l]) == l.capacity;
    assert NamesOf([l]) == [l.generation];
  }

  /**
   * Whatever a descriptor claims, an admitted one names live leases of this account and stays inside what they hold.
   */
  lemma {:induction false} ResolvedIsLive(a: Account, buffers: seq<BufferRef>)
    requires Resolve(a, buffers).Ok?
    ensures var (ids, total) := Resolve(a, buffers).value;
      |ids| == |buffers| && forall i :: 0 <= i < |buffers| ==>
        && ids[i] == buffers[i].id && ids[i] in a.leases
        && buffers[i].generation == a.leases[ids[i]].generation
        && buffers[i].offset + buffers[i].length <= a.leases[ids[i]].used
    decreases |buffers|
  {
    if buffers != [] {
      ResolvedIsLive(a, buffers[1..]);
      var (ids, total) := Resolve(a, buffers).value;
      assert ids[1..] == Resolve(a, buffers[1..]).value.0;
      forall i | 0 <= i < |buffers|
        ensures ids[i] == buffers[i].id && ids[i] in a.leases
             && buffers[i].generation == a.leases[ids[i]].generation
             && buffers[i].offset + buffers[i].length <= a.leases[ids[i]].used
      {
        if i > 0 { assert buffers[1..][i - 1] == buffers[i] && ids[1..][i - 1] == ids[i]; }
      }
    }
  }

  /** What is admitted names live leases inside their extents, and is of this session and its phase. */
  lemma {:induction false} AdmittedIsLive(c: Context, a: Account, d: Descriptor, schemaOk: bool)
    requires Admit(c, a, d, schemaOk).Ok?
    ensures var ids := Admit(c, a, d, schemaOk).value;
      |ids| == |d.buffers| && forall i :: 0 <= i < |ids| ==>
        && ids[i] == d.buffers[i].id && ids[i] in a.leases
        && d.buffers[i].generation == a.leases[ids[i]].generation
        && d.buffers[i].offset + d.buffers[i].length <= a.leases[ids[i]].used
    ensures d.principal == c.principal && d.session == c.session && d.epoch == c.epoch && d.plan == c.plan
    ensures c.phase in Phases(d.kind) && d.reservation <= a.limit
  {
    ResolvedIsLive(a, d.buffers);
  }

  // ------------------------------------------------------------------ the life of an operation

  datatype OpState = Created | Validated | Reserved_ | Executing | Draining_ | Completed | Released_ | Rejected | Failed

  datatype Call = Execute | Drain | Complete | Fail

  /** The state after a call, or nothing when the call is an illegal transition; and whether it drops the references. */
  function Step(s: OpState, call: Call): (Option<OpState>, bool) {
    match call
    case Execute => (if s == Reserved_ then Some(Executing) else None, false)
    case Drain => (if s == Executing then Some(Draining_) else None, false)
    case Complete => if s == Executing || s == Draining_ then (Some(Released_), true) else (None, false)
    case Fail => (Some(if s == Released_ || s == Rejected then s else Failed), false)
  }

  function After(s: OpState, call: Call): OpState {
    var next := Step(s, call).0;
    if next.Some? then next.value else s
  }

  function Drops(s: OpState, calls: seq<Call>): nat
    decreases |calls|
  {
    if calls == [] then 0
    else (if Step(s, calls[0]).1 then 1 else 0) + Drops(After(s, calls[0]), calls[1..])
  }

  function Finally(s: OpState, calls: seq<Call>): OpState
    decreases |calls|
  {
    if calls == [] then s else Finally(After(s, calls[0]), calls[1..])
  }

  /** However it is driven, an operation drops its references at most once, and it did exactly when it is released. */
  lemma {:induction false} DropsOnce(s: OpState, calls: seq<Call>)
    ensures Drops(s, calls) == if s != Released_ && Finally(s, calls) == Released_ then 1 else 0
    decreases |calls|
  {
    if calls != [] {
      DropsOnce(After(s, calls[0]), calls[1..]);
      if After(s, calls[0]) == Released_ { ReleasedStays(calls[1..]); }
    }
  }

  lemma {:induction false} ReleasedStays(calls: seq<Call>)
    ensures Finally(Released_, calls) == Released_
    decreases |calls|
  {
    if calls != [] { ReleasedStays(calls[1..]); }
  }

  // ------------------------------------------------------------------ completing

  function ReleaseAll(L: Ledger, key: Name, ids: seq<nat>): Ledger
    decreases |ids|
  {
    if ids == [] then L else ReleaseAll(Release(L, key, ids[0]).0, key, ids[1..])
  }

  function Occurs(ids: seq<nat>, id: nat): nat {
    if ids == [] then 0 else (if ids[0] == id then 1 else 0) + Occurs(ids[1..], id)
  }

  function RefCount(L: Ledger, key: Name, id: nat): nat {
    if Alive(L, key, id) then L.sessions[key].leases[id].refs else 0
  }

  ghost predicate Covered(L: Ledger, key: Name, ids: seq<nat>, id: nat) { Occurs(ids, id) <= RefCount(L, key, id) }

  lemma {:induction false} ReleaseCounts(L: Ledger, key: Name, id: nat, other: nat)
    requires RefCount(L, key, id) >= 1
    ensures RefCount(Release(L, key, id).0, key, other) == RefCount(L, key, other) - if other == id then 1 else 0
    ensures Release(L, key, id).0.violations == L.violations
  {
    if L.sessions[key].leases[id].refs <= 1 {
      var rest := Returned(L.sessions[key], id).leases;
      assert other in rest <==> other != id && other in L.sessions[key].leases;
    }
  }

  /** Completing drops one reference for each time a lease is named, and no other reference of any lease. */
  lemma {:induction false} CompleteDropsNamed(L: Ledger, key: Name, ids: seq<nat>, id: nat)
    requires forall i :: Covered(L, key, ids, i)
    ensures RefCount(ReleaseAll(L, key, ids), key, id) == RefCount(L, key, id) - Occurs(ids, id)
    ensures ReleaseAll(L, key, ids).violations == L.violations
    decreases |ids|
  {
    if ids != [] {
      assert Covered(L, key, ids, ids[0]);
      var L1 := Release(L, key, ids[0]).0;
      ReleaseCounts(L, key, ids[0], id);
      forall i ensures Covered(L1, key, ids[1..], i) {
        assert Covered(L, key, ids, i);
        ReleaseCounts(L, key, ids[0], i);
      }
      CompleteDropsNamed(L1, key, ids[1..], id);
    }
  }

  /** An operation as an object: its state, and the leases it will release. */
  class Operation {
    var state: OpState
    var leases: seq<nat>

    constructor (ids: seq<nat>)
      ensures state == Reserved_ && leases == ids
    {
      state, leases := Reserved_, ids;
    }

    method Execute() returns (legal: bool)
      modifies this
      ensures leases == old(leases) && state == After(old(state), Call.Execute)
      ensures legal <==> Step(old(state), Call.Execute).0.Some?
    {
      legal := state == Reserved_;
      if legal { state := Executing; }
    }

    method Drain() returns (legal: bool)
      modifies this
      ensures leases == old(leases) && state == After(old(state), Call.Drain)
      ensures legal <==> Step(old(state), Call.Drain).0.Some?
    {
      legal := state == Executing;
      if legal { state := Draining_; }
    }

    method Fail()
      modifies this
      ensures leases == old(leases) && state == After(old(state), Call.Fail)
    {
      if state != Released_ && state != Rejected { state := Failed; }
    }

    method Complete(ledger: RamLedger.Controller, key: Name) returns (legal: bool)
      modifies this, ledger
      ensures leases == old(leases) && state == After(old(state), Call.Complete)
      ensures legal <==> Step(old(state), Call.Complete).1
      ensures ledger.State() == if legal then ReleaseAll(old(ledger.State()), key, leases) else old(ledger.State())
    {
      if state == Executing { state := Draining_; }
      if state != Draining_ { return false; }
      state := Completed;
      for k := 0 to |leases|
        invariant state == Completed && leases == old(leases)
        invariant ReleaseAll(ledger.State(), key, leases[k..]) == ReleaseAll(old(ledger.State()), key, leases)
      {
        var last := ledger.Release(key, leases[k]);
        assert leases[k..][1..] == leases[k + 1..];
      }
      state := Released_;
      legal := true;
    }
  }
}
