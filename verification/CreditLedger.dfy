/** Output memory, charged and returned. */
module CreditLedger {
  // The references of the outbound half (runtime/hermit/gateway/connection.js) are leases of its account in the bucket
  // for queued output (runtime/hermit/ram/ledger.js): acquired for each payload, retained by the socket's writer,
  // dropped by the producer, released by the write's callback. The two run here side by side, with whatever else
  // happens in the ledger in between.

  import opened Common
  import opened Sums
  import L = LedgerModel
  import LedgerSafety
  import T = LedgerTheorems
  import opened LedgerViews
  import opened CreditModel
  import opened CreditSafety
  import opened CreditTheorems

  /** The ledger's name for the lease of a payload, and its capacity. */
  datatype Slot = Slot(id: nat, bytes: nat)

  datatype Joint = Joint(conn: Conn, ledger: L.Ledger, names: map<nat, Slot>)

  function IdOf(names: map<nat, Slot>, i: nat): nat { if i in names then names[i].id else 0 }

  // ------------------------------------------------------------------ what is done to the ledger

  /** The writer retains, the producer lets go. */
  function HandOver(l: L.Ledger, key: Name, id: nat): L.Ledger { L.Release(L.Retain(l, key, id).0, key, id).0 }

  /** The loop of `_flush`. */
  function Turns(z: Config, c: Conn, key: Name, l: L.Ledger, names: map<nat, Slot>): L.Ledger
    decreases |c.pendingOut|
  {
    if c.pendingOut == [] then l
    else
      var item := c.pendingOut[0];
      if !CanSend(z, c, |item.payload|) then l
      else if item.lease !in c.refs then
        Turns(z, c.(pendingOut := c.pendingOut[1..]), key, L.Release(l, key, IdOf(names, item.lease)).0, names)
      else if c.outSeq + 1 >= U48_MAX || !c.wsOpen || !Room(z, c, |item.payload|) then l
      else Turns(z, SendFirst(z, c), key, HandOver(l, key, IdOf(names, item.lease)), names)
  }

  function Relief(z: Config, c: Conn, key: Name, l: L.Ledger, names: map<nat, Slot>): L.Ledger {
    if c.congested && 4 * Total(c.inflight) < z.sendQueue && c.phase != Closed
    then Turns(z, c.(congested := false), key, l, names) else l
  }

  function GiveBack(l: L.Ledger, key: Name, names: map<nat, Slot>, items: seq<Item>): L.Ledger
    decreases |items|
  {
    if items == [] then l else GiveBack(L.Release(l, key, IdOf(names, items[0].lease)).0, key, names, items[1..])
  }

  /** `_output`: the capacity of the payload is reserved, or the session ends. */
  function Accept(z: Config, key: Name, j: Joint, payload: seq<Byte>): Joint {
    var c := j.conn;
    if c.discard || c.phase == Closed then Joint(Output(z, c, payload, true), j.ledger, j.names)
    else
      var (l, got) := L.Acquire(j.ledger, key, L.QueuedOut, |payload|, true);
      match got
      case Err(_) => Joint(Output(z, c, payload, false), l, j.names)
      case Ok(id) =>
        var names := j.names[c.nextLease := Slot(id, |payload|)];
        Joint(Output(z, c, payload, true),
              Turns(z, Enqueued(c, payload), key, L.Activate(l, key, id, |payload|).0, names), names)
  }

  /** The ledger after an operation of the connection other than an output. */
  function After(z: Config, key: Name, j: Joint, op: Op): L.Ledger {
    var c, l := j.conn, j.ledger;
    match op
    case DoCredit(consumedSeq, creditBytes) =>
      if c.phase != Active || CreditViolates(z, c, consumedSeq, creditBytes) then l
      else Turns(z, Acknowledged(c, consumedSeq).(creditBytes := creditBytes), key, l, j.names)
    case DoSettle =>
      if c.inflight == [] then l
      else
        var f := c.inflight[0];
        var l1 := if f.lease.Some? then L.Release(l, key, IdOf(j.names, f.lease.value)).0 else l;
        Relief(z, CalledBack(c), key, l1, j.names)
    case DoDrain => Relief(z, c, key, l, j.names)
    case DoFinalExit => if c.exited then l else GiveBack(l, key, j.names, c.pendingOut)
    case DoClose => L.Close(GiveBack(l, key, j.names, c.pendingOut), key)
    case DoControl(_) => if TornDown(z, c, op) then L.Close(GiveBack(l, key, j.names, c.pendingOut), key) else l
    case _ => l
  }

  datatype Step = Ours(op: Op) | Others(other: T.Op)

  function Next(z: Config, key: Name, j: Joint, s: Step): Joint {
    match s
    case Ours(DoOutput(payload, _)) => Accept(z, key, j, payload)
    case Ours(op) => Joint(Do(z, j.conn, op), After(z, key, j, op), j.names)
    case Others(op) => j.(ledger := T.Do(j.ledger, op))
  }

  /** Others use other accounts, or other buckets of this one; the name of a connection's account is its own. */
  predicate Allowed(key: Name, j: Joint, s: Step) {
    s.Others? ==> Elsewhere(j.ledger, key, L.QueuedOut, s.other) && (s.other.DoAdmit? ==> s.other.key != key)
  }

  /** What the connection itself sees of a step: whether there was memory for an output is the ledger's answer. */
  function Seen(key: Name, j: Joint, s: Step): Option<Op> {
    match s
    case Ours(DoOutput(payload, _)) =>
      Some(DoOutput(payload, L.AcquireCheck(j.ledger, key, L.QueuedOut, |payload|) == None))
    case Ours(op) => Some(op)
    case Others(_) => None
  }

  function Run(z: Config, key: Name, j: Joint, steps: seq<Step>): Joint
    decreases |steps|
  {
    if steps == [] then j else Run(z, key, Next(z, key, j, steps[0]), steps[1..])
  }

  predicate AllAllowed(z: Config, key: Name, j: Joint, steps: seq<Step>)
    decreases |steps|
  {
    steps == [] || (Allowed(key, j, steps[0]) && AllAllowed(z, key, Next(z, key, j, steps[0]), steps[1..]))
  }

  // ------------------------------------------------------------------ how the two correspond

  /** A reference is a lease of the account with as many references and the capacity of its payload. */
  ghost predicate Backs(view: map<nat, L.Lease>, refs: map<nat, nat>, names: map<nat, Slot>, i: nat) {
    i in refs ==>
      && i in names && names[i].id in view
      && view[names[i].id].refs == refs[i] && view[names[i].id].capacity == names[i].bytes
  }

  ghost predicate Referred(refs: map<nat, nat>, names: map<nat, Slot>, id: nat) {
    exists i :: i in refs && i in names && names[i].id == id
  }

  /** The leases for queued output are exactly those of the references. */
  ghost predicate Mirrors(view: map<nat, L.Lease>, refs: map<nat, nat>, names: map<nat, Slot>) {
    && (forall i :: i in refs ==> Backs(view, refs, names, i))
    && (forall id :: id in view ==> Referred(refs, names, id))
  }

  ghost predicate OwnName(names: map<nat, Slot>, generation: nat, i: nat, k: nat) {
    i in names ==> names[i].id <= generation && (k in names && names[k].id == names[i].id ==> i == k)
  }

  ghost predicate OwnNames(names: map<nat, Slot>, generation: nat) { forall i, k :: OwnName(names, generation, i, k) }

  /**
   * The bytes of a write with a payload of `n` bytes: seven bytes of data header and the frame header come before it.
   */
  function Wire(n: nat): nat { HeadSize(n + 7) + n + 7 }

  predicate ItemSized(names: map<nat, Slot>, item: Item) {
    item.lease in names && names[item.lease].bytes == |item.payload|
  }

  predicate FlightSized(names: map<nat, Slot>, f: Flight) {
    f.lease.Some? ==> f.lease.value in names && f.total == Wire(names[f.lease.value].bytes)
  }

  predicate Sized(names: map<nat, Slot>, c: Conn) {
    && (forall k :: 0 <= k < |c.pendingOut| ==> ItemSized(names, c.pendingOut[k]))
    && (forall k :: 0 <= k < |c.inflight| ==> FlightSized(names, c.inflight[k]))
  }

  /** Names of leases to come are not used. */
  predicate Unused(names: map<nat, Slot>, next: nat) { forall i :: i in names ==> i < next }

  ghost predicate Tied(z: Config, key: Name, j: Joint) {
    && Valid(z, j.conn) && L.Valid(j.ledger)
    && Mirrors(Kind(j.ledger, key, L.QueuedOut), j.conn.refs, j.names)
    && OwnNames(j.names, j.ledger.generation) && Sized(j.names, j.conn) && Unused(j.names, j.conn.nextLease)
    && (j.conn.phase == Closed && key in j.ledger.sessions ==> j.ledger.sessions[key].closed)
  }

  // ------------------------------------------------------------------ turns of the loop leave the ledger as it was

  lemma {:induction false} HandOverNothing(l: L.Ledger, key: Name, id: nat)
    requires L.Alive(l, key, id) && l.sessions[key].leases[id].refs >= 1
    ensures HandOver(l, key, id) == l
  {
    var a := l.sessions[key];
    var refs := a.leases[id].refs;
    var once := L.WithRefs(a, id, refs + 1);
    assert L.WithRefs(once, id, refs).leases == a.leases;
    assert l.sessions[key := once][key := a] == l.sessions;
  }

  lemma {:induction false} BackedAlive(l: L.Ledger, key: Name, c: Conn, names: map<nat, Slot>, i: nat)
    requires RefsOk(c) && Mirrors(Kind(l, key, L.QueuedOut), c.refs, names) && i in c.refs
    ensures L.Alive(l, key, IdOf(names, i)) && l.sessions[key].leases[IdOf(names, i)].refs == 1
  {
    assert RefAt(c, i) && Backs(Kind(l, key, L.QueuedOut), c.refs, names, i);
  }

  lemma {:induction false} TurnsNothing(z: Config, c: Conn, key: Name, l: L.Ledger, names: map<nat, Slot>)
    requires RefsOk(c) && Mirrors(Kind(l, key, L.QueuedOut), c.refs, names)
    ensures Turns(z, c, key, l, names) == l
    decreases |c.pendingOut|
  {
    hide SendFirst, HandOver, Kind, Mirrors, RefsOk;
    if c.pendingOut != [] && CanSend(z, c, |c.pendingOut[0].payload|) {
      FirstIsLive(c);
      if !(c.outSeq + 1 >= U48_MAX || !c.wsOpen || !Room(z, c, |c.pendingOut[0].payload|)) {
        BackedAlive(l, key, c, names, c.pendingOut[0].lease);
        HandOverNothing(l, key, IdOf(names, c.pendingOut[0].lease));
        SendRefs(z, c);
        SentWaiting(z, c);
        TurnsNothing(z, SendFirst(z, c), key, l, names);
      }
    }
  }

  lemma {:induction false} SentWaiting(z: Config, c: Conn)
    requires c.pendingOut != []
    ensures SendFirst(z, c).pendingOut == c.pendingOut[1..]
  {}

  // ------------------------------------------------------------------ one lease more or less

  lemma {:induction false} MirrorsMore(
    view: map<nat, L.Lease>, refs: map<nat, nat>, names: map<nat, Slot>, i: nat, id: nat, lease: L.Lease)
    requires Mirrors(view, refs, names) && i !in names && id !in view && lease.refs == 1
    ensures Mirrors(view[id := lease], refs[i := 1], names[i := Slot(id, lease.capacity)])
  {
    var view', refs', names' := view[id := lease], refs[i := 1], names[i := Slot(id, lease.capacity)];
    forall k | k in refs' ensures Backs(view', refs', names', k) { assert k != i ==> Backs(view, refs, names, k); }
    forall d | d in view' ensures Referred(refs', names', d) {
      if d == id {
        assert i in refs' && names'[i].id == id;
      } else {
        assert Referred(refs, names, d);
        var k :| k in refs && k in names && names[k].id == d;
        assert k in refs' && names'[k].id == d;
      }
    }
  }

  lemma {:induction false} MirrorsLess(view: map<nat, L.Lease>, refs: map<nat, nat>, names: map<nat, Slot>,
      generation: nat, i: nat)
    requires Mirrors(view, refs, names) && OwnNames(names, generation) && i in refs
    ensures i in names && names[i].id in view && Mirrors(view - {names[i].id}, refs - {i}, names)
  {
    assert Backs(view, refs, names, i);
    var view', refs' := view - {names[i].id}, refs - {i};
    forall k | k in refs' ensures Backs(view', refs', names, k) {
      assert Backs(view, refs, names, k) && OwnName(names, generation, i, k);
    }
    forall d | d in view' ensures Referred(refs', names, d) {
      var k :| k in refs && k in names && names[k].id == d;
      assert k in refs';
    }
  }

  lemma {:induction false} MirrorsSame(view: map<nat, L.Lease>, next: map<nat, L.Lease>, refs: map<nat, nat>,
      names: map<nat, Slot>)
    requires Mirrors(view, refs, names) && next.Keys == view.Keys
    requires forall id :: id in view ==> next[id].refs == view[id].refs && next[id].capacity == view[id].capacity
    ensures Mirrors(next, refs, names)
  {
    forall k | k in refs ensures Backs(next, refs, names, k) { assert Backs(view, refs, names, k); }
    forall d | d in next ensures Referred(refs, names, d) { assert d in view; }
  }

  lemma {:induction false} OwnNamesMore(names: map<nat, Slot>, generation: nat, i: nat, slot: Slot)
    requires OwnNames(names, generation) && slot.id == generation + 1
    ensures OwnNames(names[i := slot], generation + 1)
  {
    var names', next := names[i := slot], generation + 1;
    forall j, k ensures OwnName(names', next, j, k) {
      assert OwnName(names, generation, j, k) && OwnName(names, generation, k, j);
    }
  }

  lemma {:induction false} KindMore(l: L.Ledger, key: Name, n: nat)
    requires L.Valid(l) && L.AcquireCheck(l, key, L.QueuedOut, n) == None
    ensures var id := l.generation + 1; var got := L.Acquire(l, key, L.QueuedOut, n, true);
      var next := L.Activate(got.0, key, id, n).0;
      && got.1 == Ok(id) && id !in Kind(l, key, L.QueuedOut) && next.generation == id && L.Valid(next)
      && Kind(next, key, L.QueuedOut) == Kind(l, key, L.QueuedOut)[id := Charged(id, L.QueuedOut, n, n, true)]
  {
    hide L.Valid, L.Activate, L.Acquire;
    AcquireLeases(l, key, L.QueuedOut, n, n, true);
    LedgerSafety.AcquireKeeps(l, key, L.QueuedOut, n, true);
    LedgerSafety.ActivateKeeps(L.Acquire(l, key, L.QueuedOut, n, true).0, key, l.generation + 1, n);
  }

  /** The last reference to a payload's lease. */
  lemma {:induction false} KindLess(l: L.Ledger, key: Name, id: nat)
    requires L.Valid(l) && L.Alive(l, key, id) && l.sessions[key].leases[id].refs == 1
    ensures var (next, last) := L.Release(l, key, id);
      && last && L.Valid(next) && next.generation == l.generation
      && Kind(next, key, L.QueuedOut) == Kind(l, key, L.QueuedOut) - {id}
      && (key in next.sessions ==> next.sessions[key].closed == l.sessions[key].closed)
  {
    hide L.Valid;
    ReleaseLeases(l, key, id);
    LedgerSafety.ReleaseKeeps(l, key, id);
    KindWithout(LeasesOf(l, key), L.QueuedOut, id);
  }

  /** What waited is given back: the leases of exactly those payloads go. */
  lemma {:induction false} GiveBackKeeps(l: L.Ledger, key: Name, names: map<nat, Slot>, refs: map<nat, nat>,
      items: seq<Item>)
    requires L.Valid(l) && Mirrors(Kind(l, key, L.QueuedOut), refs, names) && OwnNames(names, l.generation)
    requires forall i: nat :: i in refs ==> refs[i] == 1
    requires forall i: nat :: InItems(items, i) <= RefOf(refs, i)
    ensures var next := GiveBack(l, key, names, items);
      && L.Valid(next) && Mirrors(Kind(next, key, L.QueuedOut), DropAll(refs, items), names)
      && next.generation == l.generation
      && (key in next.sessions ==> key in l.sessions && next.sessions[key].closed == l.sessions[key].closed)
    decreases |items|
  {
    hide L.Valid, L.Release, Kind, Mirrors, OwnNames;
    if items != [] {
      var i := items[0].lease;
      assert 1 <= InItems(items, i) <= RefOf(refs, i);
      FirstBack(l, key, names, refs, i);
      assert Drop(refs, i) == refs - {i};
      forall k: nat ensures InItems(items[1..], k) <= RefOf(refs - {i}, k) {
        assert InItems(items, k) <= RefOf(refs, k);
      }
      GiveBackKeeps(L.Release(l, key, IdOf(names, i)).0, key, names, refs - {i}, items[1..]);
    }
  }

  lemma {:induction false} FirstBack(l: L.Ledger, key: Name, names: map<nat, Slot>, refs: map<nat, nat>, i: nat)
    requires L.Valid(l) && Mirrors(Kind(l, key, L.QueuedOut), refs, names) && OwnNames(names, l.generation)
    requires i in refs && refs[i] == 1
    ensures var next := L.Release(l, key, IdOf(names, i)).0;
      && L.Valid(next) && Mirrors(Kind(next, key, L.QueuedOut), refs - {i}, names) && next.generation == l.generation
      && key in l.sessions && (key in next.sessions ==> next.sessions[key].closed == l.sessions[key].closed)
  {
    hide L.Valid, L.Release;
    assert Backs(Kind(l, key, L.QueuedOut), refs, names, i);
    MirrorsLess(Kind(l, key, L.QueuedOut), refs, names, l.generation, i);
    KindLess(l, key, names[i].id);
  }

  lemma {:induction false} CloseMirrors(l: L.Ledger, key: Name, refs: map<nat, nat>, names: map<nat, Slot>)
    requires L.Valid(l) && Mirrors(Kind(l, key, L.QueuedOut), refs, names)
    ensures var next := L.Close(l, key);
      && L.Valid(next) && Mirrors(Kind(next, key, L.QueuedOut), refs, names)
      && next.generation == l.generation && (key in next.sessions ==> next.sessions[key].closed)
  {
    hide L.Valid, L.Close;
    CloseLeases(l, key);
    LedgerSafety.CloseKeeps(l, key);
    MirrorsSame(Kind(l, key, L.QueuedOut), Kind(L.Close(l, key), key, L.QueuedOut), refs, names);
  }

  // ------------------------------------------------------------------ the sizes of what is held

  lemma {:induction false} SentSized(z: Config, c: Conn, names: map<nat, Slot>)
    requires Sized(names, c) && c.pendingOut != []
    ensures Sized(names, SendFirst(z, c))
  {
    assert ItemSized(names, c.pendingOut[0]);
  }

  lemma {:induction false} FlushedSized(z: Config, c: Conn, names: map<nat, Slot>)
    requires Sized(names, c)
    ensures Sized(names, Flushed(z, c).0)
    decreases |c.pendingOut|
  {
    hide SendFirst;
    if c.pendingOut != [] && CanSend(z, c, |c.pendingOut[0].payload|) {
      if c.pendingOut[0].lease !in c.refs {
        FlushedSized(z, c.(pendingOut := c.pendingOut[1..]), names);
      } else if c.outSeq + 1 < U48_MAX && c.wsOpen && Room(z, c, |c.pendingOut[0].payload|) {
        SentSized(z, c, names);
        SentWaiting(z, c);
        FlushedSized(z, SendFirst(z, c), names);
      }
    }
  }

  lemma {:induction false} FlushSized(z: Config, c: Conn, names: map<nat, Slot>)
    requires Sized(names, c)
    ensures Sized(names, Flush(z, c))
  {
    FlushedSized(z, c, names);
  }

  lemma {:induction false} RelievedSized(z: Config, c: Conn, names: map<nat, Slot>)
    requires Sized(names, c)
    ensures Sized(names, Relieved(z, c))
  {
    hide Flush;
    FlushSized(z, c.(congested := false), names);
  }

  lemma {:induction false} EnqueuedSized(c: Conn, names: map<nat, Slot>, payload: seq<Byte>, id: nat)
    requires Sized(names, c) && Unused(names, c.nextLease)
    ensures Sized(names[c.nextLease := Slot(id, |payload|)], Enqueued(c, payload))
  {
    var names' := names[c.nextLease := Slot(id, |payload|)];
    forall k | 0 <= k < |c.pendingOut| ensures ItemSized(names', c.pendingOut[k]) {
      assert ItemSized(names, c.pendingOut[k]);
    }
    forall k | 0 <= k < |c.inflight| ensures FlightSized(names', c.inflight[k]) {
      assert FlightSized(names, c.inflight[k]);
    }
  }

  lemma {:induction false} OutputSized(z: Config, c: Conn, names: map<nat, Slot>, payload: seq<Byte>, granted: bool,
      id: nat)
    requires Sized(names, c) && Unused(names, c.nextLease)
    ensures Joins(c, DoOutput(payload, granted)) != [] ==>
      Sized(names[c.nextLease := Slot(id, |payload|)], Output(z, c, payload, granted))
    ensures Joins(c, DoOutput(payload, granted)) == [] ==> Sized(names, Output(z, c, payload, granted))
  {
    hide Flush;
    if Joins(c, DoOutput(payload, granted)) != [] {
      EnqueuedSized(c, names, payload, id);
      FlushSized(z, Enqueued(c, payload), names[c.nextLease := Slot(id, |payload|)]);
    }
  }

  /** Every other operation keeps what is held among what was held. */
  lemma {:induction false} DoSized(z: Config, c: Conn, names: map<nat, Slot>, op: Op)
    requires Sized(names, c) && !op.DoOutput?
    ensures Sized(names, Do(z, c, op))
  {
    hide Flush, Relieved, Sized;
    match op
    case DoCredit(consumedSeq, creditBytes) => CreditSized(z, c, names, consumedSeq, creditBytes);
    case DoSettle => SettledSized(z, c, names);
    case DoDrain => RelievedSized(z, c, names);
    case _ => PlainSized(z, c, names, op);
  }

  lemma {:induction false} SameHeld(c: Conn, d: Conn, names: map<nat, Slot>)
    requires Sized(names, c) && d.pendingOut == c.pendingOut && d.inflight == c.inflight
    ensures Sized(names, d)
  {}

  lemma {:induction false} CreditSized(z: Config, c: Conn, names: map<nat, Slot>, consumedSeq: int, creditBytes: int)
    requires Sized(names, c)
    ensures Sized(names, Credit(z, c, consumedSeq, creditBytes))
  {
    hide Flush, Sized;
    if c.phase == Active && !CreditRefused(c, consumedSeq, creditBytes) {
      var d := Acknowledged(c, consumedSeq);
      SameHeld(c, d, names);
      SameHeld(c, End(d), names);
      SameHeld(c, d.(creditBytes := creditBytes), names);
      FlushSized(z, d.(creditBytes := creditBytes), names);
    } else {
      SameHeld(c, End(c), names);
    }
  }

  lemma {:induction false} SettledSized(z: Config, c: Conn, names: map<nat, Slot>)
    requires Sized(names, c)
    ensures Sized(names, Settled(z, c))
  {
    hide Relieved;
    if c.inflight != [] { RelievedSized(z, CalledBack(c), names); }
  }

  lemma {:induction false} PlainSized(z: Config, c: Conn, names: map<nat, Slot>, op: Op)
    requires Sized(names, c) && (op.DoControl? || op.DoEnd? || op.DoClosing? || op.DoFinalExit? || op.DoClose?)
    ensures Sized(names, Do(z, c, op))
  {}

  // ------------------------------------------------------------------ each step

  /** The ledger after a step: its leases for queued output are those of the references. */
  ghost predicate Paid(key: Name, l: L.Ledger, refs: map<nat, nat>, names: map<nat, Slot>) {
    L.Valid(l) && Mirrors(Kind(l, key, L.QueuedOut), refs, names) && OwnNames(names, l.generation)
  }

  lemma {:induction false} ReliefNothing(z: Config, c: Conn, key: Name, l: L.Ledger, names: map<nat, Slot>)
    requires RefsOk(c) && Mirrors(Kind(l, key, L.QueuedOut), c.refs, names)
    ensures Relief(z, c, key, l, names) == l
  {
    assert RefsOk(c.(congested := false)) by { SameRefs(c, c.(congested := false)); }
    TurnsNothing(z, c.(congested := false), key, l, names);
  }

  lemma {:induction false} SameRefs(c: Conn, d: Conn)
    requires RefsOk(c) && d.pendingOut == c.pendingOut && d.inflight == c.inflight
    requires d.refs == c.refs && d.nextLease == c.nextLease
    ensures RefsOk(d)
  {
    forall id: nat ensures RefAt(d, id) { assert RefAt(c, id); }
  }

  lemma {:induction false} AcceptPaid(z: Config, key: Name, j: Joint, payload: seq<Byte>)
    requires Tied(z, key, j)
    ensures var n := Accept(z, key, j, payload);
      var granted := L.AcquireCheck(j.ledger, key, L.QueuedOut, |payload|) == None;
      var joins := Joins(j.conn, DoOutput(payload, granted)) != [];
      && n.conn == Output(z, j.conn, payload, granted)
      && Paid(key, n.ledger, if joins then j.conn.refs[j.conn.nextLease := 1] else j.conn.refs, n.names)
      && n.names == (if joins then j.names[j.conn.nextLease := Slot(j.ledger.generation + 1, |payload|)] else j.names)
      && (key in n.ledger.sessions ==>
            key in j.ledger.sessions && n.ledger.sessions[key].closed == j.ledger.sessions[key].closed)
  {
    hide L.Valid, Valid, Turns, Flush, Kind, Mirrors, OwnNames, Sized, Unused;
    var c, l := j.conn, j.ledger;
    if c.discard || c.phase == Closed {
    } else if L.AcquireCheck(l, key, L.QueuedOut, |payload|) != None {
      LedgerSafety.AcquireIs(l, key, L.QueuedOut, |payload|, true);
      LedgerSafety.AcquireKeeps(l, key, L.QueuedOut, |payload|, true);
      RefusedSame(l, key, L.AcquireCheck(l, key, L.QueuedOut, |payload|).value);
    } else {
      KindMore(l, key, |payload|);
      var next := L.Activate(L.Acquire(l, key, L.QueuedOut, |payload|, true).0, key, l.generation + 1, |payload|).0;
      var names := j.names[c.nextLease := Slot(l.generation + 1, |payload|)];
      NotNamed(j.names, c.nextLease);
      MirrorsMore(Kind(l, key, L.QueuedOut), c.refs, j.names, c.nextLease, l.generation + 1,
                  Charged(l.generation + 1, L.QueuedOut, |payload|, |payload|, true));
      OwnNamesMore(j.names, l.generation, c.nextLease, Slot(l.generation + 1, |payload|));
      EnqueueKeeps(z, c, payload);
      ValidRefs(z, Enqueued(c, payload));
      TurnsNothing(z, Enqueued(c, payload), key, next, names);
    }
  }

  lemma {:induction false} NotNamed(names: map<nat, Slot>, i: nat)
    requires Unused(names, i)
    ensures i !in names
  {}

  lemma {:induction false} ValidRefs(z: Config, c: Conn)
    requires Valid(z, c)
    ensures RefsOk(c)
  {}

  lemma {:induction false} RefusedSame(l: L.Ledger, key: Name, scope: L.Scope)
    ensures Kind(L.Refused(l, scope), key, L.QueuedOut) == Kind(l, key, L.QueuedOut)
    ensures L.Refused(l, scope).generation == l.generation && L.Refused(l, scope).sessions == l.sessions
  {}

  lemma {:induction false} CreditPaid(z: Config, key: Name, j: Joint, op: Op)
    requires Tied(z, key, j) && op.DoCredit?
    ensures After(z, key, j, op) == j.ledger
  {
    hide L.Valid, Turns, Mirrors, Sized, Unused, OwnNames;
    var c := j.conn;
    if c.phase == Active && !CreditViolates(z, c, op.consumedSeq, op.creditBytes) {
      AcknowledgedKeeps(z, c, op.consumedSeq);
      var d := Acknowledged(c, op.consumedSeq).(creditBytes := op.creditBytes);
      SameRefs(c, d);
      TurnsNothing(z, d, key, j.ledger, j.names);
    }
  }

  lemma {:induction false} SettlePaid(z: Config, key: Name, j: Joint)
    requires Tied(z, key, j) && j.conn.inflight != []
    ensures var next := After(z, key, j, DoSettle);
      && Paid(key, next, CalledBack(j.conn).refs, j.names)
      && (key in next.sessions ==>
            key in j.ledger.sessions && next.sessions[key].closed == j.ledger.sessions[key].closed)
  {
    hide L.Valid, L.Release, Relief, Kind, Mirrors, OwnNames, Sized, Unused;
    var c, f := j.conn, j.conn.inflight[0];
    CalledBackKeeps(z, c);
    ValidRefs(z, CalledBack(c));
    if f.lease.Some? {
      assert RefAt(c, f.lease.value);
      FirstBack(j.ledger, key, j.names, c.refs, f.lease.value);
      ReliefNothing(z, CalledBack(c), key, L.Release(j.ledger, key, IdOf(j.names, f.lease.value)).0, j.names);
    } else {
      ReliefNothing(z, CalledBack(c), key, j.ledger, j.names);
    }
  }

  /**
   * The session gives up what waits; when its socket is gone, so is the account, once everything in it has completed.
   */
  lemma {:induction false} GiveUpPaid(z: Config, key: Name, j: Joint)
    requires Tied(z, key, j)
    ensures var next := GiveBack(j.ledger, key, j.names, j.conn.pendingOut);
      && Paid(key, next, DropAll(j.conn.refs, j.conn.pendingOut), j.names)
      && (key in next.sessions ==>
            key in j.ledger.sessions && next.sessions[key].closed == j.ledger.sessions[key].closed)
      && Paid(key, L.Close(next, key), DropAll(j.conn.refs, j.conn.pendingOut), j.names)
      && (key in L.Close(next, key).sessions ==> L.Close(next, key).sessions[key].closed)
  {
    hide L.Valid, L.Close, GiveBack, Kind, Mirrors, OwnNames, Sized, Unused;
    var c := j.conn;
    forall i: nat ensures i in c.refs ==> c.refs[i] == 1 { assert RefAt(c, i); }
    forall i: nat ensures InItems(c.pendingOut, i) <= RefOf(c.refs, i) { assert RefAt(c, i); }
    GiveBackKeeps(j.ledger, key, j.names, c.refs, c.pendingOut);
    CloseMirrors(GiveBack(j.ledger, key, j.names, c.pendingOut), key, DropAll(c.refs, c.pendingOut), j.names);
  }

  lemma {:induction false} NextConn(z: Config, key: Name, j: Joint, s: Step)
    requires Tied(z, key, j)
    ensures Next(z, key, j, s).conn == if Seen(key, j, s).Some? then Do(z, j.conn, Seen(key, j, s).value) else j.conn
  {
    hide Tied, Output, After;
    if s.Ours? && s.op.DoOutput? { AcceptPaid(z, key, j, s.op.payload); }
  }

  lemma {:induction false} Uncongested(z: Config, c: Conn)
    requires Valid(z, c)
    ensures Valid(z, c.(congested := false))
  {
    SameLedger(z, c, c.(congested := false));
  }

  lemma {:induction false} OutputOpen(z: Config, c: Conn, payload: seq<Byte>, granted: bool)
    requires Valid(z, c) && c.phase != Closed
    ensures Output(z, c, payload, granted).phase != Closed
  {
    hide Flush, Valid;
    EnqueueKeeps(z, c, payload);
    FlushKeeps(z, Enqueued(c, payload));
  }

  lemma {:induction false} CreditOpen(z: Config, c: Conn, consumedSeq: int, creditBytes: int)
    requires Valid(z, c) && c.phase != Closed
    ensures Credit(z, c, consumedSeq, creditBytes).phase != Closed
  {
    hide Flush, Valid;
    if c.phase == Active && !CreditViolates(z, c, consumedSeq, creditBytes) {
      AcknowledgedKeeps(z, c, consumedSeq);
      var d := Acknowledged(c, consumedSeq);
      SameLedger(z, d, d.(creditBytes := creditBytes));
      FlushKeeps(z, d.(creditBytes := creditBytes));
    }
  }

  lemma {:induction false} RelievedOpen(z: Config, c: Conn)
    requires Valid(z, c) && c.phase != Closed
    ensures Relieved(z, c).phase != Closed
  {
    hide Flush, Valid;
    Uncongested(z, c);
    FlushKeeps(z, c.(congested := false));
  }

  /** Only the end of the socket closes a connection. */
  lemma {:induction false} ClosedBySocket(z: Config, c: Conn, op: Op)
    requires Valid(z, c) && c.phase != Closed && Do(z, c, op).phase == Closed
    ensures op.DoClose? || (op.DoControl? && TornDown(z, c, op))
  {
    hide Relieved, Output, Credit, Valid;
    match op
    case DoOutput(payload, granted) => OutputOpen(z, c, payload, granted);
    case DoCredit(consumedSeq, creditBytes) => CreditOpen(z, c, consumedSeq, creditBytes);
    case DoSettle =>
      if c.inflight != [] {
        CalledBackKeeps(z, c);
        RelievedOpen(z, CalledBack(c));
      }
    case DoDrain => RelievedOpen(z, c);
    case _ =>
  }

  /** What an operation of the connection does to the account. */
  lemma {:induction false} OursPaid(z: Config, key: Name, j: Joint, op: Op)
    requires Tied(z, key, j) && !op.DoOutput?
    ensures Paid(key, After(z, key, j, op), RefsAfter(z, j.conn, op), j.names)
    ensures var next := After(z, key, j, op);
      && (key in next.sessions && key in j.ledger.sessions && j.ledger.sessions[key].closed ==>
          next.sessions[key].closed)
      && (key in next.sessions ==> key in j.ledger.sessions)
      && (op.DoClose? || (op.DoControl? && TornDown(z, j.conn, op)) ==>
            key in next.sessions ==> next.sessions[key].closed)
  {
    hide L.Valid, L.Close, GiveBack, Kind, Mirrors, OwnNames, Sized, Unused, Valid, Relief, Turns;
    match op
    case DoCredit(_, _) => CreditPaid(z, key, j, op);
    case DoSettle => if j.conn.inflight != [] { SettlePaid(z, key, j); }
    case DoDrain =>
      ValidRefs(z, j.conn);
      ReliefNothing(z, j.conn, key, j.ledger, j.names);
    case DoControl(_) =>
      GiveUpPaid(z, key, j);
      ClosedHad(GiveBack(j.ledger, key, j.names, j.conn.pendingOut), key);
    case DoClose =>
      GiveUpPaid(z, key, j);
      ClosedHad(GiveBack(j.ledger, key, j.names, j.conn.pendingOut), key);
    case DoFinalExit => GiveUpPaid(z, key, j);
    case _ =>
  }

  lemma {:induction false} ClosedHad(l: L.Ledger, key: Name)
    ensures key in L.Close(l, key).sessions ==> key in l.sessions
  {}

  lemma {:induction false} OthersLeave(l: L.Ledger, key: Name, op: T.Op)
    requires op.DoAdmit? ==> op.key != key
    ensures key in T.Do(l, op).sessions ==> key in l.sessions
    ensures key in T.Do(l, op).sessions && l.sessions[key].closed ==> T.Do(l, op).sessions[key].closed
    ensures T.Do(l, op).generation >= l.generation
  {
    T.GenerationGrows(l, op);
    if op.DoAcquire? { LedgerSafety.AcquireIs(l, op.key, op.bucket, op.capacity, op.physical); }
  }

  lemma {:induction false} OwnNamesLater(names: map<nat, Slot>, generation: nat, later: nat)
    requires OwnNames(names, generation) && generation <= later
    ensures OwnNames(names, later)
  {
    forall i, k ensures OwnName(names, later, i, k) { assert OwnName(names, generation, i, k); }
  }

  /** Every step, of the connection or of anyone else, keeps the account and the connection in agreement. */
  lemma {:induction false} StepKeeps(z: Config, key: Name, j: Joint, s: Step)
    requires Tied(z, key, j) && Allowed(key, j, s)
    ensures Tied(z, key, Next(z, key, j, s))
  {
    hide L.Valid, Valid, Kind, Mirrors, OwnNames, Sized, Unused, Do, After, Accept, RefsAfter;
    var c := j.conn;
    match s
    case Others(op) =>
      T.DoKeeps(j.ledger, op);
      ElsewhereKeeps(j.ledger, key, L.QueuedOut, op);
      OthersLeave(j.ledger, key, op);
      OwnNamesLater(j.names, j.ledger.generation, T.Do(j.ledger, op).generation);
    case Ours(op) =>
      NextConn(z, key, j, s);
      var seen := Seen(key, j, s).value;
      DoKeeps(z, c, seen);
      RefsFollow(z, c, seen);
      if c.phase != Closed && Do(z, c, seen).phase == Closed { ClosedBySocket(z, c, seen); }
      if op.DoOutput? {
        AcceptPaid(z, key, j, op.payload);
        AcceptTied(z, key, j, op.payload);
      } else {
        OursPaid(z, key, j, op);
        DoSized(z, c, j.names, op);
      }
  }

  lemma {:induction false} AcceptTied(z: Config, key: Name, j: Joint, payload: seq<Byte>)
    requires Tied(z, key, j)
    ensures var n := Accept(z, key, j, payload);
      var seen := DoOutput(payload, L.AcquireCheck(j.ledger, key, L.QueuedOut, |payload|) == None);
      && Sized(n.names, n.conn)
      && RefsAfter(z, j.conn, seen)
         == (if Joins(j.conn, seen) != [] then j.conn.refs[j.conn.nextLease := 1] else j.conn.refs)
      && Unused(n.names, j.conn.nextLease + if Joins(j.conn, seen) != [] then 1 else 0)
  {
    hide L.Valid, Valid, Kind, Mirrors, OwnNames, Sized, Output, Accept;
    AcceptPaid(z, key, j, payload);
    var granted := L.AcquireCheck(j.ledger, key, L.QueuedOut, |payload|) == None;
    OutputSized(z, j.conn, j.names, payload, granted, j.ledger.generation + 1);
  }

  lemma {:induction false} StepsKeep(z: Config, key: Name, j: Joint, steps: seq<Step>)
    requires Tied(z, key, j) && AllAllowed(z, key, j, steps)
    ensures Tied(z, key, Run(z, key, j, steps))
    decreases |steps|
  {
    if steps != [] {
      StepKeeps(z, key, j, steps[0]);
      StepsKeep(z, key, Next(z, key, j, steps[0]), steps[1..]);
    }
  }

  lemma {:induction false} OpenedTied(z: Config, key: Name, creditBytes: nat, l: L.Ledger)
    requires creditBytes <= z.window && L.Valid(l) && Kind(l, key, L.QueuedOut) == map[]
    ensures Tied(z, key, Joint(Opened(creditBytes), l, map[]))
  {
    OpenedValid(z, creditBytes);
  }

  // ------------------------------------------------------------------ what the account is charged

  /** The payload of a write of so many bytes. */
  function PayloadOf(total: nat): nat {
    if total < 128 then (if total < 9 then 0 else total - 9) else if total < 65540 then total - 11 else total - 17
  }

  lemma {:induction false} PayloadOfWire(n: nat)
    ensures PayloadOf(Wire(n)) == n
  {}

  /** Payload bytes that were written and whose callback has not come. */
  function FlightBytes(flights: seq<Flight>): nat {
    if flights == [] then 0
    else (if flights[0].lease.Some? then PayloadOf(flights[0].total) else 0) + FlightBytes(flights[1..])
  }

  lemma {:induction false} NoReference(view: map<nat, L.Lease>, refs: map<nat, nat>, names: map<nat, Slot>)
    requires Mirrors(view, refs, names) && forall i: nat :: RefOf(refs, i) == 0
    requires forall i: nat :: i in refs ==> refs[i] == 1
    ensures view == map[]
  {
    forall i: nat ensures i !in refs { assert RefOf(refs, i) == 0; }
    forall id ensures id !in view { assert id in view ==> Referred(refs, names, id); }
  }

  /** One payload the less. */
  lemma {:induction false} OneCharge(
    view: map<nat, L.Lease>, refs: map<nat, nat>, names: map<nat, Slot>, generation: nat, i: nat, n: nat)
    requires Mirrors(view, refs, names) && OwnNames(names, generation) && i in refs && i in names && names[i].bytes == n
    ensures Mirrors(view - {names[i].id}, refs - {i}, names)
    ensures Weigh(view, L.CapacityOf) == n + Weigh(view - {names[i].id}, L.CapacityOf)
  {
    MirrorsLess(view, refs, names, generation, i);
    assert Backs(view, refs, names, i);
    WeighRemove(view, L.CapacityOf, names[i].id);
  }

  ghost predicate CountedAt(refs: map<nat, nat>, items: seq<Item>, flights: seq<Flight>, i: nat) {
    RefOf(refs, i) == InItems(items, i) + InFlights(flights, i) && (i in refs ==> refs[i] == 1)
  }

  lemma {:induction false} Charges(
    view: map<nat, L.Lease>, refs: map<nat, nat>, names: map<nat, Slot>, generation: nat, items: seq<Item>,
    flights: seq<Flight>)
    requires Mirrors(view, refs, names) && OwnNames(names, generation)
    requires forall i: nat :: CountedAt(refs, items, flights, i)
    requires forall k :: 0 <= k < |items| ==> ItemSized(names, items[k])
    requires forall k :: 0 <= k < |flights| ==> FlightSized(names, flights[k])
    ensures Weigh(view, L.CapacityOf) == ItemBytes(items) + FlightBytes(flights)
    decreases |items| + |flights|
  {
    hide Mirrors, OwnNames, Wire, PayloadOf;
    if items != [] {
      var i := items[0].lease;
      assert CountedAt(refs, items, flights, i) && ItemSized(names, items[0]);
      OneCharge(view, refs, names, generation, i, |items[0].payload|);
      forall k: nat ensures CountedAt(refs - {i}, items[1..], flights, k) { assert CountedAt(refs, items, flights, k); }
      Charges(view - {names[i].id}, refs - {i}, names, generation, items[1..], flights);
    } else if flights != [] && flights[0].lease.Some? {
      var i := flights[0].lease.value;
      assert CountedAt(refs, items, flights, i) && FlightSized(names, flights[0]);
      PayloadOfWire(names[i].bytes);
      OneCharge(view, refs, names, generation, i, names[i].bytes);
      forall k: nat ensures CountedAt(refs - {i}, items, flights[1..], k) { assert CountedAt(refs, items, flights, k); }
      Charges(view - {names[i].id}, refs - {i}, names, generation, items, flights[1..]);
    } else if flights != [] {
      forall k: nat ensures CountedAt(refs, items, flights[1..], k) { assert CountedAt(refs, items, flights, k); }
      Charges(view, refs, names, generation, items, flights[1..]);
    } else {
      forall i: nat ensures RefOf(refs, i) == 0 && (i in refs ==> refs[i] == 1) {
        assert CountedAt(refs, items, flights, i);
      }
      NoReference(view, refs, names);
      WeighEmpty(view, L.CapacityOf);
    }
  }

  /**
   * After any run, whatever else used the ledger in between, the account's running total for queued output is exactly
   * the bytes of the payloads that wait and of those whose write has not been called back, and it holds one lease with
   * one reference for each of them.
   */
  lemma {:induction false} ChargedExactly(z: Config, key: Name, creditBytes: nat, l: L.Ledger, steps: seq<Step>)
    requires creditBytes <= z.window && L.Valid(l) && Kind(l, key, L.QueuedOut) == map[]
    requires AllAllowed(z, key, Joint(Opened(creditBytes), l, map[]), steps)
    ensures var j := Run(z, key, Joint(Opened(creditBytes), l, map[]), steps);
      && (key in j.ledger.sessions ==>
            L.Get(j.ledger.sessions[key].byBucket, L.QueuedOut) ==
                ItemBytes(j.conn.pendingOut) + FlightBytes(j.conn.inflight))
      && (key !in j.ledger.sessions ==> ItemBytes(j.conn.pendingOut) + FlightBytes(j.conn.inflight) == 0)
      && Mirrors(Kind(j.ledger, key, L.QueuedOut), j.conn.refs, j.names) && Valid(z, j.conn)
  {
    OpenedTied(z, key, creditBytes, l);
    StepsKeep(z, key, Joint(Opened(creditBytes), l, map[]), steps);
    TiedCharges(z, key, Run(z, key, Joint(Opened(creditBytes), l, map[]), steps));
  }

  lemma {:induction false} TiedCharges(z: Config, key: Name, j: Joint)
    requires Tied(z, key, j)
    ensures key in j.ledger.sessions ==>
      L.Get(j.ledger.sessions[key].byBucket, L.QueuedOut) == ItemBytes(j.conn.pendingOut) + FlightBytes(j.conn.inflight)
    ensures key !in j.ledger.sessions ==> ItemBytes(j.conn.pendingOut) + FlightBytes(j.conn.inflight) == 0
  {
    var c, view := j.conn, Kind(j.ledger, key, L.QueuedOut);
    forall i: nat ensures CountedAt(c.refs, c.pendingOut, c.inflight, i) { assert RefAt(c, i); }
    Charges(view, c.refs, j.names, j.ledger.generation, c.pendingOut, c.inflight);
    if key in j.ledger.sessions { KindTotal(j.ledger, key, L.QueuedOut); } else { WeighEmpty(view, L.CapacityOf); }
  }

  /**
   * The capacity of a payload leaves the account in exactly one step: the callback of its write, or, if it was never
   * written, the end of the session or of the socket. No step of anyone else returns it, and none returns it again.
   */
  lemma {:induction false} CapacityReturned(z: Config, key: Name, j: Joint, s: Step, i: nat)
    requires Tied(z, key, j) && Allowed(key, j, s) && i in j.names
    ensures var next := Next(z, key, j, s);
      && i in next.names && next.names[i] == j.names[i]
      && (j.names[i].id in Kind(j.ledger, key, L.QueuedOut) ==>
            (j.names[i].id !in Kind(next.ledger, key, L.QueuedOut) <==>
               s.Ours? && (|| (s.op.DoSettle? && j.conn.inflight != [] && j.conn.inflight[0].lease == Some(i))
                           || (TornDown(z, j.conn, s.op) && InItems(j.conn.pendingOut, i) == 1))))
      && (j.names[i].id !in Kind(j.ledger, key, L.QueuedOut) ==> j.names[i].id !in Kind(next.ledger, key, L.QueuedOut))
  {
    hide Kind, Next, L.Valid, Valid, Sized, After, Accept, TornDown;
    var next := Next(z, key, j, s);
    StepKeeps(z, key, j, s);
    NextNames(z, key, j, s, i);
    HeldIff(z, key, j, i);
    HeldIff(z, key, next, i);
    NextConn(z, key, j, s);
    if s.Ours? {
      ReturnedByCallback(z, j.conn, Seen(key, j, s).value, i);
      SeenSame(z, key, j, s);
    }
  }

  lemma {:induction false} SeenSame(z: Config, key: Name, j: Joint, s: Step)
    requires s.Ours?
    ensures Seen(key, j, s).value.DoSettle? == s.op.DoSettle?
    ensures TornDown(z, j.conn, Seen(key, j, s).value) == TornDown(z, j.conn, s.op)
  {}

  lemma {:induction false} NextNames(z: Config, key: Name, j: Joint, s: Step, i: nat)
    requires Tied(z, key, j) && i in j.names
    ensures var next := Next(z, key, j, s); i in next.names && next.names[i] == j.names[i]
    ensures i < j.conn.nextLease
  {
    hide L.Valid, Valid, Mirrors, Sized, After, Accept, OwnNames;
    if s.Ours? && s.op.DoOutput? { AcceptPaid(z, key, j, s.op.payload); }
  }

  lemma {:induction false} HeldIff(z: Config, key: Name, j: Joint, i: nat)
    requires Tied(z, key, j) && i in j.names
    ensures j.names[i].id in Kind(j.ledger, key, L.QueuedOut) <==> i in j.conn.refs
  {
    hide L.Valid, Valid, Kind, Sized;
    var view, id := Kind(j.ledger, key, L.QueuedOut), j.names[i].id;
    assert i in j.conn.refs ==> Backs(view, j.conn.refs, j.names, i);
    if id in view {
      assert Referred(j.conn.refs, j.names, id);
      var k :| k in j.conn.refs && k in j.names && j.names[k].id == id;
      assert OwnName(j.names, j.ledger.generation, i, k);
    }
  }

  /**
   * When the socket is gone and every write has been called back, nothing of the output is charged any more; with no
   * other lease left in it the account itself is gone and its reservation returned.
   */
  lemma {:induction false} NothingKept(z: Config, key: Name, j: Joint)
    requires Tied(z, key, j) && j.conn.phase == Closed && j.conn.pendingOut == [] && j.conn.inflight == []
    ensures Kind(j.ledger, key, L.QueuedOut) == map[]
    ensures LeasesOf(j.ledger, key) == map[] ==> key !in j.ledger.sessions
  {
    forall i: nat ensures RefOf(j.conn.refs, i) == 0 && (i in j.conn.refs ==> j.conn.refs[i] == 1) {
      assert RefAt(j.conn, i);
    }
    NoReference(Kind(j.ledger, key, L.QueuedOut), j.conn.refs, j.names);
    assert L.SessionOk(j.ledger, key);
  }
}
