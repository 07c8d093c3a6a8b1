/** The guarantees of the outbound half. */
module CreditTheorems {
  import opened Common
  import opened CreditModel
  import opened CreditSafety

  // ------------------------------------------------------------------ credit safety

  predicate MarkPair(c: Conn, i: nat, j: nat) {
    i < j < |c.outstanding| ==>
      && c.outstanding[i].cum <= c.outstanding[j].cum
      && (NoneEmpty(c.wire) ==> c.outstanding[i].cum < c.outstanding[j].cum)
  }

  /** `outstanding` lists the unconsumed frames without a gap, with growing totals that end at what was sent. */
  ghost predicate MarksInOrder(c: Conn) {
    && |c.outstanding| == c.outSeq - c.consumedSeq
    && (forall i :: 0 <= i < |c.outstanding| ==> c.outstanding[i].seqNo == c.consumedSeq + 1 + i)
    && (forall i: nat, j: nat :: MarkPair(c, i, j))
    && (c.outstanding != [] ==> c.outstanding[|c.outstanding| - 1].cum == c.sentBytes)
  }

  lemma {:induction false} MarkPairs(c: Conn, i: nat, j: nat)
    requires MarksOk(c)
    ensures MarkPair(c, i, j)
  {
    if i < j < |c.outstanding| {
      assert MarkAt(c, i) && MarkAt(c, j);
      BytesGrow(c.wire, c.consumedSeq + 1 + i, c.consumedSeq + 1 + j);
      if NoneEmpty(c.wire) { BytesGrowStrictly(c.wire, c.consumedSeq + 1 + i, c.consumedSeq + 1 + j); }
    }
  }

  lemma {:induction false} MarksAreInOrder(c: Conn)
    requires WireOk(c) && MarksOk(c)
    ensures MarksInOrder(c) && c.consumedBytes <= c.sentBytes
  {
    BytesWhole(c.wire);
    BytesGrow(c.wire, c.consumedSeq, |c.wire|);
    forall i | 0 <= i < |c.outstanding| ensures c.outstanding[i].seqNo == c.consumedSeq + 1 + i { assert MarkAt(c, i); }
    forall i: nat, j: nat ensures MarkPair(c, i, j) { MarkPairs(c, i, j); }
    if c.outstanding != [] { assert MarkAt(c, |c.outstanding| - 1); }
  }

  /**
   * Credit safety: however the client behaves, the server never sends more than it was granted, never accepts a grant
   * wider than the window, and its record of unconsumed frames is exact and bounded.
   */
  lemma {:induction false} CreditSafe(z: Config, creditBytes: nat, ops: seq<Op>)
    requires creditBytes <= z.window
    ensures var c := Run(z, Opened(creditBytes), ops);
      c.phase != Closed ==>
        && c.consumedBytes <= c.sentBytes <= c.creditBytes <= c.consumedBytes + z.window
        && |c.outstanding| <= z.maxOutstanding
        && MarksInOrder(c)
  {
    OpenedValid(z, creditBytes);
    RunKeeps(z, Opened(creditBytes), ops);
    var c := Run(z, Opened(creditBytes), ops);
    if c.phase != Closed { MarksAreInOrder(c); }
  }

  // ------------------------------------------------------------------ order

  function Waiting(items: seq<Item>): seq<seq<Byte>> {
    if items == [] then [] else [items[0].payload] + Waiting(items[1..])
  }

  /** What was sent, in the order of its numbers, followed by what waits. */
  function Stream(c: Conn): seq<seq<Byte>> { Payloads(c.wire) + Waiting(c.pendingOut) }

  lemma {:induction false} WaitingAppend(items: seq<Item>, item: Item)
    ensures Waiting(items + [item]) == Waiting(items) + [item.payload]
    decreases |items|
  {
    if items == [] {
      assert (items + [item])[1..] == [];
    } else {
      assert (items + [item])[1..] == items[1..] + [item];
      WaitingAppend(items[1..], item);
    }
  }

  lemma {:induction false} SendStream(z: Config, c: Conn)
    requires c.pendingOut != []
    ensures Stream(SendFirst(z, c)) == Stream(c)
  {
    var s := SendFirst(z, c);
    assert s.wire[..|c.wire|] == c.wire;
    assert Payloads(s.wire) == Payloads(c.wire) + [c.pendingOut[0].payload];
    assert Payloads(c.wire) + [c.pendingOut[0].payload] + Waiting(s.pendingOut)
        == Payloads(c.wire) + ([c.pendingOut[0].payload] + Waiting(s.pendingOut));
  }

  lemma {:induction false} FlushStream(z: Config, c: Conn)
    requires RefsOk(c)
    ensures Stream(Flush(z, c)) == Stream(c)
  {
    FlushedStream(z, c);
  }

  lemma {:induction false} FlushedStream(z: Config, c: Conn)
    requires RefsOk(c)
    ensures Stream(Flushed(z, c).0) == Stream(c)
    decreases |c.pendingOut|
  {
    if c.pendingOut != [] && CanSend(z, c, |c.pendingOut[0].payload|) {
      FirstIsLive(c);
      if c.outSeq + 1 < U48_MAX && c.wsOpen && Room(z, c, |c.pendingOut[0].payload|) {
        SendStream(z, c);
        SendRefs(z, c);
        FlushedStream(z, SendFirst(z, c));
      }
    }
  }

  /** The worker's payload joins the stream unless output is being discarded or there is no memory for it. */
  function Joins(c: Conn, op: Op): seq<seq<Byte>> {
    if op.DoOutput? && !c.discard && c.phase != Closed && op.granted then [op.payload] else []
  }

  /** Operations that give up what waits. */
  predicate GivesUp(c: Conn, op: Op) {
    op.DoFinalExit? || op.DoClose? || op.DoControl?
  }

  lemma {:induction false} OutputStream(z: Config, c: Conn, payload: seq<Byte>)
    requires Valid(z, c) && c.phase != Closed && !c.discard
    ensures Stream(Output(z, c, payload, true)) == Stream(c) + [payload]
  {
    var d := Enqueued(c, payload);
    EnqueueKeeps(z, c, payload);
    FlushStream(z, d);
    WaitingAppend(c.pendingOut, Item(payload, c.nextLease));
    assert Payloads(c.wire) + (Waiting(c.pendingOut) + [payload]) ==
        Payloads(c.wire) + Waiting(c.pendingOut) + [payload];
  }

  lemma {:induction false} CreditStream(z: Config, c: Conn, consumedSeq: int, creditBytes: int)
    requires Valid(z, c)
    ensures Stream(Credit(z, c, consumedSeq, creditBytes)) == Stream(c)
  {
    if c.phase == Active && !CreditViolates(z, c, consumedSeq, creditBytes) {
      AcknowledgedKeeps(z, c, consumedSeq);
      SameLedger(z, Acknowledged(c, consumedSeq), Acknowledged(c, consumedSeq).(creditBytes := creditBytes));
      FlushStream(z, Acknowledged(c, consumedSeq).(creditBytes := creditBytes));
    }
  }

  lemma {:induction false} RelievedStream(z: Config, c: Conn)
    requires RefsOk(c)
    ensures Stream(Relieved(z, c)) == Stream(c)
  {
    assert RefsOk(c.(congested := false)) by {
      forall id: nat ensures RefAt(c.(congested := false), id) { assert RefAt(c, id); }
    }
    FlushStream(z, c.(congested := false));
  }

  /** No operation reorders, repeats or loses output; only the ones that end the session cut what still waits. */
  lemma {:induction false} LosslessOrder(z: Config, c: Conn, op: Op)
    requires Valid(z, c)
    ensures !GivesUp(c, op) ==> Stream(Do(z, c, op)) == Stream(c) + Joins(c, op)
    ensures GivesUp(c, op) ==> Stream(Do(z, c, op)) == Stream(c) || Stream(Do(z, c, op)) == Payloads(c.wire)
  {
    assert Stream(c) + [] == Stream(c);
    assert Payloads(c.wire) + [] == Payloads(c.wire);
    match op
    case DoOutput(payload, granted) =>
      if Joins(c, op) != [] { OutputStream(z, c, payload); }
    case DoCredit(consumedSeq, creditBytes) => CreditStream(z, c, consumedSeq, creditBytes);
    case DoSettle =>
      if c.inflight != [] {
        CalledBackKeeps(z, c);
        RelievedStream(z, CalledBack(c));
      }
    case DoDrain => RelievedStream(z, c);
    case _ =>
  }

  // ------------------------------------------------------------------ memory

  predicate TornDown(z: Config, c: Conn, op: Op) {
    || op.DoClose?
    || (op.DoFinalExit? && !c.exited)
    || (op.DoControl? && c.phase != Closed && !(c.wsOpen
        && Total(c.inflight) + op.n + 10 <= z.sendQueue + z.controlReserve))
  }

  /** What each operation does to the references: one more payload, one write called back, or everything given up. */
  function RefsAfter(z: Config, c: Conn, op: Op): map<nat, nat> {
    if Joins(c, op) != [] then c.refs[c.nextLease := 1]
    else if op.DoSettle? && c.inflight != [] && c.inflight[0].lease.Some? then Drop(c.refs, c.inflight[0].lease.value)
    else if TornDown(z, c, op) then DropAll(c.refs, c.pendingOut)
    else c.refs
  }

  lemma {:induction false} OutputRefs(z: Config, c: Conn, payload: seq<Byte>)
    requires Valid(z, c) && !c.discard && c.phase != Closed
    ensures var d := Output(z, c, payload, true);
      d.refs == c.refs[c.nextLease := 1] && d.nextLease == c.nextLease + 1
  {
    EnqueueKeeps(z, c, payload);
    FlushKeeps(z, Enqueued(c, payload));
  }

  lemma {:induction false} CreditRefs(z: Config, c: Conn, consumedSeq: int, creditBytes: int)
    requires Valid(z, c)
    ensures var d := Credit(z, c, consumedSeq, creditBytes); d.refs == c.refs && d.nextLease == c.nextLease
  {
    if c.phase == Active && !CreditViolates(z, c, consumedSeq, creditBytes) {
      AcknowledgedKeeps(z, c, consumedSeq);
      var d := Acknowledged(c, consumedSeq);
      SameLedger(z, d, d.(creditBytes := creditBytes));
      FlushKeeps(z, d.(creditBytes := creditBytes));
    }
  }

  lemma {:induction false} SettledRefs(z: Config, c: Conn)
    requires Valid(z, c) && c.inflight != []
    ensures Settled(z, c).refs == CalledBack(c).refs && Settled(z, c).nextLease == c.nextLease
  {
    CalledBackKeeps(z, c);
    RelievedKeeps(z, CalledBack(c));
  }

  lemma {:induction false} PlainRefs(z: Config, c: Conn, op: Op)
    requires op.DoControl? || op.DoEnd? || op.DoClosing? || op.DoFinalExit? || op.DoClose?
    ensures Do(z, c, op).refs == RefsAfter(z, c, op) && Do(z, c, op).nextLease == c.nextLease
  {}

  lemma {:induction false} RefusedRefs(z: Config, c: Conn, payload: seq<Byte>, granted: bool)
    requires Joins(c, DoOutput(payload, granted)) == []
    ensures Output(z, c, payload, granted).refs == c.refs && Output(z, c, payload, granted).nextLease == c.nextLease
  {}

  lemma {:induction false} RefsFollow(z: Config, c: Conn, op: Op)
    requires Valid(z, c)
    ensures Do(z, c, op).refs == RefsAfter(z, c, op)
    ensures Do(z, c, op).nextLease == c.nextLease + if Joins(c, op) != [] then 1 else 0
  {
    hide Valid, Flush, Output, Credit, Relieved, Settled, Control, Closing, Close, FinalExit, DropAll;
    match op
    case DoOutput(payload, granted) =>
      if Joins(c, op) != [] { OutputRefs(z, c, payload); } else { RefusedRefs(z, c, payload, granted); }
    case DoCredit(consumedSeq, creditBytes) => CreditRefs(z, c, consumedSeq, creditBytes);
    case DoSettle => if c.inflight != [] { SettledRefs(z, c); } else { NothingSettled(z, c); }
    case DoDrain => RelievedKeeps(z, c);
    case _ => PlainRefs(z, c, op);
  }

  lemma {:induction false} NothingSettled(z: Config, c: Conn)
    requires c.inflight == []
    ensures Settled(z, c) == c
  {}

  lemma {:induction false} GivenUpExactly(c: Conn, id: nat)
    requires RefsOk(c)
    ensures id in DropAll(c.refs, c.pendingOut) <==> id in c.refs && InItems(c.pendingOut, id) == 0
  {
    forall i: nat ensures i in c.refs ==> c.refs[i] == 1 { assert RefAt(c, i); }
    forall i: nat ensures InItems(c.pendingOut, i) <= RefOf(c.refs, i) { assert RefAt(c, i); }
    DropAllCounts(c.refs, c.pendingOut, id);
    assert RefAt(c, id);
  }

  /**
   * The memory of a payload is returned exactly when the callback of its write fires, or, if it was never written, when
   * the session gives up what waits; and its name is never used for memory again.
   */
  lemma {:induction false} ReturnedByCallback(z: Config, c: Conn, op: Op, id: nat)
    requires Valid(z, c) && id < c.nextLease
    ensures id in c.refs ==>
      (id !in Do(z, c, op).refs <==>
        || (op.DoSettle? && c.inflight != [] && c.inflight[0].lease == Some(id))
        || (TornDown(z, c, op) && InItems(c.pendingOut, id) == 1))
    ensures id !in c.refs ==> id !in Do(z, c, op).refs
    ensures id < Do(z, c, op).nextLease
  {
    RefsFollow(z, c, op);
    assert RefAt(c, id);
    GivenUpExactly(c, id);
    if op.DoSettle? && c.inflight != [] && c.inflight[0].lease.Some? { assert RefAt(c, c.inflight[0].lease.value); }
  }
}
