/** What every operation of a connection's outbound half keeps. */
module CreditSafety {
  // Whatever the client sends as credit: the byte credit and the window, the record of what is outstanding, the order
  // of the output, and one memory reference for each place a payload is held.

  import opened Common
  import opened CreditModel

  // ------------------------------------------------------------------ bytes on the wire

  lemma {:induction false} BytesPush(frames: seq<Frame>, f: Frame)
    ensures Bytes(frames + [f]) == Bytes(frames) + |f.payload|
  {
    assert (frames + [f])[..|frames|] == frames;
  }

  lemma {:induction false} BytesGrow(frames: seq<Frame>, i: nat, j: nat)
    requires i <= j <= |frames|
    ensures Bytes(frames[..i]) <= Bytes(frames[..j])
    decreases j
  {
    if i < j {
      assert frames[..j][..j - 1] == frames[..j - 1];
      BytesGrow(frames, i, j - 1);
    }
  }

  lemma {:induction false} BytesWhole(frames: seq<Frame>)
    ensures frames[..|frames|] == frames
  {}

  // ------------------------------------------------------------------ the invariant

  ghost predicate NumberAt(c: Conn, i: nat) { i < |c.wire| ==> c.wire[i].seqNo == i + 1 }

  ghost predicate WireOk(c: Conn) {
    && |c.wire| == c.outSeq
    && (forall i: nat :: NumberAt(c, i))
    && c.sentBytes == Bytes(c.wire)
  }

  ghost predicate MarkAt(c: Conn, i: nat) {
    i < |c.outstanding| && c.consumedSeq + 1 + i <= |c.wire| ==>
      c.outstanding[i] == Mark(c.consumedSeq + 1 + i, Bytes(c.wire[..c.consumedSeq + 1 + i]))
  }

  /** `outstanding` is exactly the frames consumedSeq+1 .. outSeq, each with the bytes sent up to it. */
  ghost predicate MarksOk(c: Conn) {
    && c.consumedSeq + |c.outstanding| == c.outSeq == |c.wire|
    && (forall i: nat :: MarkAt(c, i))
    && c.consumedBytes == Bytes(c.wire[..c.consumedSeq])
  }

  predicate CreditOk(z: Config, c: Conn) {
    && c.sentBytes <= c.creditBytes <= c.consumedBytes + z.window
    && |c.outstanding| <= z.maxOutstanding
  }

  function InItems(items: seq<Item>, id: nat): nat {
    if items == [] then 0 else (if items[0].lease == id then 1 else 0) + InItems(items[1..], id)
  }

  function InFlights(flights: seq<Flight>, id: nat): nat {
    if flights == [] then 0 else (if flights[0].lease == Some(id) then 1 else 0) + InFlights(flights[1..], id)
  }

  function RefOf(refs: map<nat, nat>, id: nat): nat { if id in refs then refs[id] else 0 }

  /** The lease of a payload has one reference while the payload waits or its write is in flight, and none after. */
  ghost predicate RefAt(c: Conn, id: nat) {
    && RefOf(c.refs, id) == InItems(c.pendingOut, id) + InFlights(c.inflight, id) <= 1
    && (id in c.refs ==> c.refs[id] == 1 && id < c.nextLease)
  }

  ghost predicate RefsOk(c: Conn) { forall id: nat :: RefAt(c, id) }

  ghost predicate Valid(z: Config, c: Conn) {
    && WireOk(c)
    && RefsOk(c)
    && (c.phase != Closed ==> MarksOk(c) && CreditOk(z, c))
  }

  // ------------------------------------------------------------------ references

  lemma {:induction false} ItemsAppend(items: seq<Item>, item: Item, id: nat)
    ensures InItems(items + [item], id) == InItems(items, id) + if item.lease == id then 1 else 0
    decreases |items|
  {
    if items != [] {
      assert (items + [item])[1..] == items[1..] + [item];
      ItemsAppend(items[1..], item, id);
    } else {
      assert (items + [item])[1..] == [];
    }
  }

  lemma {:induction false} FlightsAppend(flights: seq<Flight>, f: Flight, id: nat)
    ensures InFlights(flights + [f], id) == InFlights(flights, id) + if f.lease == Some(id) then 1 else 0
    decreases |flights|
  {
    if flights != [] {
      assert (flights + [f])[1..] == flights[1..] + [f];
      FlightsAppend(flights[1..], f, id);
    } else {
      assert (flights + [f])[1..] == [];
    }
  }

  lemma {:induction false} DropAllCounts(refs: map<nat, nat>, items: seq<Item>, id: nat)
    requires forall i: nat :: i in refs ==> refs[i] == 1
    requires forall i: nat :: InItems(items, i) <= RefOf(refs, i)
    ensures RefOf(DropAll(refs, items), id) == RefOf(refs, id) - InItems(items, id)
    ensures forall i: nat :: i in DropAll(refs, items) ==> i in refs && DropAll(refs, items)[i] == 1
    decreases |items|
  {
    if items != [] {
      var next := Drop(refs, items[0].lease);
      forall i: nat ensures InItems(items[1..], i) <= RefOf(next, i) { assert InItems(items, i) <= RefOf(refs, i); }
      DropAllCounts(next, items[1..], id);
    }
  }

  // ------------------------------------------------------------------ sending one payload

  lemma {:induction false} SendWire(z: Config, c: Conn)
    requires WireOk(c) && c.pendingOut != []
    ensures WireOk(SendFirst(z, c))
  {
    var item := c.pendingOut[0];
    var s := SendFirst(z, c);
    BytesPush(c.wire, Frame(c.outSeq + 1, item.payload));
    forall i: nat ensures NumberAt(s, i) { assert NumberAt(c, i); }
  }

  lemma {:induction false} SendMarks(z: Config, c: Conn)
    requires WireOk(c) && MarksOk(c) && c.pendingOut != []
    ensures MarksOk(SendFirst(z, c))
  {
    var s := SendFirst(z, c);
    SendWire(z, c);
    BytesWhole(s.wire);
    assert s.wire[..c.consumedSeq] == c.wire[..c.consumedSeq];
    forall i: nat ensures MarkAt(s, i) {
      assert MarkAt(c, i);
      if i < |c.outstanding| { assert s.wire[..c.consumedSeq + 1 + i] == c.wire[..c.consumedSeq + 1 + i]; }
    }
  }

  lemma {:induction false} SendRefs(z: Config, c: Conn)
    requires RefsOk(c) && c.pendingOut != []
    ensures RefsOk(SendFirst(z, c))
    ensures SendFirst(z, c).refs == c.refs
  {
    var item := c.pendingOut[0];
    var s := SendFirst(z, c);
    assert RefAt(c, item.lease);
    assert s.refs == c.refs;
    forall id: nat ensures RefAt(s, id) {
      assert RefAt(c, id);
      FlightsAppend(c.inflight, s.inflight[|c.inflight|], id);
    }
  }

  lemma {:induction false} SendKeeps(z: Config, c: Conn)
    requires Valid(z, c) && c.phase != Closed && c.pendingOut != [] && CanSend(z, c, |c.pendingOut[0].payload|)
    ensures Valid(z, SendFirst(z, c))
  {
    SendWire(z, c);
    SendMarks(z, c);
    SendRefs(z, c);
  }

  /** In a reachable state the lease of the first waiting payload is live: the branch that drops output is dead. */
  lemma {:induction false} FirstIsLive(c: Conn)
    requires RefsOk(c) && c.pendingOut != []
    ensures c.pendingOut[0].lease in c.refs
  {
    assert RefAt(c, c.pendingOut[0].lease);
  }

  lemma {:induction false} EndKeeps(z: Config, c: Conn)
    requires Valid(z, c)
    ensures Valid(z, End(c))
  {
    SameLedger(z, c, End(c));
  }

  /** The invariant does not look at the flags, nor does it matter to it when credit is higher but in the window. */
  lemma {:induction false} SameLedger(z: Config, c: Conn, d: Conn)
    requires Valid(z, c)
    requires d.wire == c.wire && d.outSeq == c.outSeq && d.sentBytes == c.sentBytes
    requires d.consumedSeq == c.consumedSeq && d.consumedBytes == c.consumedBytes && d.outstanding == c.outstanding
    requires d.pendingOut == c.pendingOut && d.inflight == c.inflight && d.refs == c.refs && d.nextLease == c.nextLease
    requires d.phase != Closed ==> c.phase != Closed && c.creditBytes <= d.creditBytes <= d.consumedBytes + z.window
    ensures Valid(z, d)
  {
    forall i: nat ensures NumberAt(d, i) { assert NumberAt(c, i); }
    forall id: nat ensures RefAt(d, id) { assert RefAt(c, id); }
    if d.phase != Closed {
      forall i: nat ensures MarkAt(d, i) { assert MarkAt(c, i); }
    }
  }

  lemma {:induction false} FlushedKeeps(z: Config, c: Conn)
    requires Valid(z, c) && c.phase != Closed
    ensures Valid(z, Flushed(z, c).0) && Flushed(z, c).0.phase != Closed
    ensures Flushed(z, c).0.refs == c.refs && Flushed(z, c).0.nextLease == c.nextLease
    decreases |c.pendingOut|
  {
    if c.pendingOut != [] && CanSend(z, c, |c.pendingOut[0].payload|) {
      FirstIsLive(c);
      if c.outSeq + 1 >= U48_MAX {
        EndKeeps(z, c);
      } else if c.wsOpen {
        if Room(z, c, |c.pendingOut[0].payload|) {
          SendKeeps(z, c);
          SendRefs(z, c);
          FlushedKeeps(z, SendFirst(z, c));
        } else {
          SameLedger(z, c, c.(congested := true));
        }
      }
    }
  }

  lemma {:induction false} FlushKeeps(z: Config, c: Conn)
    requires Valid(z, c) && c.phase != Closed
    ensures Valid(z, Flush(z, c)) && Flush(z, c).phase != Closed
    ensures Flush(z, c).refs == c.refs && Flush(z, c).nextLease == c.nextLease
  {
    FlushedKeeps(z, c);
    var (f, ok) := Flushed(z, c);
    if ok { SameLedger(z, f, Flow(f)); }
  }

  // ------------------------------------------------------------------ operations

  lemma {:induction false} EnqueueKeeps(z: Config, c: Conn, payload: seq<Byte>)
    requires Valid(z, c)
    ensures Valid(z, Enqueued(c, payload))
  {
    var d := Enqueued(c, payload);
    forall i: nat ensures NumberAt(d, i) { assert NumberAt(c, i); }
    forall id: nat ensures RefAt(d, id) {
      assert RefAt(c, id);
      ItemsAppend(c.pendingOut, Item(payload, c.nextLease), id);
    }
    if d.phase != Closed {
      forall i: nat ensures MarkAt(d, i) { assert MarkAt(c, i); }
    }
  }

  lemma {:induction false} CutKeeps(z: Config, c: Conn, cut: nat, reported: nat)
    requires Valid(z, c)
    ensures Valid(z, Cut(c, cut, reported))
  {
    SameLedger(z, c, Cut(c, cut, reported));
  }

  lemma {:induction false} OutputKeeps(z: Config, c: Conn, payload: seq<Byte>, granted: bool)
    requires Valid(z, c)
    ensures Valid(z, Output(z, c, payload, granted))
  {
    if c.discard || c.phase == Closed {
      CutKeeps(z, c, |payload|, |payload|);
    } else if granted {
      EnqueueKeeps(z, c, payload);
      FlushKeeps(z, Enqueued(c, payload));
    } else {
      CutKeeps(z, c, |payload|, 0);
      EndKeeps(z, Cut(c, |payload|, 0));
    }
  }

  function FirstConsumed(c: Conn): Conn
    requires c.outstanding != []
  {
    c.(outstanding := c.outstanding[1..], consumedSeq := c.consumedSeq + 1, consumedBytes := c.outstanding[0].cum)
  }

  lemma {:induction false} FirstMark(c: Conn)
    requires MarksOk(c) && c.outstanding != []
    ensures MarksOk(FirstConsumed(c))
    ensures c.outstanding[0].seqNo == c.consumedSeq + 1
  {
    var d := FirstConsumed(c);
    assert MarkAt(c, 0);
    forall i: nat ensures MarkAt(d, i) { assert MarkAt(c, i + 1); }
  }

  /**
   * Acknowledging frames removes exactly their marks, and the consumed bytes are then those sent up to the last of
   * them.
   */
  lemma {:induction false} ConsumedMarks(c: Conn, upTo: nat)
    requires MarksOk(c) && c.consumedSeq <= upTo <= c.outSeq
    ensures Consumed(c.outstanding, upTo) == c.outstanding[upTo - c.consumedSeq..]
    ensures ConsumedBytes(c.outstanding, upTo, c.consumedBytes) == Bytes(c.wire[..upTo])
    decreases |c.outstanding|
  {
    if c.outstanding != [] {
      FirstMark(c);
      if c.consumedSeq < upTo {
        ConsumedMarks(FirstConsumed(c), upTo);
        DropMore(c.outstanding, upTo - c.consumedSeq);
      }
    }
  }

  lemma {:induction false} DropMore<T>(s: seq<T>, k: nat)
    requires 0 < k <= |s|
    ensures s[1..][k - 1..] == s[k..]
  {}

  lemma {:induction false} AcknowledgedKeeps(z: Config, c: Conn, upTo: nat)
    requires Valid(z, c) && c.phase != Closed && c.consumedSeq <= upTo <= c.outSeq
    ensures Valid(z, Acknowledged(c, upTo))
  {
    var d := Acknowledged(c, upTo);
    ConsumedMarks(c, upTo);
    BytesGrow(c.wire, c.consumedSeq, upTo);
    forall i: nat ensures NumberAt(d, i) { assert NumberAt(c, i); }
    forall id: nat ensures RefAt(d, id) { assert RefAt(c, id); }
    forall i: nat ensures MarkAt(d, i) { assert MarkAt(c, i + (upTo - c.consumedSeq)); }
  }

  lemma {:induction false} CreditKeeps(z: Config, c: Conn, consumedSeq: int, creditBytes: int)
    requires Valid(z, c)
    ensures Valid(z, Credit(z, c, consumedSeq, creditBytes))
  {
    if c.phase == Active {
      if CreditRefused(c, consumedSeq, creditBytes) {
        EndKeeps(z, c);
      } else {
        AcknowledgedKeeps(z, c, consumedSeq);
        var d := Acknowledged(c, consumedSeq);
        if CreditTooWide(z, c, consumedSeq, creditBytes) {
          EndKeeps(z, d);
        } else {
          SameLedger(z, d, d.(creditBytes := creditBytes));
          FlushKeeps(z, d.(creditBytes := creditBytes));
        }
      }
    }
  }

  lemma {:induction false} RelievedKeeps(z: Config, c: Conn)
    requires Valid(z, c)
    ensures Valid(z, Relieved(z, c)) && Relieved(z, c).refs == c.refs && Relieved(z, c).nextLease == c.nextLease
  {
    SameLedger(z, c, c.(congested := false));
    if c.phase != Closed { FlushKeeps(z, c.(congested := false)); }
  }

  function CalledBack(c: Conn): Conn
    requires c.inflight != []
  {
    var f := c.inflight[0];
    c.(inflight := c.inflight[1..], refs := if f.lease.Some? then Drop(c.refs, f.lease.value) else c.refs)
  }

  lemma {:induction false} CalledBackKeeps(z: Config, c: Conn)
    requires Valid(z, c) && c.inflight != []
    ensures Valid(z, CalledBack(c))
  {
    var d := CalledBack(c);
    forall i: nat ensures NumberAt(d, i) { assert NumberAt(c, i); }
    forall id: nat ensures RefAt(d, id) { assert RefAt(c, id); }
    if d.phase != Closed {
      forall i: nat ensures MarkAt(d, i) { assert MarkAt(c, i); }
    }
  }

  lemma {:induction false} SettledKeeps(z: Config, c: Conn)
    requires Valid(z, c)
    ensures Valid(z, Settled(z, c))
  {
    if c.inflight != [] {
      CalledBackKeeps(z, c);
      RelievedKeeps(z, CalledBack(c));
    }
  }

  /** A write without a lease. */
  lemma {:induction false} WrittenKeeps(z: Config, c: Conn, n: nat)
    requires Valid(z, c)
    ensures Valid(z, Written(z, c, n, None))
  {
    var d := Written(z, c, n, None);
    forall i: nat ensures NumberAt(d, i) { assert NumberAt(c, i); }
    forall id: nat ensures RefAt(d, id) {
      assert RefAt(c, id);
      FlightsAppend(c.inflight, d.inflight[|c.inflight|], id);
    }
    if d.phase != Closed {
      forall i: nat ensures MarkAt(d, i) { assert MarkAt(c, i); }
    }
  }

  lemma {:induction false} GivenUpRefs(c: Conn, d: Conn)
    requires RefsOk(c)
    requires d.pendingOut == [] && d.refs == DropAll(c.refs, c.pendingOut)
    requires d.inflight == c.inflight && d.nextLease == c.nextLease
    ensures RefsOk(d)
  {
    forall i: nat ensures i in c.refs ==> c.refs[i] == 1 { assert RefAt(c, i); }
    forall i: nat ensures InItems(c.pendingOut, i) <= RefOf(c.refs, i) { assert RefAt(c, i); }
    forall id: nat ensures RefAt(d, id) {
      assert RefAt(c, id);
      DropAllCounts(c.refs, c.pendingOut, id);
    }
  }

  lemma {:induction false} CloseKeeps(z: Config, c: Conn)
    requires Valid(z, c)
    ensures Valid(z, Close(c))
  {
    GivenUpRefs(c, Close(c));
    forall i: nat ensures NumberAt(Close(c), i) { assert NumberAt(c, i); }
  }

  lemma {:induction false} FinalExitKeeps(z: Config, c: Conn)
    requires Valid(z, c)
    ensures Valid(z, FinalExit(c))
  {
    var d := FinalExit(c);
    if !c.exited { GivenUpRefs(c, d); }
    forall i: nat ensures NumberAt(d, i) { assert NumberAt(c, i); }
    if d.phase != Closed {
      forall i: nat ensures MarkAt(d, i) { assert MarkAt(c, i); }
    }
  }

  lemma {:induction false} DoKeeps(z: Config, c: Conn, op: Op)
    requires Valid(z, c)
    ensures Valid(z, Do(z, c, op))
  {
    match op
    case DoOutput(payload, granted) => OutputKeeps(z, c, payload, granted);
    case DoCredit(consumedSeq, creditBytes) => CreditKeeps(z, c, consumedSeq, creditBytes);
    case DoSettle => SettledKeeps(z, c);
    case DoDrain => RelievedKeeps(z, c);
    case DoControl(n) =>
      WrittenKeeps(z, c, n);
      CloseKeeps(z, c);
    case DoEnd => EndKeeps(z, c);
    case DoClosing(n) =>
      WrittenKeeps(z, c, n);
      SameLedger(z, Written(z, c, n, None), Written(z, c, n, None).(wsOpen := false));
    case DoFinalExit => FinalExitKeeps(z, c);
    case DoClose => CloseKeeps(z, c);
  }

  lemma {:induction false} RunKeeps(z: Config, c: Conn, ops: seq<Op>)
    requires Valid(z, c)
    ensures Valid(z, Run(z, c, ops))
    decreases |ops|
  {
    if ops != [] {
      DoKeeps(z, c, ops[0]);
      RunKeeps(z, Do(z, c, ops[0]), ops[1..]);
    }
  }

  lemma {:induction false} OpenedValid(z: Config, creditBytes: nat)
    requires creditBytes <= z.window
    ensures Valid(z, Opened(creditBytes))
  {}

  predicate NoneEmpty(frames: seq<Frame>) { forall f :: f in frames ==> f.payload != [] }

  lemma {:induction false} BytesGrowStrictly(frames: seq<Frame>, i: nat, j: nat)
    requires i < j <= |frames| && NoneEmpty(frames)
    ensures Bytes(frames[..i]) < Bytes(frames[..j])
  {
    BytesGrow(frames, i, j - 1);
    assert frames[..j][..j - 1] == frames[..j - 1];
    assert frames[j - 1] in frames;
  }
}
