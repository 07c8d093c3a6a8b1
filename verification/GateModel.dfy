/** The worker's bounded output stage. */
module GateModel {
  // runtime/hermit/worker/output-gate.js. `full(k)` is what the link answers to the k-th chunk handed to it; every
  // theorem holds for every such function. Waiting producers are names; `sent` is the log of what went to the link. A
  // woken producer's own calls are later operations, since the gate has finished when it wakes one.

  import opened Common

  datatype Limits = Limits(chunkBytes: nat, maxPending: nat)

  datatype Chunk = Chunk(data: seq<Byte>, marker: bool)

  datatype Gate = Gate(
    queue: seq<Chunk>, pending: int, remotePaused: bool, sinkFull: bool, dropping: bool,
    waiters: seq<nat>, inflight: nat, sent: seq<Chunk>, woken: seq<nat>, overflows: nat, droppedBytes: nat)

  const START := Gate([], 0, false, false, false, [], 0, [], [], 0, 0)

  predicate Paused(z: Limits, g: Gate) {
    g.remotePaused || g.sinkFull || g.pending > z.chunkBytes * 4 || 2 * g.inflight > z.maxPending
  }

  function Size(queue: seq<Chunk>): nat { if queue == [] then 0 else |queue[0].data| + Size(queue[1..]) }

  function Plain(queue: seq<Chunk>): nat {
    if queue == [] then 0 else (if queue[0].marker then 0 else |queue[0].data|) + Plain(queue[1..])
  }

  function Flat(queue: seq<Chunk>): seq<Byte> { if queue == [] then [] else queue[0].data + Flat(queue[1..]) }

  /** A large write is cut into chunks; an empty one leaves none. */
  function Cut(data: seq<Byte>, chunkBytes: nat): seq<Chunk>
    requires chunkBytes > 0
  {
    if data == [] then []
    else if |data| <= chunkBytes then [Chunk(data, false)]
    else [Chunk(data[..chunkBytes], false)] + Cut(data[chunkBytes..], chunkBytes)
  }

  function Shift(g: Gate, full: nat -> bool): Gate
    requires g.queue != []
  {
    var c := g.queue[0];
    g.(queue := g.queue[1..], pending := g.pending - |c.data|, inflight := g.inflight + |c.data|,
       sent := g.sent + [c], sinkFull := g.sinkFull || full(|g.sent|))
  }

  /** At least one chunk goes out whenever nothing blocks the link. */
  function Pumped(z: Limits, g: Gate, full: nat -> bool): Gate
    decreases |g.queue|
  {
    if g.queue == [] || g.remotePaused || g.sinkFull then g
    else
      var g1 := Shift(g, full);
      if 2 * g1.inflight > z.maxPending then g1 else Pumped(z, g1, full)
  }

  function Wake(z: Limits, g: Gate): Gate {
    if !Paused(z, g) then g.(woken := g.woken + g.waiters, waiters := []) else g
  }

  function Pump(z: Limits, g: Gate, full: nat -> bool): Gate { Wake(z, Pumped(z, g, full)) }

  predicate Overflows(z: Limits, g: Gate, data: seq<Byte>) { g.pending + |data| > z.maxPending }

  /** An accepted write as chunks; in place of a refused one the gap marker, and nothing more until cleared. */
  function Enqueue(z: Limits, g: Gate, data: seq<Byte>, marker: seq<Byte>): Gate
    requires z.chunkBytes > 0
  {
    if Overflows(z, g, data) then
      g.(overflows := g.overflows + 1, droppedBytes := g.droppedBytes + |data|, dropping := true,
         queue := g.queue + [Chunk(marker, true)], pending := g.pending + |marker|)
    else
      g.(queue := g.queue + Cut(data, z.chunkBytes), pending := g.pending + |data|)
  }

  function Write(z: Limits, g: Gate, data: seq<Byte>, marker: seq<Byte>, full: nat -> bool): Gate
    requires z.chunkBytes > 0
  {
    if g.dropping then g.(droppedBytes := g.droppedBytes + |data|) else Pump(z, Enqueue(z, g, data, marker), full)
  }

  function Consumed(z: Limits, g: Gate, n: nat, full: nat -> bool): Gate {
    Pump(z, g.(inflight := if n > g.inflight then 0 else g.inflight - n), full)
  }

  function SetRemotePaused(z: Limits, g: Gate, paused: bool, full: nat -> bool): Gate {
    var g1 := g.(remotePaused := paused);
    if paused then g1 else Pump(z, g1, full)
  }

  function SinkDrained(z: Limits, g: Gate, full: nat -> bool): Gate { Pump(z, g.(sinkFull := false), full) }

  function OnDrain(z: Limits, g: Gate, who: nat): Gate {
    if !Paused(z, g) then g.(woken := g.woken + [who]) else g.(waiters := g.waiters + [who])
  }

  function ClearOverflow(g: Gate): Gate { g.(dropping := false) }

  datatype Op =
    | DoWrite(data: seq<Byte>, marker: seq<Byte>)
    | DoConsumed(n: nat)
    | DoSetRemotePaused(paused: bool)
    | DoSinkDrained
    | DoOnDrain(who: nat)
    | DoClearOverflow

  function Do(z: Limits, g: Gate, op: Op, full: nat -> bool): Gate
    requires z.chunkBytes > 0
  {
    match op
    case DoWrite(data, marker) => Write(z, g, data, marker, full)
    case DoConsumed(n) => Consumed(z, g, n, full)
    case DoSetRemotePaused(paused) => SetRemotePaused(z, g, paused, full)
    case DoSinkDrained => SinkDrained(z, g, full)
    case DoOnDrain(who) => OnDrain(z, g, who)
    case DoClearOverflow => ClearOverflow(g)
  }

  function Run(z: Limits, g: Gate, ops: seq<Op>, full: nat -> bool): Gate
    requires z.chunkBytes > 0
    decreases |ops|
  {
    if ops == [] then g else Run(z, Do(z, g, ops[0], full), ops[1..], full)
  }

  // ------------------------------------------------------------------ what is promised

  /** What has left for the link, followed by what waits. */
  function Output(g: Gate): seq<Byte> { Flat(g.sent) + Flat(g.queue) }

  /**
   * What an operation adds to the terminal's stream: a write that fits beside the queued bytes, or the gap marker of
   * one that does not.
   */
  function Contribution(z: Limits, g: Gate, op: Op): seq<Byte> {
    if !op.DoWrite? || g.dropping then []
    else if Size(g.queue) + |op.data| <= z.maxPending then op.data
    else op.marker
  }

  /** The bytes of a write that are counted as dropped. */
  function Lost(z: Limits, g: Gate, op: Op): nat {
    if op.DoWrite? && (g.dropping || Size(g.queue) + |op.data| > z.maxPending) then |op.data| else 0
  }

  /** Whatever waits, waits for somebody who will pump: the gateway, the link, or the report of consumption. */
  predicate WaitsForSomeone(z: Limits, g: Gate) {
    g.queue != [] ==> g.remotePaused || g.sinkFull || 2 * g.inflight > z.maxPending
  }

  predicate Valid(z: Limits, g: Gate) {
    && g.pending == Size(g.queue)
    && Plain(g.queue) <= z.maxPending
    && WaitsForSomeone(z, g)
    && (g.waiters != [] ==> Paused(z, g))
  }

  // ------------------------------------------------------------------ queues

  lemma {:induction false} SizeAppend(a: seq<Chunk>, b: seq<Chunk>)
    ensures Size(a + b) == Size(a) + Size(b) && Plain(a + b) == Plain(a) + Plain(b)
    ensures Flat(a + b) == Flat(a) + Flat(b)
    decreases |a|
  {
    if a == [] {
      assert a + b == b;
    } else {
      assert (a + b)[1..] == a[1..] + b;
      SizeAppend(a[1..], b);
    }
  }

  lemma {:induction false} PlainWithinSize(a: seq<Chunk>)
    ensures Plain(a) <= Size(a)
    decreases |a|
  {
    if a != [] { PlainWithinSize(a[1..]); }
  }

  lemma {:induction false} SizeIsLength(a: seq<Chunk>)
    ensures Size(a) == |Flat(a)|
    decreases |a|
  {
    if a != [] { SizeIsLength(a[1..]); }
  }

  lemma {:induction false} CutKeeps(data: seq<Byte>, chunkBytes: nat)
    requires chunkBytes > 0
    ensures Flat(Cut(data, chunkBytes)) == data
    ensures Size(Cut(data, chunkBytes)) == |data| && Plain(Cut(data, chunkBytes)) == |data|
    ensures forall c :: c in Cut(data, chunkBytes) ==> 0 < |c.data| <= chunkBytes && !c.marker
    decreases |data|
  {
    var cut := Cut(data, chunkBytes);
    if |data| > chunkBytes {
      CutKeeps(data[chunkBytes..], chunkBytes);
      assert cut[1..] == Cut(data[chunkBytes..], chunkBytes);
      assert data == data[..chunkBytes] + data[chunkBytes..];
      forall c | c in cut ensures 0 < |c.data| <= chunkBytes && !c.marker {
        if c != cut[0] { assert c in cut[1..]; }
      }
    } else if data != [] {
      assert cut[1..] == [];
      assert Flat(cut) == data + [];
    }
  }

  // ------------------------------------------------------------------ pumping

  /** Pumping moves bytes to the link in order and neither makes nor loses any. */
  lemma {:induction false} PumpedMoves(z: Limits, g: Gate, full: nat -> bool)
    requires g.pending == Size(g.queue)
    ensures var p := Pumped(z, g, full);
      && Output(p) == Output(g)
      && p.pending == Size(p.queue) && Plain(p.queue) <= Plain(g.queue)
      && WaitsForSomeone(z, p)
      && p.dropping == g.dropping && p.droppedBytes == g.droppedBytes && p.waiters == g.waiters && p.woken == g.woken
      && p.remotePaused == g.remotePaused && p.overflows == g.overflows
      && p.inflight + Size(p.queue) == g.inflight + Size(g.queue)
    decreases |g.queue|
  {
    if !(g.queue == [] || g.remotePaused || g.sinkFull) {
      var g1 := Shift(g, full);
      ShiftMoves(g, full);
      if 2 * g1.inflight <= z.maxPending { PumpedMoves(z, g1, full); }
    }
  }

  lemma {:induction false} ShiftMoves(g: Gate, full: nat -> bool)
    requires g.queue != [] && g.pending == Size(g.queue)
    ensures Output(Shift(g, full)) == Output(g)
    ensures Shift(g, full).pending == Size(g.queue[1..]) && Plain(g.queue[1..]) <= Plain(g.queue)
  {
    SizeAppend(g.sent, [g.queue[0]]);
    assert [g.queue[0]][1..] == [];
    assert Flat([g.queue[0]]) == g.queue[0].data + [];
    assert Flat(g.sent) + g.queue[0].data + Flat(g.queue[1..]) == Flat(g.sent) + (g.queue[0].data + Flat(g.queue[1..]));
  }

  lemma {:induction false} PumpKeeps(z: Limits, g: Gate, full: nat -> bool)
    requires g.pending == Size(g.queue) && Plain(g.queue) <= z.maxPending
    ensures Valid(z, Pump(z, g, full)) && Output(Pump(z, g, full)) == Output(g)
    ensures Pump(z, g, full).droppedBytes == g.droppedBytes && Pump(z, g, full).dropping == g.dropping
  {
    PumpedMoves(z, g, full);
  }

  // ------------------------------------------------------------------ every operation

  lemma {:induction false} EnqueueKeeps(z: Limits, g: Gate, data: seq<Byte>, marker: seq<Byte>)
    requires z.chunkBytes > 0 && g.pending == Size(g.queue) && Plain(g.queue) <= z.maxPending && !g.dropping
    ensures var op, e := DoWrite(data, marker), Enqueue(z, g, data, marker);
      && e.pending == Size(e.queue) && Plain(e.queue) <= z.maxPending
      && Output(e) == Output(g) + Contribution(z, g, op)
      && e.droppedBytes == g.droppedBytes + Lost(z, g, op)
  {
    PlainWithinSize(g.queue);
    if Overflows(z, g, data) {
      Queued(g, [Chunk(marker, true)]);
      assert [Chunk(marker, true)][1..] == [];
      assert Flat([Chunk(marker, true)]) == marker + [];
    } else {
      Queued(g, Cut(data, z.chunkBytes));
      CutKeeps(data, z.chunkBytes);
    }
  }

  lemma {:induction false} Queued(g: Gate, more: seq<Chunk>)
    ensures Size(g.queue + more) == Size(g.queue) + Size(more) && Plain(g.queue + more) == Plain(g.queue) + Plain(more)
    ensures Flat(g.sent) + Flat(g.queue + more) == Output(g) + Flat(more)
  {
    SizeAppend(g.queue, more);
    assert Flat(g.sent) + (Flat(g.queue) + Flat(more)) == Flat(g.sent) + Flat(g.queue) + Flat(more);
  }

  /**
   * In any state and for any operation: the stream grows by exactly the accepted write or the gap marker, every other
   * byte is counted as dropped, the queue stays within its bound, nothing that waits is forgotten, and no producer
   * sleeps while the gate is open.
   */
  lemma {:induction false} DoKeeps(z: Limits, g: Gate, op: Op, full: nat -> bool)
    requires z.chunkBytes > 0 && Valid(z, g)
    ensures Valid(z, Do(z, g, op, full))
    ensures Output(Do(z, g, op, full)) == Output(g) + Contribution(z, g, op)
    ensures Do(z, g, op, full).droppedBytes == g.droppedBytes + Lost(z, g, op)
  {
    assert Output(g) + [] == Output(g);
    match op
    case DoWrite(data, marker) =>
      if !g.dropping {
        EnqueueKeeps(z, g, data, marker);
        PumpKeeps(z, Enqueue(z, g, data, marker), full);
      }
    case DoConsumed(n) => PumpKeeps(z, g.(inflight := if n > g.inflight then 0 else g.inflight - n), full);
    case DoSetRemotePaused(paused) =>
      if !paused { PumpKeeps(z, g.(remotePaused := paused), full); }
    case DoSinkDrained => PumpKeeps(z, g.(sinkFull := false), full);
    case _ =>
  }

  function Accepted(z: Limits, g: Gate, ops: seq<Op>, full: nat -> bool): seq<Byte>
    requires z.chunkBytes > 0
    decreases |ops|
  {
    if ops == [] then []
    else Contribution(z, g, ops[0]) + Accepted(z, Do(z, g, ops[0], full), ops[1..], full)
  }

  function AllLost(z: Limits, g: Gate, ops: seq<Op>, full: nat -> bool): nat
    requires z.chunkBytes > 0
    decreases |ops|
  {
    if ops == [] then 0 else Lost(z, g, ops[0]) + AllLost(z, Do(z, g, ops[0], full), ops[1..], full)
  }

  lemma {:induction false} Associates<T>(a: seq<T>, b: seq<T>, c: seq<T>)
    ensures a + b + c == a + (b + c)
  {}

  /** Over any run: what was sent followed by what is queued is what was accepted, in order; the rest is counted. */
  lemma {:induction false} RunIsLossless(z: Limits, g: Gate, ops: seq<Op>, full: nat -> bool)
    requires z.chunkBytes > 0 && Valid(z, g)
    ensures Valid(z, Run(z, g, ops, full))
    ensures Output(Run(z, g, ops, full)) == Output(g) + Accepted(z, g, ops, full)
    ensures Run(z, g, ops, full).droppedBytes == g.droppedBytes + AllLost(z, g, ops, full)
    decreases |ops|
  {
    if ops == [] {
      assert Output(g) + [] == Output(g);
    } else {
      var g1 := Do(z, g, ops[0], full);
      DoKeeps(z, g, ops[0], full);
      RunIsLossless(z, g1, ops[1..], full);
      Associates(Output(g), Contribution(z, g, ops[0]), Accepted(z, g1, ops[1..], full));
    }
  }

  // ------------------------------------------------------------------ one write, one pump, one producer

  /**
   * What becomes of a write is decided by the bytes that are queued. While the gate drops, the bytes are only counted;
   * a write that fits goes behind everything written before it and nothing else is counted; one that does not fit is
   * counted, puts the gap marker in its place and starts the dropping.
   */
  lemma {:induction false} WriteDecided(z: Limits, g: Gate, data: seq<Byte>, marker: seq<Byte>, full: nat -> bool)
    requires z.chunkBytes > 0 && Valid(z, g)
    ensures var w := Write(z, g, data, marker, full);
      && (g.dropping ==> w == g.(droppedBytes := g.droppedBytes + |data|))
      && (!g.dropping && Size(g.queue) + |data| <= z.maxPending ==>
            && Output(w) == Output(g) + data
            && !w.dropping && w.overflows == g.overflows && w.droppedBytes == g.droppedBytes)
      && (!g.dropping && Size(g.queue) + |data| > z.maxPending ==>
            && Output(w) == Output(g) + marker
            && w.dropping && w.overflows == g.overflows + 1 && w.droppedBytes == g.droppedBytes + |data|)
  {
    if !g.dropping {
      EnqueueKeeps(z, g, data, marker);
      PumpedMoves(z, Enqueue(z, g, data, marker), full);
    }
  }

  /** A write is cut into as few chunks as the limit allows: all but the last are full. */
  lemma {:induction false} CutIsFull(data: seq<Byte>, chunkBytes: nat, i: nat)
    requires chunkBytes > 0 && i < |Cut(data, chunkBytes)|
    ensures var n, c := |Cut(data, chunkBytes)|, Cut(data, chunkBytes)[i];
      && !c.marker
      && i * chunkBytes < |data| && (i < n - 1 ==> (i + 1) * chunkBytes <= |data|)
      && c.data == data[i * chunkBytes..if i < n - 1 then (i + 1) * chunkBytes else |data|]
      && (i == n - 1 ==> 0 < |c.data| <= chunkBytes)
    decreases i
  {
    if |data| > chunkBytes && i > 0 {
      CutIsFull(data[chunkBytes..], chunkBytes, i - 1);
      assert (i - 1) * chunkBytes + chunkBytes == i * chunkBytes;
      assert i * chunkBytes + chunkBytes == (i + 1) * chunkBytes;
    } else if |data| > chunkBytes {
      assert |Cut(data[chunkBytes..], chunkBytes)| > 0;
    }
  }

  /** Nothing in the way of the next chunk after `k` chunks have gone out. */
  predicate Flowing(z: Limits, g: Gate, full: nat -> bool, k: nat)
    requires k <= |g.queue|
  {
    && !g.remotePaused && !g.sinkFull
    && (forall i: nat :: |g.sent| <= i < |g.sent| + k ==> !full(i))
    && (k > 0 ==> 2 * (g.inflight + Size(g.queue[..k])) <= z.maxPending)
  }

  /** `k` chunks have moved to the link, their bytes from waiting to in flight. */
  predicate Moved(g: Gate, p: Gate, full: nat -> bool, k: nat)
    requires k <= |g.queue|
  {
    && p.sent == g.sent + g.queue[..k] && p.queue == g.queue[k..]
    && p.inflight == g.inflight + Size(g.queue[..k]) && p.pending == g.pending - Size(g.queue[..k])
    && (p.sinkFull <==> g.sinkFull || exists i: nat :: |g.sent| <= i < |g.sent| + k && full(i))
  }

  /**
   * The pump sends the queue from its front, one chunk after another while nothing is in the way, and no further: it
   * stops at a link that is full, at a pause, at too many bytes in flight, or with nothing left.
   */
  lemma {:induction false} PumpedExactly(z: Limits, g: Gate, full: nat -> bool) returns (k: nat)
    ensures k <= |g.queue| && Moved(g, Pumped(z, g, full), full, k)
    ensures forall j: nat :: j < k ==> Flowing(z, g, full, j)
    ensures k == |g.queue| || !Flowing(z, g, full, k)
    decreases |g.queue|
  {
    k := 0;
    if !(g.queue == [] || g.remotePaused || g.sinkFull) {
      var g1 := Shift(g, full);
      var rest: nat := 0;
      if 2 * g1.inflight <= z.maxPending { rest := PumpedExactly(z, g1, full); }
      k := rest + 1;
      Further(z, g, full, rest);
      hide Shift, Flowing;
      assert Moved(g1, Pumped(z, g, full), full, rest);
      MovedOne(g, Pumped(z, g, full), full, rest);
      hide Moved;
      forall j: nat | j < k ensures Flowing(z, g, full, j) {
        if j > 0 { Further(z, g, full, j - 1); }
      }
    }
  }

  lemma {:induction false} MovedOne(g: Gate, p: Gate, full: nat -> bool, rest: nat)
    requires g.queue != [] && !g.sinkFull && rest < |g.queue| && Moved(Shift(g, full), p, full, rest)
    ensures Moved(g, p, full, rest + 1)
  {
    var g1 := Shift(g, full);
    assert g.queue[..rest + 1] == [g.queue[0]] + g1.queue[..rest];
    assert g.queue[..rest + 1][1..] == g1.queue[..rest];
    assert Size(g.queue[..rest + 1]) == |g.queue[0].data| + Size(g1.queue[..rest]);
  }

  /** What is in the way after one chunk and `j` more. */
  lemma {:induction false} Further(z: Limits, g: Gate, full: nat -> bool, j: nat)
    requires g.queue != [] && j < |g.queue| && !g.remotePaused && !g.sinkFull
    ensures Size(g.queue[..j + 1]) == |g.queue[0].data| + Size(g.queue[1..][..j])
    ensures Flowing(z, g, full, j + 1) <==>
      2 * (g.inflight + |g.queue[0].data|) <= z.maxPending && Flowing(z, Shift(g, full), full, j)
  {
    var g1 := Shift(g, full);
    assert g.queue[..j + 1][1..] == g.queue[1..][..j];
    assert |g1.sent| == |g.sent| + 1;
  }

  /** Room for a producer: nobody pauses it, the link takes more, and little waits or is unconfirmed. */
  predicate Roomy(z: Limits, g: Gate) {
    !g.remotePaused && !g.sinkFull && Size(g.queue) <= 4 * z.chunkBytes && 2 * g.inflight <= z.maxPending
  }

  /**
   * What the signals of the gateway and of the link do before the pump runs, and that the waiting producers are called
   * in their order, once, exactly when there is room.
   */
  lemma {:induction false} SignalsDecided(z: Limits, g: Gate, n: nat, full: nat -> bool)
    requires Valid(z, g)
    ensures var p := Consumed(z, g, n, full);
      && p.inflight + Size(p.queue) == (if n <= g.inflight then g.inflight - n else 0) + Size(g.queue)
      && p.remotePaused == g.remotePaused && Called(z, g, p)
    ensures SetRemotePaused(z, g, true, full) == g.(remotePaused := true) && ClearOverflow(g) == g.(dropping := false)
    ensures var p := SetRemotePaused(z, g, false, full);
      !p.remotePaused && p.inflight + Size(p.queue) == g.inflight + Size(g.queue) && Called(z, g, p)
    ensures var p := SinkDrained(z, g, full);
      && p.inflight + Size(p.queue) == g.inflight + Size(g.queue) && p.remotePaused == g.remotePaused
      && (p.sinkFull ==> |p.sent| > |g.sent|) && Called(z, g, p)
  {
    hide Pump, Size, Roomy;
    PumpCalls(z, g.(inflight := if n > g.inflight then 0 else g.inflight - n), full);
    PumpCalls(z, g.(remotePaused := false), full);
    PumpCalls(z, g.(sinkFull := false), full);
  }

  lemma {:induction false} PumpCalls(z: Limits, g: Gate, full: nat -> bool)
    requires g.pending == Size(g.queue)
    ensures var p := Pump(z, g, full);
      && p.inflight + Size(p.queue) == g.inflight + Size(g.queue) && p.remotePaused == g.remotePaused
      && (p.sinkFull ==> g.sinkFull || |p.sent| > |g.sent|) && Called(z, g, p)
  {
    PumpedMoves(z, g, full);
    var k := PumpedExactly(z, g, full);
    hide Pumped, Flowing, Size;
  }

  /** Everybody who waited was called if there is room now, and nobody if there is none. */
  predicate Called(z: Limits, g: Gate, p: Gate) {
    if Roomy(z, p) then p.woken == g.woken + g.waiters && p.waiters == []
    else p.woken == g.woken && p.waiters == g.waiters
  }

  /** The same holds of a write, and a producer that asks is called at once or put behind those who wait. */
  lemma {:induction false} ProducersDecided(
    z: Limits, g: Gate, who: nat, data: seq<Byte>, marker: seq<Byte>, full: nat -> bool)
    requires z.chunkBytes > 0 && Valid(z, g)
    ensures !g.dropping ==> Called(z, g, Write(z, g, data, marker, full))
    ensures Roomy(z, g) ==> OnDrain(z, g, who) == g.(woken := g.woken + [who])
    ensures !Roomy(z, g) ==> OnDrain(z, g, who) == g.(waiters := g.waiters + [who])
  {
    if !g.dropping {
      var e := Enqueue(z, g, data, marker);
      EnqueueKeeps(z, g, data, marker);
      assert e.waiters == g.waiters && e.woken == g.woken;
      assert Write(z, g, data, marker, full) == Pump(z, e, full);
      hide Pump, Size, Roomy, Write, Enqueue;
      PumpCalls(z, e, full);
    }
  }
}
