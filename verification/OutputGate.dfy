/** The output gate: a queue that a loop pumps into the link, and producers waiting for it to open. */
module WorkerOutput {
  import opened Common
  import opened GateModel

  class OutputGate {
    const limits: Limits
    /** What the link answers to the k-th chunk: whether it is full now. */
    const full: nat -> bool
    var queue: seq<Chunk>
    var pendingBytes: int
    var remotePaused: bool
    var sinkFull: bool
    var dropping: bool
    var drainWaiters: seq<nat>
    var inflight: nat
    var sent: seq<Chunk>
    var woken: seq<nat>
    var overflows: nat
    var droppedBytes: nat

    ghost function State(): Gate
      reads this
    {
      Gate(queue, pendingBytes, remotePaused, sinkFull, dropping, drainWaiters, inflight, sent, woken, overflows,
          droppedBytes)
    }

    constructor (limits: Limits, full: nat -> bool)
      ensures State() == START && this.limits == limits && this.full == full
    {
      this.limits, this.full := limits, full;
      queue, pendingBytes, remotePaused, sinkFull, dropping := [], 0, false, false, false;
      drainWaiters, inflight, sent, woken, overflows, droppedBytes := [], 0, [], [], 0, 0;
    }

    predicate Congested()
      reads this
      ensures Congested() == Paused(limits, State())
    {
      remotePaused || sinkFull || pendingBytes > limits.chunkBytes * 4 || 2 * inflight > limits.maxPending
    }

    /** `_pump` */
    method PumpOut()
      modifies this
      ensures State() == Pump(limits, old(State()), full)
    {
      var go := true;
      while go && queue != [] && !remotePaused && !sinkFull
        invariant go ==> Pumped(limits, State(), full) == Pumped(limits, old(State()), full)
        invariant !go ==> State() == Pumped(limits, old(State()), full)
        decreases go, |queue|
      {
        ghost var before := State();
        var c := queue[0];
        queue := queue[1..];
        pendingBytes := pendingBytes - |c.data|;
        inflight := inflight + |c.data|;
        var answer := full(|sent|);
        sent := sent + [c];
        if answer { sinkFull := true; }
        assert State() == Shift(before, full);
        if 2 * inflight > limits.maxPending { go := false; }
      }
      if !Congested() { woken, drainWaiters := woken + drainWaiters, []; }
    }

    method WriteText(data: seq<Byte>, marker: seq<Byte>)
      requires limits.chunkBytes > 0
      modifies this
      ensures State() == Write(limits, old(State()), data, marker, full)
    {
      if dropping {
        droppedBytes := droppedBytes + |data|;
        return;
      }
      if pendingBytes + |data| > limits.maxPending {
        overflows, droppedBytes, dropping := overflows + 1, droppedBytes + |data|, true;
        queue, pendingBytes := queue + [Chunk(marker, true)], pendingBytes + |marker|;
        PumpOut();
        return;
      }
      EnqueueChunks(data);
      PumpOut();
    }

    method EnqueueChunks(data: seq<Byte>)
      requires limits.chunkBytes > 0
      modifies `queue, `pendingBytes
      ensures queue == old(queue) + Cut(data, limits.chunkBytes) && pendingBytes == old(pendingBytes) + |data|
    {
      var o := 0;
      while o < |data|
        invariant 0 <= o <= |data|
        invariant queue + Cut(data[o..], limits.chunkBytes) == old(queue) + Cut(data, limits.chunkBytes)
        invariant pendingBytes == old(pendingBytes) + o
      {
        var end := if o + limits.chunkBytes < |data| then o + limits.chunkBytes else |data|;
        CutFirst(data[o..], limits.chunkBytes);
        assert data[o..end] == data[o..][..end - o] && data[end..] == data[o..][end - o..];
        queue := queue + [Chunk(data[o..end], false)];
        pendingBytes := pendingBytes + (end - o);
        o := end;
      }
    }

    method ReportConsumed(n: nat)
      modifies this
      ensures State() == Consumed(limits, old(State()), n, full)
    {
      inflight := if n > inflight then 0 else inflight - n;
      PumpOut();
    }

    method PauseOrResume(paused: bool)
      modifies this
      ensures State() == SetRemotePaused(limits, old(State()), paused, full)
    {
      remotePaused := paused;
      if !paused { PumpOut(); }
    }

    method Drained()
      modifies this
      ensures State() == SinkDrained(limits, old(State()), full)
    {
      sinkFull := false;
      PumpOut();
    }

    method WhenDrained(who: nat)
      modifies this
      ensures State() == OnDrain(limits, old(State()), who)
    {
      if !Congested() { woken := woken + [who]; } else { drainWaiters := drainWaiters + [who]; }
    }

    method Clear()
      modifies this
      ensures State() == ClearOverflow(old(State()))
    {
      dropping := false;
    }
  }

  lemma {:induction false} CutFirst(data: seq<Byte>, chunkBytes: nat)
    requires chunkBytes > 0 && data != []
    ensures var n := if chunkBytes < |data| then chunkBytes else |data|;
      Cut(data, chunkBytes) == [Chunk(data[..n], false)] + Cut(data[n..], chunkBytes)
  {
    if |data| <= chunkBytes { assert data[..|data|] == data; }
  }
}
