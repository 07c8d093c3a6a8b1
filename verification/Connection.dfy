/** A connection's queue of waiting output with its loops, and the client's record of what it has consumed. */
module TerminalConnection {
  import opened Common
  import M = CreditModel
  import C = CreditLoop

  class Connection {
    const cfg: M.Config
    var phase: M.Phase
    var wsOpen: bool
    var exitSent: bool
    var outSeq: nat
    var sentBytes: nat
    var creditBytes: int
    var consumedSeq: nat
    var consumedBytes: nat
    var outstanding: seq<M.Mark>
    var pendingOut: seq<M.Item>
    var workerPaused: bool
    var discardOutput: bool
    var inflight: seq<M.Flight>
    var congested: bool
    var refs: map<nat, nat>
    var nextLease: nat
    var wire: seq<M.Frame>
    var undelivered: nat
    var reported: nat

    ghost function State(): M.Conn
      reads this
    {
      M.Conn(phase, wsOpen, exitSent, outSeq, sentBytes, creditBytes, consumedSeq, consumedBytes,
             outstanding, pendingOut, workerPaused, discardOutput, inflight, congested, refs, nextLease,
             wire, undelivered, reported)
    }

    constructor (cfg: M.Config, creditBytes: nat)
      ensures State() == M.Opened(creditBytes) && this.cfg == cfg
    {
      this.cfg := cfg;
      phase, wsOpen, exitSent := M.Active, true, false;
      outSeq, sentBytes, this.creditBytes, consumedSeq, consumedBytes := 0, 0, creditBytes, 0, 0;
      outstanding, pendingOut, workerPaused, discardOutput := [], [], false, false;
      inflight, congested, refs, nextLease, wire, undelivered, reported := [], false, map[], 0, [], 0, 0;
    }

    /** `_write` of the socket. */
    method Write(n: nat, lease: Option<nat>)
      modifies `inflight, `congested, `refs
      ensures inflight == old(inflight) + [M.Flight(M.HeadSize(n) + n, lease)]
      ensures congested == (old(congested) || 2 * M.Total(inflight) >= cfg.sendQueue)
      ensures refs == if lease.Some? then M.Retain(old(refs), lease.value) else old(refs)
    {
      inflight := inflight + [M.Flight(M.HeadSize(n) + n, lease)];
      if 2 * M.Total(inflight) >= cfg.sendQueue { congested := true; }
      if lease.Some? { refs := M.Retain(refs, lease.value); }
    }

    method WriteFrame(n: nat, lease: Option<nat>)
      modifies this
      ensures State() == M.Written(cfg, old(State()), n, lease)
    {
      Write(n, lease);
    }

    /** The next frame goes on the record of what is sent and not yet consumed. */
    method Record(payload: seq<Byte>)
      modifies `outSeq, `sentBytes, `outstanding, `wire
      ensures outSeq == old(outSeq) + 1 && sentBytes == old(sentBytes) + |payload|
      ensures outstanding == old(outstanding) + [M.Mark(old(outSeq) + 1, old(sentBytes) + |payload|)]
      ensures wire == old(wire) + [M.Frame(old(outSeq) + 1, payload)]
    {
      outSeq := outSeq + 1;
      sentBytes := sentBytes + |payload|;
      outstanding := outstanding + [M.Mark(outSeq, sentBytes)];
      wire := wire + [M.Frame(outSeq, payload)];
    }

    /** The payload is no longer the producer's. */
    method Take() returns (payload: seq<Byte>)
      requires pendingOut != []
      modifies `pendingOut, `reported, `refs
      ensures payload == old(pendingOut)[0].payload && pendingOut == old(pendingOut)[1..]
      ensures reported == old(reported) + |payload| && refs == M.Drop(old(refs), old(pendingOut)[0].lease)
    {
      payload := pendingOut[0].payload;
      refs := M.Drop(refs, pendingOut[0].lease);
      pendingOut := pendingOut[1..];
      reported := reported + |payload|;
    }

    method Number()
      requires pendingOut != []
      modifies this
      ensures State() == M.Numbered(old(State()))
    {
      var payload := Take();
      Record(payload);
    }

    /** One turn of `_flush` that sends. */
    method SendFirst()
      requires pendingOut != []
      modifies this
      ensures State() == M.SendFirst(cfg, old(State()))
    {
      WriteFrame(|pendingOut[0].payload| + 7, Some(pendingOut[0].lease));
      Number();
    }

    method EndSession()
      modifies `phase, `discardOutput, `workerPaused
      ensures State() == M.End(old(State()))
    {
      if phase != M.Active { return; }
      phase := M.Draining;
      if workerPaused { discardOutput, workerPaused := true, false; }
    }

    /** `_flush` */
    method Flush()
      modifies this
      ensures State() == M.Flush(cfg, old(State()))
    {
      var go := true;
      while go && pendingOut != []
        invariant go ==> M.Flushed(cfg, State()) == M.Flushed(cfg, old(State()))
        invariant !go ==> M.Flushed(cfg, old(State())) == (State(), true)
        decreases go, |pendingOut|
      {
        var item := pendingOut[0];
        if sentBytes + |item.payload| > creditBytes || |outstanding| >= cfg.maxOutstanding {
          go := false;
        } else if item.lease !in refs {
          pendingOut := pendingOut[1..];
        } else if outSeq + 1 >= M.U48_MAX {
          EndSession();
          return;
        } else if !wsOpen {
          go := false;
        } else if M.Total(inflight) + (|item.payload| + 7) + 10 > cfg.sendQueue {
          congested := true;
          go := false;
        } else {
          SendFirst();
        }
      }
      if phase == M.Active { workerPaused := pendingOut != []; }
    }

    method Output(payload: seq<Byte>, granted: bool)
      modifies this
      ensures State() == M.Output(cfg, old(State()), payload, granted)
    {
      if discardOutput || phase == M.Closed {
        undelivered, reported := undelivered + |payload|, reported + |payload|;
        return;
      }
      if !granted {
        undelivered := undelivered + |payload|;
        EndSession();
        return;
      }
      pendingOut, refs, nextLease := pendingOut + [M.Item(payload, nextLease)], refs[nextLease := 1], nextLease + 1;
      assert State() == M.Enqueued(old(State()), payload);
      Flush();
    }

    /** The loop of `_credit` that takes consumed frames off the record. */
    method Acknowledge(upTo: nat)
      modifies `outstanding, `consumedBytes, `consumedSeq
      ensures State() == M.Acknowledged(old(State()), upTo)
    {
      while outstanding != [] && outstanding[0].seqNo <= upTo
        invariant M.Consumed(outstanding, upTo) == M.Consumed(old(outstanding), upTo)
        invariant M.ConsumedBytes(outstanding, upTo, consumedBytes) ==
            M.ConsumedBytes(old(outstanding), upTo, old(consumedBytes))
        invariant consumedSeq == old(consumedSeq)
        decreases |outstanding|
      {
        consumedBytes := outstanding[0].cum;
        outstanding := outstanding[1..];
      }
      consumedSeq := upTo;
    }

    method CreditMessage(upTo: int, bytes: int)
      modifies this
      ensures State() == M.Credit(cfg, old(State()), upTo, bytes)
    {
      if phase != M.Active { return; }
      if upTo < consumedSeq || upTo > outSeq || bytes < creditBytes {
        EndSession();
        return;
      }
      Acknowledge(upTo);
      if bytes - consumedBytes > cfg.window {
        EndSession();
        return;
      }
      creditBytes := bytes;
      Flush();
    }

    /** The socket reports that it has drained. */
    method Relieve()
      modifies this
      ensures State() == M.Relieved(cfg, old(State()))
    {
      if congested && 4 * M.Total(inflight) < cfg.sendQueue && phase != M.Closed {
        congested := false;
        Flush();
      }
    }

    /** The callback of the oldest write: only now is its memory returned. */
    method Settle()
      modifies this
      ensures State() == M.Settled(cfg, old(State()))
    {
      if inflight == [] { return; }
      var f := inflight[0];
      inflight := inflight[1..];
      if f.lease.Some? { refs := M.Drop(refs, f.lease.value); }
      Relieve();
    }

    method GiveUp()
      modifies `refs, `pendingOut, `undelivered
      ensures refs == M.DropAll(old(refs), old(pendingOut)) && pendingOut == []
      ensures undelivered == old(undelivered) + M.ItemBytes(old(pendingOut))
    {
      while pendingOut != []
        invariant M.DropAll(refs, pendingOut) == M.DropAll(old(refs), old(pendingOut))
        invariant undelivered + M.ItemBytes(pendingOut) == old(undelivered) + M.ItemBytes(old(pendingOut))
        decreases |pendingOut|
      {
        undelivered := undelivered + |pendingOut[0].payload|;
        refs := M.Drop(refs, pendingOut[0].lease);
        pendingOut := pendingOut[1..];
      }
    }

    method SocketClosed()
      modifies this
      ensures State() == M.Close(old(State()))
    {
      GiveUp();
      phase, wsOpen, outstanding := M.Closed, false, [];
    }

    method Control(n: nat)
      modifies this
      ensures State() == M.Control(cfg, old(State()), n)
    {
      if phase == M.Closed { return; }
      if wsOpen && M.Total(inflight) + n + 10 <= cfg.sendQueue + cfg.controlReserve {
        WriteFrame(n, None);
      } else {
        SocketClosed();
      }
    }

    method BeginClosing(n: nat)
      modifies this
      ensures State() == M.Closing(cfg, old(State()), n)
    {
      if !wsOpen { return; }
      WriteFrame(n, None);
      wsOpen := false;
    }

    method FinalExit()
      modifies this
      ensures State() == M.FinalExit(old(State()))
    {
      if exitSent { return; }
      exitSent := true;
      GiveUp();
    }
  }

  /** The browser's record of one connection. */
  class ClientRecord {
    const window: nat
    var lastOut: nat
    var consumedBytes: nat
    var creditBytes: nat
    var creditedAt: nat
    var sinceCredit: nat
    var shown: seq<seq<Byte>>
    var gaps: nat

    ghost function State(): C.Rec
      reads this
    {
      C.Rec(window, lastOut, consumedBytes, creditBytes, creditedAt, sinceCredit, shown, gaps)
    }

    constructor (window: nat)
      ensures State() == C.Fresh(window)
    {
      this.window := window;
      lastOut, consumedBytes, creditBytes, creditedAt, sinceCredit, shown, gaps := 0, 0, window, 0, 0, [], 0;
    }

    method OnFrame(f: M.Frame) returns (grants: seq<C.Grant>)
      modifies this
      ensures (State(), grants) == C.Receive(old(State()), f)
    {
      if f.seqNo != lastOut + 1 { gaps := gaps + 1; }
      lastOut := f.seqNo;
      consumedBytes := consumedBytes + |f.payload|;
      sinceCredit := sinceCredit + 1;
      shown := shown + [f.payload];
      grants := [];
      if 4 * (consumedBytes - creditedAt) >= window || 2 * (creditBytes - consumedBytes) < window
          || sinceCredit >= 128 {
        creditBytes := consumedBytes + window;
        creditedAt := consumedBytes;
        sinceCredit := 0;
        grants := [C.Grant(lastOut, creditBytes)];
      }
    }
  }
}
