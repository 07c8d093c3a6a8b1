/** What the outbound half sends, refuses and grants, by the bytes that are counted. */
module CreditDecisions {
  // runtime/hermit/gateway/connection.js and runtime/hermit/client/ws-adapter.js

  import opened Common
  import opened CreditModel
  import opened CreditSafety
  import opened CreditTheorems
  import opened CreditLoop

  // ------------------------------------------------------------------ what goes out

  /** A payload on the socket: seven bytes of data header before it, and the frame header its length needs. */
  function OnSocket(n: nat): nat { (if n + 7 < 126 then 2 else if n + 7 < 65536 then 4 else 10) + n + 7 }

  function AllOnSocket(items: seq<Item>): nat {
    if items == [] then 0 else OnSocket(|items[0].payload|) + AllOnSocket(items[1..])
  }

  /** The `j`-th waiting payload has credit behind those before it, and its frame is not one too many. */
  predicate HasCredit(z: Config, c: Conn, j: nat)
    requires j < |c.pendingOut|
  {
    && c.sentBytes + ItemBytes(c.pendingOut[..j]) + |c.pendingOut[j].payload| <= c.creditBytes
    && |c.outstanding| + j < z.maxOutstanding
  }

  /** And the sequence numbers are not used up, the socket is open, and its queue has room for the frame. */
  predicate Goes(z: Config, c: Conn, j: nat)
    requires j < |c.pendingOut|
  {
    && HasCredit(z, c, j)
    && c.outSeq + j + 1 < 0xFFFF_FFFF_FFFF && c.wsOpen
    && Total(c.inflight) + AllOnSocket(c.pendingOut[..j]) + |c.pendingOut[j].payload| + 17 <= z.sendQueue
  }

  /** All but the room in the socket's queue is there. */
  predicate OnlyRoomLacks(z: Config, c: Conn, k: nat) {
    k < |c.pendingOut| && HasCredit(z, c, k) && c.outSeq + k + 1 < 0xFFFF_FFFF_FFFF && c.wsOpen && !Goes(z, c, k)
  }

  /** The first `k` waiting payloads are on the wire, numbered in their order, and counted wherever bytes are. */
  ghost predicate SentFirst(c: Conn, f: Conn, k: nat)
    requires k <= |c.pendingOut|
  {
    && f.pendingOut == c.pendingOut[k..] && f.outSeq == c.outSeq + k
    && f.sentBytes == c.sentBytes + ItemBytes(c.pendingOut[..k])
    && f.reported == c.reported + ItemBytes(c.pendingOut[..k])
    && Total(f.inflight) == Total(c.inflight) + AllOnSocket(c.pendingOut[..k])
    && |f.wire| == |c.wire| + k && f.wire[..|c.wire|] == c.wire
    && forall i :: 0 <= i < k ==> f.wire[|c.wire| + i] == Frame(c.outSeq + i + 1, c.pendingOut[i].payload)
  }

  lemma {:induction false} Pushed(inflight: seq<Flight>, f: Flight)
    ensures Total(inflight + [f]) == Total(inflight) + f.total
  {
    assert (inflight + [f])[..|inflight|] == inflight;
  }

  /** What may go after the first has gone. */
  lemma {:induction false} GoesNext(z: Config, c: Conn, j: nat)
    requires j + 1 < |c.pendingOut|
    ensures var s := SendFirst(z, c);
      && (HasCredit(z, s, j) <==> HasCredit(z, c, j + 1)) && (Goes(z, s, j) <==> Goes(z, c, j + 1))
      && (OnlyRoomLacks(z, s, j) <==> OnlyRoomLacks(z, c, j + 1))
  {
    var items, n := c.pendingOut, |c.pendingOut[0].payload|;
    assert items[..j + 1][1..] == items[1..][..j];
    assert ItemBytes(items[..j + 1]) == n + ItemBytes(items[1..][..j]);
    assert AllOnSocket(items[..j + 1]) == OnSocket(n) + AllOnSocket(items[1..][..j]);
    Pushed(c.inflight, Flight(HeadSize(n + 7) + (n + 7), Some(items[0].lease)));
  }

  lemma {:induction false} SentNext(z: Config, c: Conn, f: Conn, k: nat)
    requires c.pendingOut != [] && k < |c.pendingOut| && SentFirst(SendFirst(z, c), f, k)
    ensures SentFirst(c, f, k + 1)
  {
    var items, s := c.pendingOut, SendFirst(z, c);
    assert items[..k + 1][1..] == items[1..][..k];
    assert ItemBytes(items[..k + 1]) == |items[0].payload| + ItemBytes(items[1..][..k]);
    assert AllOnSocket(items[..k + 1]) == OnSocket(|items[0].payload|) + AllOnSocket(items[1..][..k]);
    Pushed(c.inflight, Flight(HeadSize(|items[0].payload| + 7) + (|items[0].payload| + 7), Some(items[0].lease)));
    assert f.wire[..|s.wire|][..|c.wire|] == f.wire[..|c.wire|];
    assert f.wire[|c.wire|] == f.wire[..|s.wire|][|c.wire|];
    forall i | 0 <= i < k + 1 ensures f.wire[|c.wire| + i] == Frame(c.outSeq + i + 1, items[i].payload) {
      if i > 0 { assert f.wire[|s.wire| + (i - 1)] == Frame(s.outSeq + (i - 1) + 1, s.pendingOut[i - 1].payload); }
    }
  }

  /**
   * A flush sends the waiting payloads from the first on, each while it may go, and no further. When the first that
   * may not go has credit but no number, the session ends.
   */
  lemma {:induction false} FlushedExactly(z: Config, c: Conn) returns (k: nat)
    requires RefsOk(c)
    ensures k <= |c.pendingOut| && SentFirst(c, Flushed(z, c).0, k)
    ensures forall j: nat :: j < k ==> Goes(z, c, j)
    ensures k == |c.pendingOut| || !Goes(z, c, k)
    ensures Flushed(z, c).1 <==> !(k < |c.pendingOut| && HasCredit(z, c, k) && c.outSeq + k + 1 >= 0xFFFF_FFFF_FFFF)
    ensures OnlyRoomLacks(z, c, k) ==> Flushed(z, c).0.congested
    decreases |c.pendingOut|
  {
    k := 0;
    if c.pendingOut != [] {
      FlushedStep(z, c);
      if Goes(z, c, 0) {
        var s := SendFirst(z, c);
        hide Goes, HasCredit, OnlyRoomLacks, SentFirst, Flushed, RefsOk;
        var rest := FlushedExactly(z, s);
        k := rest + 1;
        SentNext(z, c, Flushed(z, c).0, rest);
        forall j: nat | j < k ensures Goes(z, c, j) {
          if j > 0 { GoesNext(z, c, j - 1); }
        }
        if k < |c.pendingOut| { GoesNext(z, c, rest); } else { NotBeyond(z, c, k); }
        hide SendFirst;
      }
    }
  }

  lemma {:induction false} NotBeyond(z: Config, c: Conn, k: nat)
    requires k >= |c.pendingOut|
    ensures !OnlyRoomLacks(z, c, k)
  {}

  lemma {:induction false} FlushedStep(z: Config, c: Conn)
    requires RefsOk(c) && c.pendingOut != []
    ensures Goes(z, c, 0) ==> Flushed(z, c) == Flushed(z, SendFirst(z, c)) && RefsOk(SendFirst(z, c))
    ensures !Goes(z, c, 0) ==>
      && SentFirst(c, Flushed(z, c).0, 0)
      && (Flushed(z, c).1 <==> !(HasCredit(z, c, 0) && c.outSeq + 1 >= 0xFFFF_FFFF_FFFF))
      && (OnlyRoomLacks(z, c, 0) ==> Flushed(z, c).0.congested)
  {
    FirstIsLive(c);
    assert c.pendingOut[..0] == [];
    if Goes(z, c, 0) {
      SendRefs(z, c);
      hide RefsOk, SendFirst;
    } else {
      hide RefsOk, SendFirst;
    }
  }

  /** The worker is paused exactly while something waits. */
  lemma {:induction false} PausedWhileWaiting(z: Config, c: Conn)
    requires Flush(z, c).phase == Active
    ensures Flush(z, c).paused <==> Flush(z, c).pendingOut != []
  {
    EndNotActive(z, c);
  }

  lemma {:induction false} EndNotActive(z: Config, c: Conn)
    ensures !Flushed(z, c).1 ==> Flushed(z, c).0.phase != Active
    decreases |c.pendingOut|
  {
    if c.pendingOut != [] && CanSend(z, c, |c.pendingOut[0].payload|) {
      if c.pendingOut[0].lease !in c.refs {
        EndNotActive(z, c.(pendingOut := c.pendingOut[1..]));
      } else if c.outSeq + 1 < U48_MAX && c.wsOpen && Room(z, c, |c.pendingOut[0].payload|) {
        EndNotActive(z, SendFirst(z, c));
      }
    }
  }

  // ------------------------------------------------------------------ a credit message

  /**
   * What an active connection takes from its client: a report that does not go back and is of frames that were sent,
   * and a total that does not shrink and is at most a window beyond the bytes of the frames reported.
   */
  predicate Acceptable(z: Config, c: Conn, consumedSeq: int, creditBytes: int)
    requires 0 <= consumedSeq <= |c.wire|
  {
    && c.consumedSeq <= consumedSeq && c.creditBytes <= creditBytes
    && creditBytes <= Bytes(c.wire[..consumedSeq]) + z.window
  }

  /** An acceptable message is recorded and nothing else counts as a violation; any other ends the session. */
  lemma {:induction false} CreditDecided(z: Config, c: Conn, consumedSeq: int, creditBytes: int)
    requires Valid(z, c) && c.phase == Active
    ensures var d := Credit(z, c, consumedSeq, creditBytes);
      if 0 <= consumedSeq <= |c.wire| && Acceptable(z, c, consumedSeq, creditBytes) then
        && d.creditBytes == creditBytes && d.consumedSeq == consumedSeq
        && d.consumedBytes == Bytes(c.wire[..consumedSeq])
      else
        && d.phase == Draining && d.creditBytes == c.creditBytes && d.wire == c.wire && d.pendingOut == c.pendingOut
  {
    if 0 <= consumedSeq <= |c.wire| && Acceptable(z, c, consumedSeq, creditBytes) {
      CreditTaken(z, c, consumedSeq, creditBytes);
    } else {
      CreditEnds(z, c, consumedSeq, creditBytes);
    }
    hide Credit, Acceptable, Valid, Bytes;
  }

  lemma {:induction false} CreditTaken(z: Config, c: Conn, consumedSeq: nat, creditBytes: int)
    requires Valid(z, c) && c.phase == Active && consumedSeq <= |c.wire| && Acceptable(z, c, consumedSeq, creditBytes)
    ensures var d := Credit(z, c, consumedSeq, creditBytes);
      d.creditBytes == creditBytes && d.consumedSeq == consumedSeq && d.consumedBytes == Bytes(c.wire[..consumedSeq])
  {
    ReportedBytes(z, c, consumedSeq);
    hide Valid, Bytes, Consumed, ConsumedBytes, Flush;
    FlushRecords(z, Acknowledged(c, consumedSeq).(creditBytes := creditBytes));
  }

  lemma {:induction false} CreditEnds(z: Config, c: Conn, consumedSeq: int, creditBytes: int)
    requires Valid(z, c) && c.phase == Active
    requires !(0 <= consumedSeq <= |c.wire| && Acceptable(z, c, consumedSeq, creditBytes))
    ensures var d := Credit(z, c, consumedSeq, creditBytes);
      d.phase == Draining && d.creditBytes == c.creditBytes && d.wire == c.wire && d.pendingOut == c.pendingOut
  {
    if c.consumedSeq <= consumedSeq <= c.outSeq { ReportedBytes(z, c, consumedSeq); }
    hide Valid, Bytes, Consumed, ConsumedBytes, Flush;
  }

  /** The bytes of the frames that are reported. */
  lemma {:induction false} ReportedBytes(z: Config, c: Conn, upTo: nat)
    requires Valid(z, c) && c.phase != Closed && c.consumedSeq <= upTo <= c.outSeq
    ensures Acknowledged(c, upTo).consumedBytes == Bytes(c.wire[..upTo])
  {
    AcknowledgedKeeps(z, c, upTo);
    hide Bytes, Consumed, ConsumedBytes;
  }

  lemma {:induction false} FlushRecords(z: Config, c: Conn)
    ensures var f := Flush(z, c);
      f.creditBytes == c.creditBytes && f.consumedSeq == c.consumedSeq && f.consumedBytes == c.consumedBytes
  {
    FlushedRecords(z, c);
  }

  lemma {:induction false} FlushedRecords(z: Config, c: Conn)
    ensures var f := Flushed(z, c).0;
      f.creditBytes == c.creditBytes && f.consumedSeq == c.consumedSeq && f.consumedBytes == c.consumedBytes
    decreases |c.pendingOut|
  {
    if c.pendingOut != [] && CanSend(z, c, |c.pendingOut[0].payload|) {
      if c.pendingOut[0].lease !in c.refs {
        FlushedRecords(z, c.(pendingOut := c.pendingOut[1..]));
      } else if c.outSeq + 1 < U48_MAX && c.wsOpen && Room(z, c, |c.pendingOut[0].payload|) {
        FlushedRecords(z, SendFirst(z, c));
      }
    }
  }

  // ------------------------------------------------------------------ the client's side

  /**
   * The client counts what it has shown, and grants again once a quarter of the window has been consumed since the last
   * grant, less than half of it is left, or 128 frames have come; the new total is a window beyond what it has shown.
   */
  lemma {:induction false} GrantDecided(r: Rec, f: Frame)
    ensures var (t, gs) := Receive(r, f); var shown := r.consumedBytes + |f.payload|;
      var due := shown - r.creditedAt >= (r.window + 3) / 4 || 2 * (r.creditBytes - shown) < r.window
          || r.sinceCredit >= 127;
      && t.consumedBytes == shown && t.lastOut == f.seqNo && t.shown == r.shown + [f.payload]
      && t.gaps == r.gaps + (if f.seqNo == r.lastOut + 1 then 0 else 1)
      && gs == (if due then [Grant(f.seqNo, shown + r.window)] else [])
      && t.creditBytes == (if due then shown + r.window else r.creditBytes)
      && t.creditedAt == (if due then shown else r.creditedAt)
      && t.sinceCredit == (if due then 0 else r.sinceCredit + 1)
  {}

  // ------------------------------------------------------------------ the socket

  /** The header a server's frame of `n` bytes needs. */
  function Framed(n: nat): nat { n + if n < 126 then 2 else if n < 65536 then 4 else 10 }

  /** One more write is in flight, and the socket is congested from half of its queue on. */
  predicate InFlight(z: Config, c: Conn, d: Conn, n: nat) {
    && d.inflight == c.inflight + [Flight(Framed(n), None)] && d.refs == c.refs
    && d.congested == (c.congested || 2 * (Total(c.inflight) + Framed(n)) >= z.sendQueue)
  }

  /**
   * A control message may use the reserve beside the queue; without room even there the socket is torn down. A close
   * frame is the last thing written.
   */
  lemma {:induction false} ControlDecided(z: Config, c: Conn, n: nat)
    requires c.phase != Closed
    ensures var d := Control(z, c, n);
      if c.wsOpen && Total(c.inflight) + n + 10 <= z.sendQueue + z.controlReserve
      then InFlight(z, c, d, n) && d == c.(inflight := d.inflight, congested := d.congested)
      else GivenUp(c, d) && d.phase == Closed && !d.wsOpen
    ensures var d := Closing(z, c, n);
      if c.wsOpen then InFlight(z, c, d, n) && d ==
          c.(inflight := d.inflight, congested := d.congested, wsOpen := false)
      else d == c
  {
    WrittenIs(z, c, n);
    hide InFlight, Total, Written, ItemBytes;
  }

  lemma {:induction false} WrittenIs(z: Config, c: Conn, n: nat)
    ensures var d := Written(z, c, n, None);
      InFlight(z, c, d, n) && d == c.(inflight := d.inflight, congested := d.congested)
    ensures InFlight(z, c, Written(z, c, n, None).(wsOpen := false), n)
  {
    Pushed(c.inflight, Flight(HeadSize(n) + n, None));
    hide Total;
  }

  /** What waited is counted as cut, and nothing of what was sent changes. */
  predicate GivenUp(c: Conn, d: Conn) {
    && d.pendingOut == [] && d.cutBytes == c.cutBytes + ItemBytes(c.pendingOut)
    && d.wire == c.wire && d.inflight == c.inflight && d.sentBytes == c.sentBytes && d.reported == c.reported
  }

  /** The end of the socket and the exit of the worker give up what waits; the exit does so once. */
  lemma {:induction false} EndsDecided(c: Conn)
    ensures GivenUp(c, Close(c)) && Close(c).phase == Closed && !Close(c).wsOpen && Close(c).outstanding == []
    ensures !c.exited ==> GivenUp(c, FinalExit(c)) && FinalExit(c).exited && FinalExit(c).phase == c.phase
    ensures c.exited ==> FinalExit(c) == c
    ensures c.phase == Active ==> End(c) == c.(phase := Draining, discard := c.discard || c.paused, paused := false)
    ensures c.phase != Active ==> End(c) == c
  {}

  /**
   * The callback of the oldest write takes it out of flight; when less than a quarter of the queue is left of a
   * congested one, what waits is tried again.
   */
  lemma {:induction false} SettledDecided(z: Config, c: Conn)
    requires c.inflight != []
    ensures var d, called := Settled(z, c), CalledBack(c);
      && called == c.(inflight := c.inflight[1..], refs := called.refs)
      && (c.congested && 4 * Total(c.inflight[1..]) < z.sendQueue && c.phase != Closed ==>
            d == Flush(z, called.(congested := false)))
      && (!(c.congested && 4 * Total(c.inflight[1..]) < z.sendQueue && c.phase != Closed) ==> d == called)
  {}

  /**
   * Output is discarded, and counted as cut and as off the worker's hands, while it is to be discarded or the socket is
   * gone; without memory for it the session ends and it is cut; otherwise it waits behind what waits, under a new
   * lease.
   */
  lemma {:induction false} OutputDecided(z: Config, c: Conn, payload: seq<Byte>, granted: bool)
    ensures var d, n := Output(z, c, payload, granted), |payload|;
      && (c.discard || c.phase == Closed ==> d == c.(cutBytes := c.cutBytes + n, reported := c.reported + n))
      && (!c.discard && c.phase != Closed && !granted ==>
            && d.phase == Draining && d.cutBytes == c.cutBytes + n && d.reported == c.reported
            && d.wire == c.wire && d.pendingOut == c.pendingOut)
      && (!c.discard && c.phase != Closed && granted ==>
            d == Flush(z, c.(pendingOut := c.pendingOut + [Item(payload, c.nextLease)],
                             refs := c.refs[c.nextLease := 1], nextLease := c.nextLease + 1)))
  {}
}
