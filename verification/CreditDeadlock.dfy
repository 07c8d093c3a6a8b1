/** When sender and client can deadlock. */
module CreditDeadlock {
  // The sender has three limits: granted bytes, unconsumed frames and the socket budget. It and the client's renewal
  // rule can come to rest with output waiting if and only if the limits do not fit.

  import opened Common
  import opened CreditModel
  import opened CreditSafety
  import opened CreditLoop

  // ------------------------------------------------------------------ coming to rest

  predicate Live(c: Conn) { c.phase == Active && c.wsOpen && !c.exited }

  /** Everything sent has been delivered and called back, and every grant applied: nobody will act. */
  predicate Quiet(s: Sys) {
    s.delivered == |s.conn.wire| && s.applied == |s.grants| && s.conn.inflight == []
  }

  predicate Stuck(s: Sys) { Live(s.conn) && Quiet(s) && s.conn.pendingOut != [] }

  /** The most bytes a client consumes without renewing its credit. */
  function Silent(w: nat): nat
    requires w > 0
  {
    (w - 1) / 4
  }

  /** A chunk fits what is left of the window, the frames it may leave unreported, and the socket. */
  predicate Fits(z: Config, w: nat, chunk: nat)
    requires w > 0
  {
    && chunk <= w - Silent(w)
    && (z.maxOutstanding >= 128 || z.maxOutstanding > Silent(w))
    && chunk + 17 <= z.sendQueue
  }

  predicate Chunked(e: Event, chunk: nat) { e.Serve? && e.op.DoOutput? ==> 0 < |e.op.payload| <= chunk }

  predicate AllChunked(es: seq<Event>, chunk: nat) { forall e :: e in es ==> Chunked(e, chunk) }

  // ------------------------------------------------------------------ what waits has a reason to

  predicate Waits(z: Config, c: Conn) {
    c.pendingOut != [] ==> !CanSend(z, c, |c.pendingOut[0].payload|) || c.congested
  }

  /** Without a write in flight the socket is congested only if the first chunk can never fit. */
  predicate Congestion(z: Config, c: Conn) {
    c.congested && c.inflight == [] ==> c.pendingOut != [] && |c.pendingOut[0].payload| + 17 > z.sendQueue
  }

  predicate Sized(items: seq<Item>, chunk: nat) { forall x :: x in items ==> 0 < |x.payload| <= chunk }

  ghost predicate Poised(z: Config, chunk: nat, c: Conn) {
    && (Live(c) ==> Waits(z, c) && Congestion(z, c))
    && Sized(c.pendingOut, chunk) && NoneEmpty(c.wire)
  }

  lemma {:induction false} SendSized(z: Config, chunk: nat, c: Conn)
    requires c.pendingOut != [] && Sized(c.pendingOut, chunk) && NoneEmpty(c.wire)
    ensures Sized(SendFirst(z, c).pendingOut, chunk) && NoneEmpty(SendFirst(z, c).wire)
  {
    var s := SendFirst(z, c);
    assert c.pendingOut[0] in c.pendingOut;
    forall x | x in s.pendingOut ensures 0 < |x.payload| <= chunk { assert x in c.pendingOut; }
  }

  lemma {:induction false} FlushedPoised(z: Config, chunk: nat, c: Conn)
    requires Sized(c.pendingOut, chunk) && NoneEmpty(c.wire) && RefsOk(c)
    ensures var f := Flushed(z, c).0;
      && (Live(f) ==> Waits(z, f) && (Congestion(z, c) ==> Congestion(z, f)))
      && Sized(f.pendingOut, chunk) && NoneEmpty(f.wire)
    decreases |c.pendingOut|
  {
    if c.pendingOut != [] && CanSend(z, c, |c.pendingOut[0].payload|) {
      FirstIsLive(c);
      if c.outSeq + 1 < U48_MAX && c.wsOpen && Room(z, c, |c.pendingOut[0].payload|) {
        SendSized(z, chunk, c);
        SendRefs(z, c);
        FlushedPoised(z, chunk, SendFirst(z, c));
      }
    }
  }

  lemma {:induction false} FlushPoised(z: Config, chunk: nat, c: Conn)
    requires Sized(c.pendingOut, chunk) && NoneEmpty(c.wire) && RefsOk(c)
    requires Live(c) ==> Congestion(z, c)
    ensures Poised(z, chunk, Flush(z, c))
  {
    FlushedPoised(z, chunk, c);
    FlushedLive(z, c);
  }

  lemma {:induction false} FlushedLive(z: Config, c: Conn)
    ensures Live(Flushed(z, c).0) ==> Live(c)
    decreases |c.pendingOut|
  {
    if c.pendingOut != [] && CanSend(z, c, |c.pendingOut[0].payload|) {
      if c.pendingOut[0].lease !in c.refs {
        FlushedLive(z, c.(pendingOut := c.pendingOut[1..]));
      } else if c.outSeq + 1 < U48_MAX && c.wsOpen && Room(z, c, |c.pendingOut[0].payload|) {
        FlushedLive(z, SendFirst(z, c));
      }
    }
  }

  lemma {:induction false} OutputPoised(z: Config, chunk: nat, c: Conn, payload: seq<Byte>, granted: bool)
    requires Valid(z, c) && Poised(z, chunk, c) && 0 < |payload| <= chunk
    ensures Poised(z, chunk, Output(z, c, payload, granted))
  {
    if !(c.discard || c.phase == Closed || !granted) {
      EnqueueKeeps(z, c, payload);
      FlushPoised(z, chunk, Enqueued(c, payload));
    }
  }

  lemma {:induction false} CreditPoised(z: Config, chunk: nat, c: Conn, consumedSeq: int, creditBytes: int)
    requires Valid(z, c) && Poised(z, chunk, c)
    ensures Poised(z, chunk, Credit(z, c, consumedSeq, creditBytes))
  {
    if c.phase == Active && !CreditViolates(z, c, consumedSeq, creditBytes) {
      AcknowledgedKeeps(z, c, consumedSeq);
      var d := Acknowledged(c, consumedSeq).(creditBytes := creditBytes);
      SameLedger(z, Acknowledged(c, consumedSeq), d);
      FlushPoised(z, chunk, d);
    }
  }

  lemma {:induction false} RelievedPoised(z: Config, chunk: nat, c: Conn)
    requires Valid(z, c) && Sized(c.pendingOut, chunk) && NoneEmpty(c.wire) && z.sendQueue > 0
    requires Live(c) ==> Waits(z, c)
    ensures Poised(z, chunk, Relieved(z, c))
  {
    var d := c.(congested := false);
    SameLedger(z, c, d);
    FlushPoised(z, chunk, d);
  }

  lemma {:induction false} SettledPoised(z: Config, chunk: nat, c: Conn)
    requires Valid(z, c) && Poised(z, chunk, c) && z.sendQueue > 0
    ensures Poised(z, chunk, Settled(z, c))
  {
    if c.inflight != [] {
      CalledBackKeeps(z, c);
      RelievedPoised(z, chunk, CalledBack(c));
    }
  }

  lemma {:induction false} ServePoised(z: Config, chunk: nat, c: Conn, op: Op)
    requires Valid(z, c) && Poised(z, chunk, c) && z.sendQueue > 0
    requires op.DoOutput? ==> 0 < |op.payload| <= chunk
    ensures Poised(z, chunk, Do(z, c, op))
  {
    if op.DoOutput? {
      OutputPoised(z, chunk, c, op.payload, op.granted);
    } else if op.DoCredit? {
      CreditPoised(z, chunk, c, op.consumedSeq, op.creditBytes);
    } else if op.DoSettle? {
      SettledPoised(z, chunk, c);
    } else if op.DoDrain? {
      RelievedPoised(z, chunk, c);
    }
  }

  lemma {:induction false} StepsPoised(z: Config, w: nat, chunk: nat, s: Sys, es: seq<Event>)
    requires Inv(z, w, s) && 0 < w <= z.window && Poised(z, chunk, s.conn) && z.sendQueue > 0 && AllChunked(es, chunk)
    ensures Poised(z, chunk, Steps(z, s, es).conn)
    decreases |es|
  {
    if es != [] {
      var e, t := es[0], Step(z, s, es[0]);
      assert Chunked(e, chunk) && AllChunked(es[1..], chunk);
      StepKeeps(z, w, s, e);
      if e.Serve? {
        ServePoised(z, chunk, s.conn, e.op);
      } else if e.Apply? && s.applied < |s.grants| {
        CreditPoised(z, chunk, s.conn, s.grants[s.applied].consumedSeq, s.grants[s.applied].creditBytes);
      }
      StepsPoised(z, w, chunk, t, es[1..]);
    }
  }

  // ------------------------------------------------------------------ limits that fit are enough

  lemma {:induction false} EachFrameCounts(frames: seq<Frame>, i: nat, j: nat)
    requires i <= j <= |frames| && NoneEmpty(frames)
    ensures Bytes(frames[..j]) - Bytes(frames[..i]) >= j - i
    decreases j
  {
    if i < j {
      assert frames[..j][..j - 1] == frames[..j - 1];
      assert frames[j - 1] in frames;
      EachFrameCounts(frames, i, j - 1);
    }
  }

  /** At rest the sender has the window but for less than a quarter, and fewer than 128 unreported frames. */
  lemma {:induction false} AtRest(z: Config, w: nat, s: Sys)
    requires Inv(z, w, s) && w > 0 && Quiet(s) && s.conn.phase == Active && NoneEmpty(s.conn.wire)
    ensures s.conn.sentBytes + w - Silent(w) <= s.conn.creditBytes
    ensures |s.conn.outstanding| < 128 && |s.conn.outstanding| <= Silent(w)
  {
    var c := s.conn;
    BytesWhole(c.wire);
    EachFrameCounts(c.wire, c.consumedSeq, |c.wire|);
    var d := c.sentBytes - c.consumedBytes;
    assert d == s.rec.consumedBytes - s.rec.creditedAt;
    assert 4 * d <= w - 1;
  }

  lemma {:induction false} FittingIsNeverStuck(z: Config, w: nat, chunk: nat, s: Sys)
    requires Inv(z, w, s) && 0 < w && Poised(z, chunk, s.conn) && Fits(z, w, chunk)
    ensures !Stuck(s)
  {
    assert s.conn.pendingOut != [] ==> s.conn.pendingOut[0] in s.conn.pendingOut;
    if Live(s.conn) && Quiet(s) { AtRest(z, w, s); }
  }

  // ------------------------------------------------------------------ limits that do not fit can be met

  /** `k` frames of `d` bytes in all were sent and consumed, nothing waits, and the client has not renewed. */
  predicate Idle(w: nat, s: Sys, k: nat, d: nat) {
    && Live(s.conn) && !s.conn.discard && !s.conn.congested && s.conn.pendingOut == [] && s.conn.inflight == []
    && s.conn.outSeq == k == |s.conn.wire| && s.conn.sentBytes == d && |s.conn.outstanding| == k
    && s.conn.creditBytes == w
    && s.delivered == k && s.grants == [] && s.applied == 0
    && s.rec.window == w && s.rec.creditBytes == w && s.rec.creditedAt == 0
    && s.rec.consumedBytes == d && s.rec.sinceCredit == k
  }

  function Zeros(n: nat): seq<Byte> { seq(n, _ => 0) }

  function OneChunk(n: nat): seq<Event> { [Serve(DoOutput(Zeros(n), true))] }

  function Round(n: nat): seq<Event> { [Serve(DoOutput(Zeros(n), true)), Serve(DoSettle), Deliver] }

  lemma {:induction false} SentAlone(z: Config, w: nat, s: Sys, k: nat, d: nat, n: nat)
    requires Idle(w, s, k, d) && d + n <= w && k < z.maxOutstanding && n + 17 <= z.sendQueue && k + 1 < U48_MAX
    ensures var c := Output(z, s.conn, Zeros(n), true);
      && c.pendingOut == [] && |c.inflight| == 1 && !c.discard && Live(c) && c.outSeq == k + 1
      && c.sentBytes == d + n && |c.outstanding| == k + 1 && c.creditBytes == w
      && c.wire == s.conn.wire + [Frame(k + 1, Zeros(n))]
  {
    var e := Enqueued(s.conn, Zeros(n));
    assert Total(e.inflight) == 0;
    var item := e.pendingOut[0];
    assert item == Item(Zeros(n), s.conn.nextLease) && item.lease in e.refs;
    assert CanSend(z, e, n) && Room(z, e, n);
    var f := SendFirst(z, e);
    assert f.pendingOut == [];
    assert Flushed(z, f) == (f, true);
    assert Flushed(z, e) == Flushed(z, f);
  }

  lemma {:induction false} OneMore(z: Config, w: nat, s: Sys, k: nat, d: nat, n: nat)
    requires Idle(w, s, k, d) && d + n <= w && k < z.maxOutstanding && n + 17 <= z.sendQueue
    requires k + 1 < 128 && 4 * (d + n) < w
    ensures Idle(w, Steps(z, s, Round(n)), k + 1, d + n)
  {
    SentAlone(z, w, s, k, d, n);
    var c := Output(z, s.conn, Zeros(n), true);
    var s1 := s.(conn := c);
    var s2 := s1.(conn := Settled(z, c));
    assert CalledBack(c).inflight == [];
    assert Flushed(z, CalledBack(c).(congested := false)) == (CalledBack(c).(congested := false), true);
    assert s2.conn.wire[k] == Frame(k + 1, Zeros(n));
    var s3 := Step(z, s2, Deliver);
    assert Idle(w, s3, k + 1, d + n);
    var es := Round(n);
    assert Steps(z, s, es) == Steps(z, s1, es[1..]);
    assert es[1..][1..] == [Deliver];
    assert Steps(z, s1, es[1..]) == Steps(z, s2, [Deliver]);
    assert [Deliver][1..] == [];
    assert Steps(z, s2, [Deliver]) == s3;
  }

  lemma {:induction false} Blocks(z: Config, w: nat, s: Sys, k: nat, d: nat, n: nat)
    requires Idle(w, s, k, d) && n > 0 && k + 1 < U48_MAX
    requires d + n > w || k >= z.maxOutstanding || n + 17 > z.sendQueue
    ensures Stuck(Steps(z, s, OneChunk(n)))
  {
    var e := Enqueued(s.conn, Zeros(n));
    var item := e.pendingOut[0];
    assert item == Item(Zeros(n), s.conn.nextLease) && item.lease in e.refs;
    assert Total(e.inflight) == 0;
    assert !CanSend(z, e, n) || !Room(z, e, n);
    assert OneChunk(n)[1..] == [];
    assert Steps(z, s, OneChunk(n)) == s.(conn := Output(z, s.conn, Zeros(n), true));
  }

  lemma {:induction false} ManySmall(z: Config, w: nat, k: nat) returns (es: seq<Event>)
    requires w > 0 && k <= z.maxOutstanding && k < 128 && 4 * k < w && 18 <= z.sendQueue
    ensures AllChunked(es, 1) && Idle(w, Steps(z, Start(w), es), k, k)
    decreases k
  {
    if k == 0 {
      es := [];
    } else {
      var before := ManySmall(z, w, k - 1);
      OneMore(z, w, Steps(z, Start(w), before), k - 1, k - 1, 1);
      StepsAppend(z, Start(w), before, Round(1));
      es := before + Round(1);
    }
  }

  /** Without fitting limits there is a run that ends stuck, with chunks of the allowed size only. */
  lemma {:induction false} UnfittingGetsStuck(z: Config, w: nat, chunk: nat) returns (es: seq<Event>)
    requires w > 0 && chunk > 0 && !Fits(z, w, chunk)
    ensures AllChunked(es, chunk) && Stuck(Steps(z, Start(w), es))
  {
    var quiet := Silent(w);
    if chunk + 17 > z.sendQueue || chunk > w || z.maxOutstanding == 0 {
      es := OneChunk(chunk);
      Blocks(z, w, Start(w), 0, 0, chunk);
    } else if chunk > w - quiet {
      OneMore(z, w, Start(w), 0, 0, quiet);
      Blocks(z, w, Steps(z, Start(w), Round(quiet)), 1, quiet, chunk);
      StepsAppend(z, Start(w), Round(quiet), OneChunk(chunk));
      es := Round(quiet) + OneChunk(chunk);
    } else {
      var before := ManySmall(z, w, z.maxOutstanding);
      Blocks(z, w, Steps(z, Start(w), before), z.maxOutstanding, z.maxOutstanding, 1);
      StepsAppend(z, Start(w), before, OneChunk(1));
      es := before + OneChunk(1);
    }
  }

  /**
   * The exact condition, which a configuration can be checked for: no run with chunks of 1 to `chunk` bytes comes to
   * rest with output waiting if and only if the limits fit.
   */
  lemma {:induction false} DeadlockFreeIff(z: Config, w: nat, chunk: nat)
    requires 0 < w <= z.window && chunk > 0
    ensures Fits(z, w, chunk) <==> forall es :: AllChunked(es, chunk) ==> !Stuck(Steps(z, Start(w), es))
  {
    if Fits(z, w, chunk) {
      StartOk(z, w);
      forall es | AllChunked(es, chunk) ensures !Stuck(Steps(z, Start(w), es)) {
        StepsKeep(z, w, Start(w), es);
        StepsPoised(z, w, chunk, Start(w), es);
        FittingIsNeverStuck(z, w, chunk, Steps(z, Start(w), es));
      }
    } else {
      var es := UnfittingGetsStuck(z, w, chunk);
    }
  }

  /** The sufficient condition a deployment is told: a window of two chunks, 128 frames, and a socket budget for one. */
  lemma {:induction false} TwoChunksSuffice(z: Config, w: nat, chunk: nat)
    requires chunk > 0 && 2 * chunk <= w && z.maxOutstanding >= 128 && chunk + 17 <= z.sendQueue
    ensures Fits(z, w, chunk)
  {}

  /** The smallest window the configuration accepts is one chunk: too small. */
  lemma {:induction false} SmallestWindowDeadlocks(z: Config)
    requires z.window >= 16384
    ensures exists es :: AllChunked(es, 16384) && Stuck(Steps(z, Start(16384), es))
  {
    assert !Fits(z, 16384, 16384);
    var es := UnfittingGetsStuck(z, 16384, 16384);
  }

  /** So is the smallest number of unconsumed frames, with any window of more than 32 bytes. */
  lemma {:induction false} FewestFramesDeadlock(z: Config, w: nat)
    requires 32 < w <= z.window && z.maxOutstanding == 8
    ensures exists es :: AllChunked(es, 16384) && Stuck(Steps(z, Start(w), es))
  {
    assert !Fits(z, w, 16384);
    var es := UnfittingGetsStuck(z, w, 16384);
  }
}
