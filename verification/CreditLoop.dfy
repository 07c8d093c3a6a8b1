/** The sender and the crediting client. */
module CreditLoop {
  // The client is runtime/hermit/client/ws-adapter.js. The two ends renew credit by different rules; the client is
  // never accused of a violation, and shows the output in order.

  import opened Common
  import opened CreditModel
  import opened CreditSafety

  // ------------------------------------------------------------------ the client

  datatype Grant = Grant(consumedSeq: nat, creditBytes: nat)

  datatype Rec = Rec(
    window: nat, lastOut: nat, consumedBytes: nat, creditBytes: nat, creditedAt: nat, sinceCredit: nat,
    shown: seq<seq<Byte>>, gaps: nat)

  function Fresh(window: nat): Rec { Rec(window, 0, 0, window, 0, 0, [], 0) }

  function Taken(r: Rec, f: Frame): Rec {
    r.(gaps := r.gaps + if f.seqNo == r.lastOut + 1 then 0 else 1,
       lastOut := f.seqNo, consumedBytes := r.consumedBytes + |f.payload|,
       sinceCredit := r.sinceCredit + 1, shown := r.shown + [f.payload])
  }

  /** A quarter of the window consumed, or less than half of it left, or 128 frames. */
  predicate Renews(r: Rec) {
    || 4 * (r.consumedBytes - r.creditedAt) >= r.window
    || 2 * (r.creditBytes - r.consumedBytes) < r.window
    || r.sinceCredit >= 128
  }

  function Credited(r: Rec): Rec {
    r.(creditBytes := r.consumedBytes + r.window, creditedAt := r.consumedBytes, sinceCredit := 0)
  }

  function Receive(r: Rec, f: Frame): (Rec, seq<Grant>) {
    var t := Taken(r, f);
    if Renews(t) then (Credited(t), [Grant(t.lastOut, Credited(t).creditBytes)]) else (t, [])
  }

  // ------------------------------------------------------------------ the two together

  /** Frames delivered so far and grants applied so far: both directions of the socket are in order. */
  datatype Sys = Sys(conn: Conn, delivered: nat, rec: Rec, grants: seq<Grant>, applied: nat)

  datatype Event = Serve(op: Op) | Deliver | Apply

  function Start(w: nat): Sys { Sys(Opened(w), 0, Fresh(w), [], 0) }

  function Step(z: Config, s: Sys, e: Event): Sys {
    match e
    case Serve(op) => if op.DoCredit? then s else s.(conn := Do(z, s.conn, op))
    case Deliver =>
      if s.delivered < |s.conn.wire| then
        var (r, g) := Receive(s.rec, s.conn.wire[s.delivered]);
        s.(delivered := s.delivered + 1, rec := r, grants := s.grants + g)
      else s
    case Apply =>
      if s.applied < |s.grants| then
        var g := s.grants[s.applied];
        s.(conn := Credit(z, s.conn, g.consumedSeq, g.creditBytes), applied := s.applied + 1)
      else s
  }

  function Steps(z: Config, s: Sys, es: seq<Event>): Sys
    decreases |es|
  {
    if es == [] then s else Steps(z, Step(z, s, es[0]), es[1..])
  }

  lemma {:induction false} StepsAppend(z: Config, s: Sys, es: seq<Event>, more: seq<Event>)
    ensures Steps(z, s, es + more) == Steps(z, Steps(z, s, es), more)
    decreases |es|
  {
    if es == [] {
      assert es + more == more;
    } else {
      assert (es + more)[1..] == es[1..] + more;
      StepsAppend(z, Step(z, s, es[0]), es[1..], more);
    }
  }

  // ------------------------------------------------------------------ how the server's log grows

  /** The log only grows, and nothing but credit moves what the client has reported or granted. */
  predicate Extends(c: Conn, d: Conn) {
    c.wire <= d.wire && d.consumedSeq == c.consumedSeq && d.creditBytes == c.creditBytes
  }

  lemma {:induction false} FlushedExtends(z: Config, c: Conn)
    ensures Extends(c, Flushed(z, c).0)
    decreases |c.pendingOut|
  {
    if c.pendingOut != [] && CanSend(z, c, |c.pendingOut[0].payload|) {
      if c.pendingOut[0].lease !in c.refs {
        FlushedExtends(z, c.(pendingOut := c.pendingOut[1..]));
      } else if c.outSeq + 1 < U48_MAX && c.wsOpen && Room(z, c, |c.pendingOut[0].payload|) {
        FlushedExtends(z, SendFirst(z, c));
      }
    }
  }

  lemma {:induction false} FlushExtends(z: Config, c: Conn)
    ensures Extends(c, Flush(z, c)) && (Flush(z, c).phase == Active ==> c.phase == Active)
  {
    FlushedExtends(z, c);
    FlushedPhase(z, c);
  }

  lemma {:induction false} FlushedPhase(z: Config, c: Conn)
    ensures Flushed(z, c).0.phase == Active ==> c.phase == Active
    decreases |c.pendingOut|
  {
    if c.pendingOut != [] && CanSend(z, c, |c.pendingOut[0].payload|) {
      if c.pendingOut[0].lease !in c.refs {
        FlushedPhase(z, c.(pendingOut := c.pendingOut[1..]));
      } else if c.outSeq + 1 < U48_MAX && c.wsOpen && Room(z, c, |c.pendingOut[0].payload|) {
        FlushedPhase(z, SendFirst(z, c));
      }
    }
  }

  lemma {:induction false} ServeExtends(z: Config, c: Conn, op: Op)
    requires !op.DoCredit?
    ensures Extends(c, Do(z, c, op)) && (Do(z, c, op).phase == Active ==> c.phase == Active)
  {
    if op.DoOutput? {
      FlushExtends(z, Enqueued(c, op.payload));
    } else if op.DoSettle? {
      if c.inflight != [] { FlushExtends(z, CalledBack(c).(congested := false)); }
    } else if op.DoDrain? {
      FlushExtends(z, c.(congested := false));
    }
  }

  // ------------------------------------------------------------------ the invariant

  function LastSeq(grants: seq<Grant>, k: nat): nat
    requires k <= |grants|
  {
    if k == 0 then 0 else grants[k - 1].consumedSeq
  }

  /** The window counted from the bytes of a prefix of the log. */
  function Until(wire: seq<Frame>, n: nat): nat { if n <= |wire| then Bytes(wire[..n]) else 0 }

  ghost predicate GrantAt(w: nat, s: Sys, k: nat) {
    k < |s.grants| ==>
      && LastSeq(s.grants, k) <= s.grants[k].consumedSeq <= s.delivered
      && s.grants[k].creditBytes == Until(s.conn.wire, s.grants[k].consumedSeq) + w
  }

  /** The client has what was delivered, in order, and its credit is the window beyond its last grant. */
  ghost predicate ClientOk(w: nat, s: Sys) {
    var last := LastSeq(s.grants, |s.grants|);
    && s.delivered <= |s.conn.wire|
    && s.rec.window == w && s.rec.lastOut == s.delivered && s.rec.gaps == 0
    && s.rec.consumedBytes == Until(s.conn.wire, s.delivered)
    && s.rec.shown == Payloads(s.conn.wire[..s.delivered])
    && last <= s.delivered
    && s.rec.creditedAt == Until(s.conn.wire, last) && s.rec.creditBytes == s.rec.creditedAt + w
    && s.rec.sinceCredit == s.delivered - last < 128
    && 4 * (s.rec.consumedBytes - s.rec.creditedAt) < w
  }

  ghost predicate ServerOk(w: nat, s: Sys) {
    && s.applied <= |s.grants|
    && (s.conn.phase == Active ==>
          && s.conn.consumedSeq == LastSeq(s.grants, s.applied)
          && s.conn.creditBytes == Until(s.conn.wire, s.conn.consumedSeq) + w)
  }

  ghost predicate Inv(z: Config, w: nat, s: Sys) {
    && Valid(z, s.conn)
    && ClientOk(w, s)
    && (forall k: nat :: GrantAt(w, s, k))
    && ServerOk(w, s)
  }

  lemma {:induction false} UntilGrows(wire: seq<Frame>, more: seq<Frame>, n: nat)
    requires wire <= more && n <= |wire|
    ensures Until(more, n) == Until(wire, n) && more[..n] == wire[..n]
  {}

  lemma {:induction false} GrantsOrdered(w: nat, s: Sys, i: nat, j: nat)
    requires forall k: nat :: GrantAt(w, s, k)
    requires i <= j <= |s.grants|
    ensures LastSeq(s.grants, i) <= LastSeq(s.grants, j)
    decreases j
  {
    if i < j {
      assert GrantAt(w, s, j - 1);
      GrantsOrdered(w, s, i, j - 1);
    }
  }

  // ------------------------------------------------------------------ steps keep it

  lemma {:induction false} ServeKeeps(z: Config, w: nat, s: Sys, op: Op)
    requires Inv(z, w, s) && !op.DoCredit?
    ensures Inv(z, w, s.(conn := Do(z, s.conn, op)))
  {
    var d := Do(z, s.conn, op);
    var t := s.(conn := d);
    DoKeeps(z, s.conn, op);
    ServeExtends(z, s.conn, op);
    LogGrows(z, w, s, d);
  }

  lemma {:induction false} LogGrows(z: Config, w: nat, s: Sys, d: Conn)
    requires Inv(z, w, s) && Valid(z, d) && s.conn.wire <= d.wire
    requires d.phase == Active ==>
      s.conn.phase == Active && d.consumedSeq == s.conn.consumedSeq && d.creditBytes == s.conn.creditBytes
    ensures Inv(z, w, s.(conn := d))
  {
    var t := s.(conn := d);
    var last := LastSeq(s.grants, |s.grants|);
    UntilGrows(s.conn.wire, d.wire, s.delivered);
    UntilGrows(s.conn.wire, d.wire, last);
    forall k: nat ensures GrantAt(w, t, k) {
      assert GrantAt(w, s, k);
      if k < |s.grants| { UntilGrows(s.conn.wire, d.wire, s.grants[k].consumedSeq); }
    }
    if d.phase == Active {
      GrantsOrdered(w, s, s.applied, |s.grants|);
      UntilGrows(s.conn.wire, d.wire, s.conn.consumedSeq);
    }
  }

  lemma {:induction false} DeliverKeeps(z: Config, w: nat, s: Sys)
    requires Inv(z, w, s) && w > 0
    ensures Inv(z, w, Step(z, s, Deliver))
  {
    if s.delivered < |s.conn.wire| {
      var f := s.conn.wire[s.delivered];
      var t := Step(z, s, Deliver);
      NextFrame(s.conn, s.delivered);
      assert t.conn == s.conn;
      GrantsGrow(w, s, t);
      LastGrows(s, t);
    }
  }

  lemma {:induction false} LastGrows(s: Sys, t: Sys)
    requires |s.grants| <= |t.grants| && t.grants[..|s.grants|] == s.grants && s.applied <= |s.grants|
    ensures LastSeq(t.grants, s.applied) == LastSeq(s.grants, s.applied)
  {
    if s.applied > 0 { assert t.grants[..|s.grants|][s.applied - 1] == t.grants[s.applied - 1]; }
  }

  lemma {:induction false} NextFrame(c: Conn, n: nat)
    requires WireOk(c) && n < |c.wire|
    ensures c.wire[n].seqNo == n + 1
    ensures Until(c.wire, n + 1) == Until(c.wire, n) + |c.wire[n].payload|
    ensures Payloads(c.wire[..n + 1]) == Payloads(c.wire[..n]) + [c.wire[n].payload]
  {
    assert NumberAt(c, n);
    assert c.wire[..n + 1][..n] == c.wire[..n];
  }

  lemma {:induction false} GrantsGrow(w: nat, s: Sys, t: Sys)
    requires forall k: nat :: GrantAt(w, s, k)
    requires t.conn == s.conn && s.delivered + 1 == t.delivered <= |s.conn.wire|
    requires LastSeq(s.grants, |s.grants|) <= s.delivered
    requires t.grants == s.grants || t.grants == s.grants + [Grant(t.delivered, Until(s.conn.wire, t.delivered) + w)]
    ensures forall k: nat :: GrantAt(w, t, k)
  {
    forall k: nat ensures GrantAt(w, t, k) {
      assert GrantAt(w, s, k);
      if 0 < k < |t.grants| { assert t.grants[k - 1] == s.grants[k - 1]; }
    }
  }

  /**
   * A client that follows `credit` is never accused: what it grants is in range, does not decrease, and fits the
   * window.
   */
  lemma {:induction false} NeverAccused(z: Config, w: nat, s: Sys)
    requires Inv(z, w, s) && w <= z.window && s.conn.phase == Active && s.applied < |s.grants|
    ensures !CreditViolates(z, s.conn, s.grants[s.applied].consumedSeq, s.grants[s.applied].creditBytes)
  {
    assert GrantAt(w, s, s.applied);
    var g := s.grants[s.applied];
    BytesGrow(s.conn.wire, s.conn.consumedSeq, g.consumedSeq);
    ConsumedMarks(s.conn, g.consumedSeq);
  }

  lemma {:induction false} ApplyKeeps(z: Config, w: nat, s: Sys)
    requires Inv(z, w, s) && w <= z.window
    ensures Inv(z, w, Step(z, s, Apply))
  {
    if s.applied < |s.grants| {
      var g := s.grants[s.applied];
      var d := Credit(z, s.conn, g.consumedSeq, g.creditBytes);
      CreditKeeps(z, s.conn, g.consumedSeq, g.creditBytes);
      if s.conn.phase == Active {
        NeverAccused(z, w, s);
        AppliedKeeps(z, w, s, g);
      } else {
        assert d == s.conn;
        var t := s.(applied := s.applied + 1);
        forall k: nat ensures GrantAt(w, t, k) { assert GrantAt(w, s, k); }
      }
    }
  }

  lemma {:induction false} AppliedKeeps(z: Config, w: nat, s: Sys, g: Grant)
    requires Inv(z, w, s) && s.conn.phase == Active && s.applied < |s.grants| && g == s.grants[s.applied]
    requires !CreditViolates(z, s.conn, g.consumedSeq, g.creditBytes)
    ensures Inv(z, w, s.(conn := Credit(z, s.conn, g.consumedSeq, g.creditBytes), applied := s.applied + 1))
  {
    assert GrantAt(w, s, s.applied);
    var a := Acknowledged(s.conn, g.consumedSeq).(creditBytes := g.creditBytes);
    AcknowledgedKeeps(z, s.conn, g.consumedSeq);
    SameLedger(z, Acknowledged(s.conn, g.consumedSeq), a);
    var t := s.(conn := a, applied := s.applied + 1);
    forall k: nat ensures GrantAt(w, t, k) { assert GrantAt(w, s, k); }
    FlushKeeps(z, a);
    FlushExtends(z, a);
    LogGrows(z, w, t, Flush(z, a));
  }

  lemma {:induction false} StepKeeps(z: Config, w: nat, s: Sys, e: Event)
    requires Inv(z, w, s) && 0 < w <= z.window
    ensures Inv(z, w, Step(z, s, e))
  {
    match e
    case Serve(op) =>
      if !op.DoCredit? { ServeKeeps(z, w, s, op); }
    case Deliver => DeliverKeeps(z, w, s);
    case Apply => ApplyKeeps(z, w, s);
  }

  lemma {:induction false} StepsKeep(z: Config, w: nat, s: Sys, es: seq<Event>)
    requires Inv(z, w, s) && 0 < w <= z.window
    ensures Inv(z, w, Steps(z, s, es))
    decreases |es|
  {
    if es != [] {
      StepKeeps(z, w, s, es[0]);
      StepsKeep(z, w, Step(z, s, es[0]), es[1..]);
    }
  }

  lemma {:induction false} StartOk(z: Config, w: nat)
    requires 0 < w <= z.window
    ensures Inv(z, w, Start(w))
  {
    OpenedValid(z, w);
  }

  /** In every run: no gap is shown, what is shown is the beginning of what was sent, and no grant is a violation. */
  lemma {:induction false} ClientSeesOrder(z: Config, w: nat, es: seq<Event>)
    requires 0 < w <= z.window
    ensures var s := Steps(z, Start(w), es);
      && s.rec.gaps == 0
      && s.delivered <= |s.conn.wire| && s.rec.shown == Payloads(s.conn.wire[..s.delivered])
      && (s.conn.phase == Active && s.applied < |s.grants| ==>
            !CreditViolates(z, s.conn, s.grants[s.applied].consumedSeq, s.grants[s.applied].creditBytes))
  {
    StartOk(z, w);
    StepsKeep(z, w, Start(w), es);
    var s := Steps(z, Start(w), es);
    if s.conn.phase == Active && s.applied < |s.grants| { NeverAccused(z, w, s); }
  }
}
