/** All accepted output is shown. */
module Delivery {
  // Turns that need nothing from outside use up the work that is left, each of them some of it. Whatever their order,
  // they come to an end, and there the client has shown all output that was accepted.

  import opened Common
  import G = GateModel
  import opened CreditModel
  import opened CreditSafety
  import opened CreditLoop
  import opened CreditDeadlock
  import opened P = Pipeline

  // ------------------------------------------------------------------ work that is left

  /** A turn that nobody outside has to ask for, and that has something to do. */
  predicate Ready(p: Pipe, t: Turn) {
    match t
    case Arrive(granted) => granted && p.arrived < |p.gate.sent|
    case Net(Deliver) => p.sys.delivered < |p.sys.conn.wire|
    case Net(Apply) => p.sys.applied < |p.sys.grants|
    case Net(Serve(op)) => op.DoSettle? && p.sys.conn.inflight != []
    case Report => p.sys.conn.reported > p.told
    case Hear => p.noted < |p.notes|
    case FromGate(op) => op.DoSinkDrained? && p.gate.sinkFull
  }

  function One(b: bool): nat { if b then 1 else 0 }

  /** A payload that waits becomes a frame to deliver and a write to call back. */
  function Load(c: Conn): int { 12 * |c.pendingOut| + 3 * |c.inflight| + 4 * |c.wire| }

  function GateLoad(g: G.Gate): int { 18 * |g.queue| + 16 * |g.sent| + One(g.sinkFull) }

  function Work(p: Pipe): int {
    GateLoad(p.gate) - 16 * p.arrived + Load(p.sys.conn) - 4 * p.sys.delivered + One(p.sys.conn.congested)
    + 3 * (|p.sys.grants| - p.sys.applied) + (|p.notes| - p.noted) + 2 * One(p.sys.conn.reported > p.told)
  }

  lemma {:induction false} WorkIsLeft(y: Setup, p: Pipe)
    requires Whole(y, p)
    ensures Work(p) >= 0
  {
    assert p.sys.delivered <= |p.sys.conn.wire| && p.sys.applied <= |p.sys.grants|;
    assert p.arrived <= |p.gate.sent| && p.noted <= |p.notes|;
  }

  // ------------------------------------------------------------------ each turn does some of it

  lemma {:induction false} FlushedLoad(z: Config, c: Conn)
    ensures var f := Flushed(z, c).0;
      && Load(f) <= Load(c) && f.reported >= c.reported
      && (f.reported > c.reported ==> Load(f) <= Load(c) - 5)
    decreases |c.pendingOut|
  {
    if c.pendingOut != [] && CanSend(z, c, |c.pendingOut[0].payload|) {
      if c.pendingOut[0].lease !in c.refs {
        FlushedLoad(z, c.(pendingOut := c.pendingOut[1..]));
      } else if c.outSeq + 1 < U48_MAX && c.wsOpen && Room(z, c, |c.pendingOut[0].payload|) {
        FlushedLoad(z, SendFirst(z, c));
      }
    }
  }

  lemma {:induction false} FlushLoad(z: Config, c: Conn)
    ensures var f := Flush(z, c);
      && Load(f) <= Load(c) && f.reported >= c.reported
      && (f.reported > c.reported ==> Load(f) <= Load(c) - 5)
  {
    FlushedLoad(z, c);
  }

  /** What a step of the sender may leave: its load, its congestion, reports to make, and a note to the worker. */
  function Left(c: Conn, d: Conn): int {
    Load(d) + One(d.congested) + 2 * One(d.reported > c.reported) + |Change(c, d)|
  }

  lemma {:induction false} OutputLeaves(z: Config, c: Conn, payload: seq<Byte>)
    ensures Left(c, Output(z, c, payload, true)) <= Load(c) + One(c.congested) + 14
    ensures Output(z, c, payload, true).reported >= c.reported
  {
    hide Flush;
    FlushLoad(z, Enqueued(c, payload));
  }

  lemma {:induction false} CreditLeaves(z: Config, c: Conn, consumedSeq: int, creditBytes: int)
    ensures Left(c, Credit(z, c, consumedSeq, creditBytes)) <= Load(c) + One(c.congested) + 2
    ensures Credit(z, c, consumedSeq, creditBytes).reported >= c.reported
  {
    hide Flush;
    if c.phase == Active && !CreditRefused(c, consumedSeq, creditBytes) {
      FlushLoad(z, Acknowledged(c, consumedSeq).(creditBytes := creditBytes));
    }
  }

  lemma {:induction false} SettleLeaves(z: Config, c: Conn)
    requires c.inflight != []
    ensures Left(c, Settled(z, c)) <= Load(c) + One(c.congested) - 2
    ensures Settled(z, c).reported >= c.reported
  {
    hide Flush;
    FlushLoad(z, CalledBack(c).(congested := false));
  }

  lemma {:induction false} PumpedLoad(z: G.Limits, g: G.Gate, full: nat -> bool)
    ensures GateLoad(G.Pumped(z, g, full)) <= GateLoad(g)
    decreases |g.queue|
  {
    if !(g.queue == [] || g.remotePaused || g.sinkFull) { PumpedLoad(z, G.Shift(g, full), full); }
  }

  lemma {:induction false} HeardLoad(y: Setup, g: G.Gate, n: Note)
    requires SetupOk(y)
    ensures GateLoad(Heard(y, g, n)) <= GateLoad(g)
  {
    match n
    case Pause(on) => PumpedLoad(y.gate, g.(remotePaused := on), y.full);
    case Eaten(bytes) =>
      PumpedLoad(y.gate, g.(inflight := if bytes > g.inflight then 0 else g.inflight - bytes), y.full);
  }

  /** Every turn that has something to do leaves less to be done. */
  lemma {:induction false} TurnWorks(y: Setup, p: Pipe, t: Turn)
    requires SetupOk(y) && Ready(p, t)
    ensures Work(Turned(y, p, t)) < Work(p)
  {
    hide Output, Credit, Settled, Flush, Heard, Load, Change;
    match t
    case Arrive(granted) => OutputLeaves(y.conn, p.sys.conn, p.gate.sent[p.arrived].data);
    case Net(Deliver) => Unchanged(p.sys.conn);
    case Net(Apply) =>
      var g := p.sys.grants[p.sys.applied];
      CreditLeaves(y.conn, p.sys.conn, g.consumedSeq, g.creditBytes);
    case Net(Serve(op)) => SettleLeaves(y.conn, p.sys.conn);
    case Report =>
    case Hear => HeardLoad(y, p.gate, p.notes[p.noted]);
    case FromGate(op) => PumpedLoad(y.gate, p.gate.(sinkFull := false), y.full);
  }

  lemma {:induction false} Unchanged(c: Conn)
    ensures Change(c, c) == []
  {}

  // ------------------------------------------------------------------ and there is an end to it

  /**
   * A ready turn that the link to the worker lets happen: the one to a thread goes on reading while it is paused; the
   * one to a process stops, so that nothing arrives and a full pipe does not drain (`reading`,
   * runtime/hermit/gateway/worker-link.js).
   */
  predicate Going(reading: bool, p: Pipe, t: Turn) {
    Ready(p, t) && (p.sys.conn.paused && (t.Arrive? || t.FromGate?) ==> reading)
  }

  predicate AllGoing(y: Setup, reading: bool, p: Pipe, ts: seq<Turn>)
    requires y.gate.chunkBytes > 0
    decreases |ts|
  {
    ts == [] || (Going(reading, p, ts[0]) && AllGoing(y, reading, Turned(y, p, ts[0]), ts[1..]))
  }

  lemma {:induction false} ReadyKeeps(y: Setup, p: Pipe, t: Turn)
    requires SetupOk(y) && Whole(y, p) && Ready(p, t)
    ensures Whole(y, Turned(y, p, t)) && GoodTurn(y, t)
    ensures G.Output(Turned(y, p, t).gate) == G.Output(p.gate)
  {
    hide Whole;
    TurnKeeps(y, p, t);
    SameOutput(y, p, t);
  }

  lemma {:induction false} SameOutput(y: Setup, p: Pipe, t: Turn)
    requires SetupOk(y) && Whole(y, p) && Ready(p, t)
    ensures G.Output(Turned(y, p, t).gate) == G.Output(p.gate)
  {
    assert G.Output(p.gate) + [] == G.Output(p.gate);
    match t
    case Hear =>
      match p.notes[p.noted] {
        case Pause(on) => G.DoKeeps(y.gate, p.gate, G.DoSetRemotePaused(on), y.full);
        case Eaten(n) => G.DoKeeps(y.gate, p.gate, G.DoConsumed(n), y.full);
      }
    case FromGate(op) => G.DoKeeps(y.gate, p.gate, op, y.full);
    case _ =>
  }

  /** In whatever order: no more turns are taken than there is work. */
  lemma {:induction false} TurnsRunOut(y: Setup, reading: bool, p: Pipe, ts: seq<Turn>)
    requires SetupOk(y) && Whole(y, p) && AllGoing(y, reading, p, ts)
    ensures |ts| <= Work(p) && Whole(y, P.Run(y, p, ts)) && G.Output(P.Run(y, p, ts).gate) == G.Output(p.gate)
    decreases |ts|
  {
    hide Whole, Ready, Turned, Work;
    WorkIsLeft(y, p);
    if ts != [] {
      ReadyKeeps(y, p, ts[0]);
      TurnWorks(y, p, ts[0]);
      TurnsRunOut(y, reading, Turned(y, p, ts[0]), ts[1..]);
    }
  }

  /** When nothing goes on, all is at rest. */
  lemma {:induction false} NothingGoing(reading: bool, p: Pipe)
    requires forall t :: !Going(reading, p, t)
    requires p.arrived <= |p.gate.sent| && p.told <= p.sys.conn.reported && p.noted <= |p.notes|
    requires p.sys.delivered <= |p.sys.conn.wire| && p.sys.applied <= |p.sys.grants| && Live(p.sys.conn)
    ensures AtRestAll(p)
  {
    assert !Going(reading, p, Arrive(true)) && !Going(reading, p, Net(Deliver)) && !Going(reading, p, Net(Apply))
        && !Going(reading, p, Net(Serve(DoSettle)));
    assert !Going(reading, p, Report) && !Going(reading, p, Hear) && !Going(reading, p, FromGate(G.DoSinkDrained));
  }

  /**
   * Delivery. From whatever state a run has reached, and in whatever order the parts then act without being asked, they
   * stop after a number of turns that the state bounds; and where they stop, unless the session has ended, the client
   * has shown exactly the stream that the gate had accepted. It is so whether or not a paused link is read.
   */
  lemma {:induction false} AllIsDelivered(y: Setup, reading: bool, ts: seq<Turn>, more: seq<Turn>)
    requires SetupOk(y) && Fits(y.conn, y.window, y.gate.chunkBytes)
    requires forall t :: t in ts ==> GoodTurn(y, t)
    requires AllGoing(y, reading, P.Run(y, Begin(y), ts), more)
    ensures var p := P.Run(y, Begin(y), ts); var q := P.Run(y, p, more);
      && |more| <= Work(p)
      && ((forall t :: !Going(reading, q, t)) && Live(q.sys.conn) ==>
            q.gate.queue == [] && q.gate.waiters == [] && q.sys.rec.gaps == 0
                && Joined(q.sys.rec.shown) == G.Output(p.gate))
  {
    hide Work, Ready, Going, Turned, AtRestAll;
    BeginWhole(y);
    P.RunKeeps(y, Begin(y), ts);
    var p := P.Run(y, Begin(y), ts);
    TurnsRunOut(y, reading, p, more);
    var q := P.Run(y, p, more);
    if (forall t :: !Going(reading, q, t)) && Live(q.sys.conn) {
      Counted(y, q);
      NothingGoing(reading, q);
      RestDelivers(y, q);
    }
  }

  lemma {:induction false} Counted(y: Setup, p: Pipe)
    requires Whole(y, p)
    ensures p.arrived <= |p.gate.sent| && p.told <= p.sys.conn.reported && p.noted <= |p.notes|
    ensures p.sys.delivered <= |p.sys.conn.wire| && p.sys.applied <= |p.sys.grants|
  {}

  /** Such an end can be reached from every state. */
  lemma {:induction false} ComesToRest(y: Setup, reading: bool, p: Pipe) returns (ts: seq<Turn>)
    requires SetupOk(y) && Whole(y, p)
    ensures AllGoing(y, reading, p, ts) && forall t :: !Going(reading, P.Run(y, p, ts), t)
    decreases Work(p)
  {
    hide Whole, Turned, Work, Ready;
    if t :| Going(reading, p, t) {
      WorkIsLeft(y, p);
      ReadyKeeps(y, p, t);
      TurnWorks(y, p, t);
      var rest := ComesToRest(y, reading, Turned(y, p, t));
      ts := [t] + rest;
      assert ts[1..] == rest;
    } else {
      ts := [];
    }
  }
}
