/** The whole way of terminal output: at rest, all is shown. */
module Pipeline {
  // The worker's gate, the link to the gateway, the sender, the socket, the client, and the three ways back
  // (consumption reports, pause and resume, byte credit).

  import opened Common
  import G = GateModel
  import opened CreditModel
  import opened CreditSafety
  import opened CreditTheorems
  import opened CreditLoop
  import opened CreditDeadlock

  datatype Setup = Setup(gate: G.Limits, full: nat -> bool, conn: Config, window: nat)

  /** What the gateway tells the worker, in order. */
  datatype Note = Pause(on: bool) | Eaten(n: nat)

  /** Chunks of the gate's log that have arrived, notes that have been heard, and consumed bytes already reported. */
  datatype Pipe = Pipe(gate: G.Gate, arrived: nat, sys: Sys, notes: seq<Note>, noted: nat, told: nat)

  datatype Turn =
    | FromGate(op: G.Op)
    | Arrive(granted: bool)
    | Net(e: Event)
    | Report
    | Hear

  function Begin(y: Setup): Pipe { Pipe(G.START, 0, Start(y.window), [], 0, 0) }

  /** `_flow` tells the worker when it starts or stops waiting. */
  function Change(c: Conn, d: Conn): seq<Note> {
    if d.phase == Active && c.paused != d.paused then [Pause(d.paused)] else []
  }

  function Served(p: Pipe, t: Sys): Pipe { p.(sys := t, notes := p.notes + Change(p.sys.conn, t.conn)) }

  predicate Internal(e: Event) { e.Serve? ==> !e.op.DoOutput? && !e.op.DoCredit? }

  function Heard(y: Setup, g: G.Gate, n: Note): G.Gate
    requires y.gate.chunkBytes > 0
  {
    match n
    case Pause(on) => G.SetRemotePaused(y.gate, g, on, y.full)
    case Eaten(bytes) => G.Consumed(y.gate, g, bytes, y.full)
  }

  function Turned(y: Setup, p: Pipe, t: Turn): Pipe
    requires y.gate.chunkBytes > 0
  {
    match t
    case FromGate(op) =>
      if op.DoConsumed? || op.DoSetRemotePaused? then p else p.(gate := G.Do(y.gate, p.gate, op, y.full))
    case Arrive(granted) =>
      if p.arrived < |p.gate.sent| then
        Served(p, Step(y.conn, p.sys, Serve(DoOutput(p.gate.sent[p.arrived].data, granted)))).(arrived := p.arrived + 1)
      else p
    case Net(e) => if Internal(e) then Served(p, Step(y.conn, p.sys, e)) else p
    case Report =>
      if p.sys.conn.reported > p.told then
        p.(notes := p.notes + [Eaten(p.sys.conn.reported - p.told)], told := p.sys.conn.reported)
      else p
    case Hear =>
      if p.noted < |p.notes| then p.(gate := Heard(y, p.gate, p.notes[p.noted]), noted := p.noted + 1) else p
  }

  function Run(y: Setup, p: Pipe, ts: seq<Turn>): Pipe
    requires y.gate.chunkBytes > 0
    decreases |ts|
  {
    if ts == [] then p else Run(y, Turned(y, p, ts[0]), ts[1..])
  }

  // ------------------------------------------------------------------ the gate's log

  predicate ChunkOk(c: G.Chunk, size: nat) { 0 < |c.data| <= size }

  predicate ChunksOk(cs: seq<G.Chunk>, size: nat) { forall c :: c in cs ==> ChunkOk(c, size) }

  predicate MarkerOk(op: G.Op, size: nat) { op.DoWrite? ==> 0 < |op.marker| <= size }

  /** What leaves the gate is logged behind what left before, and counted in flight. */
  predicate Grows(g: G.Gate, h: G.Gate, size: nat) {
    && g.sent <= h.sent
    && h.inflight + G.Size(g.sent) == g.inflight + G.Size(h.sent)
    && ChunksOk(h.sent, size) && ChunksOk(h.queue, size)
  }

  lemma {:induction false} PumpedGrows(z: G.Limits, g: G.Gate, full: nat -> bool)
    requires ChunksOk(g.sent, z.chunkBytes) && ChunksOk(g.queue, z.chunkBytes)
    ensures Grows(g, G.Pumped(z, g, full), z.chunkBytes)
    decreases |g.queue|
  {
    if !(g.queue == [] || g.remotePaused || g.sinkFull) {
      var s := G.Shift(g, full);
      assert g.queue[0] in g.queue;
      assert ChunksOk(s.sent, z.chunkBytes) && ChunksOk(s.queue, z.chunkBytes);
      G.SizeAppend(g.sent, [g.queue[0]]);
      assert [g.queue[0]][1..] == [];
      if 2 * s.inflight <= z.maxPending { PumpedGrows(z, s, full); }
    }
  }

  lemma {:induction false} CutOk(data: seq<Byte>, size: nat)
    requires size > 0
    ensures ChunksOk(G.Cut(data, size), size)
  {
    G.CutKeeps(data, size);
  }

  lemma {:induction false} GateGrows(z: G.Limits, g: G.Gate, op: G.Op, full: nat -> bool)
    requires z.chunkBytes > 0 && MarkerOk(op, z.chunkBytes) && !op.DoConsumed?
    requires ChunksOk(g.sent, z.chunkBytes) && ChunksOk(g.queue, z.chunkBytes)
    ensures Grows(g, G.Do(z, g, op, full), z.chunkBytes)
    ensures !op.DoSetRemotePaused? ==> G.Do(z, g, op, full).remotePaused == g.remotePaused
  {
    match op
    case DoWrite(data, marker) =>
      CutOk(data, z.chunkBytes);
      var e := G.Enqueue(z, g, data, marker);
      assert ChunksOk(e.queue, z.chunkBytes);
      PumpedGrows(z, e, full);
      PumpedPauses(z, e, full);
    case DoSetRemotePaused(on) => PumpedGrows(z, g.(remotePaused := on), full);
    case DoSinkDrained =>
      PumpedGrows(z, g.(sinkFull := false), full);
      PumpedPauses(z, g.(sinkFull := false), full);
    case _ =>
  }

  lemma {:induction false} PumpedPauses(z: G.Limits, g: G.Gate, full: nat -> bool)
    ensures G.Pumped(z, g, full).remotePaused == g.remotePaused
    decreases |g.queue|
  {
    if !(g.queue == [] || g.remotePaused || g.sinkFull) { PumpedPauses(z, G.Shift(g, full), full); }
  }

  // ------------------------------------------------------------------ the sender's reports

  function Datas(cs: seq<G.Chunk>): seq<seq<Byte>> {
    if cs == [] then [] else Datas(cs[..|cs| - 1]) + [cs[|cs| - 1].data]
  }

  lemma {:induction false} NextArrival(cs: seq<G.Chunk>, n: nat)
    requires n < |cs|
    ensures Datas(cs[..n + 1]) == Datas(cs[..n]) + [cs[n].data]
    ensures G.Size(cs[..n + 1]) == G.Size(cs[..n]) + |cs[n].data|
  {
    assert cs[..n + 1][..n] == cs[..n];
    assert cs[..n + 1] == cs[..n] + [cs[n]];
    G.SizeAppend(cs[..n], [cs[n]]);
    assert [cs[n]][1..] == [];
  }

  lemma {:induction false} SizeOfPrefix(cs: seq<G.Chunk>, n: nat)
    requires n <= |cs|
    ensures G.Size(cs[..n]) <= G.Size(cs)
  {
    assert cs == cs[..n] + cs[n..];
    G.SizeAppend(cs[..n], cs[n..]);
  }

  /** Bytes handed over that are reported as off the worker's hands or still wait here. */
  function Taken(c: Conn): nat { c.reported + ItemBytes(c.pendingOut) }

  lemma {:induction false} FlushedTaken(z: Config, c: Conn)
    requires RefsOk(c)
    ensures Taken(Flushed(z, c).0) == Taken(c) && c.reported <= Flushed(z, c).0.reported
    decreases |c.pendingOut|
  {
    if c.pendingOut != [] && CanSend(z, c, |c.pendingOut[0].payload|) {
      FirstIsLive(c);
      if c.outSeq + 1 < U48_MAX && c.wsOpen && Room(z, c, |c.pendingOut[0].payload|) {
        SendRefs(z, c);
        FlushedTaken(z, SendFirst(z, c));
      }
    }
  }

  lemma {:induction false} ItemBytesAppend(items: seq<Item>, item: Item)
    ensures ItemBytes(items + [item]) == ItemBytes(items) + |item.payload|
    decreases |items|
  {
    if items == [] {
      assert (items + [item])[1..] == [];
    } else {
      assert (items + [item])[1..] == items[1..] + [item];
      ItemBytesAppend(items[1..], item);
    }
  }

  /** The worker is paused exactly while something waits. */
  predicate PauseOk(c: Conn) { c.phase == Active && !c.exited ==> (c.paused <==> c.pendingOut != []) && !c.discard }

  /** One step of the sender: what it takes, what it reports, and when it holds the worker. */
  predicate Serves(c: Conn, d: Conn, bytes: nat) {
    && c.reported <= d.reported
    && Taken(d) <= Taken(c) + bytes
    && (Live(d) ==> Live(c) && Taken(d) == Taken(c) + bytes)
    && PauseOk(d)
  }

  lemma {:induction false} FlushServes(z: Config, c: Conn)
    requires RefsOk(c) && (c.phase == Active ==> !c.discard)
    ensures Serves(c, Flush(z, c), 0)
  {
    FlushedTaken(z, c);
    FlushedLive(z, c);
    FlushedDiscard(z, c);
    FlushedStops(z, c);
  }

  lemma {:induction false} FlushedDiscard(z: Config, c: Conn)
    ensures Flushed(z, c).0.phase == Active ==> Flushed(z, c).0.discard == c.discard && c.phase == Active
    decreases |c.pendingOut|
  {
    if c.pendingOut != [] && CanSend(z, c, |c.pendingOut[0].payload|) {
      if c.pendingOut[0].lease !in c.refs {
        FlushedDiscard(z, c.(pendingOut := c.pendingOut[1..]));
      } else if c.outSeq + 1 < U48_MAX && c.wsOpen && Room(z, c, |c.pendingOut[0].payload|) {
        FlushedDiscard(z, SendFirst(z, c));
      }
    }
  }

  lemma {:induction false} FlushedStops(z: Config, c: Conn)
    ensures !Flushed(z, c).1 ==> Flushed(z, c).0.phase != Active
    decreases |c.pendingOut|
  {
    if c.pendingOut != [] && CanSend(z, c, |c.pendingOut[0].payload|) {
      if c.pendingOut[0].lease !in c.refs {
        FlushedStops(z, c.(pendingOut := c.pendingOut[1..]));
      } else if c.outSeq + 1 < U48_MAX && c.wsOpen && Room(z, c, |c.pendingOut[0].payload|) {
        FlushedStops(z, SendFirst(z, c));
      }
    }
  }

  lemma {:induction false} RelievedServes(z: Config, c: Conn)
    requires RefsOk(c) && PauseOk(c) && (c.phase == Active ==> !c.discard)
    ensures Serves(c, Relieved(z, c), 0)
  {
    var d := c.(congested := false);
    assert RefsOk(d) by {
      forall id: nat ensures RefAt(d, id) { assert RefAt(c, id); }
    }
    FlushServes(z, d);
  }

  lemma {:induction false} OutputServes(z: Config, c: Conn, payload: seq<Byte>, granted: bool)
    requires Valid(z, c) && PauseOk(c) && (c.phase == Active ==> !c.discard)
    ensures Serves(c, Output(z, c, payload, granted), |payload|)
  {
    if !c.discard && c.phase != Closed && granted {
      EnqueueKeeps(z, c, payload);
      FlushServes(z, Enqueued(c, payload));
      ItemBytesAppend(c.pendingOut, Item(payload, c.nextLease));
    }
  }

  lemma {:induction false} CreditServes(z: Config, c: Conn, consumedSeq: int, creditBytes: int)
    requires Valid(z, c) && PauseOk(c) && (c.phase == Active ==> !c.discard)
    ensures Serves(c, Credit(z, c, consumedSeq, creditBytes), 0)
  {
    if c.phase == Active && !CreditViolates(z, c, consumedSeq, creditBytes) {
      AcknowledgedKeeps(z, c, consumedSeq);
      var d := Acknowledged(c, consumedSeq).(creditBytes := creditBytes);
      SameLedger(z, Acknowledged(c, consumedSeq), d);
      FlushServes(z, d);
    }
  }

  predicate DiscardOk(c: Conn) { c.phase == Active ==> !c.discard }

  lemma {:induction false} OpServes(z: Config, c: Conn, op: Op)
    requires Valid(z, c) && PauseOk(c) && DiscardOk(c)
    ensures Serves(c, Do(z, c, op), if op.DoOutput? then |op.payload| else 0)
  {
    if op.DoOutput? {
      OutputServes(z, c, op.payload, op.granted);
    } else if op.DoCredit? {
      CreditServes(z, c, op.consumedSeq, op.creditBytes);
    } else if op.DoSettle? {
      if c.inflight != [] {
        CalledBackKeeps(z, c);
        RelievedServes(z, CalledBack(c));
      }
    } else if op.DoDrain? {
      RelievedServes(z, c);
    }
  }

  lemma {:induction false} OpDiscards(z: Config, c: Conn, op: Op)
    requires DiscardOk(c)
    ensures DiscardOk(Do(z, c, op))
  {
    if op.DoOutput? {
      FlushedDiscard(z, Enqueued(c, op.payload));
      FlushedStops(z, Enqueued(c, op.payload));
    } else if op.DoCredit? {
      if c.phase == Active && !CreditRefused(c, op.consumedSeq, op.creditBytes) {
        FlushedDiscard(z, Acknowledged(c, op.consumedSeq).(creditBytes := op.creditBytes));
      }
    } else if op.DoSettle? {
      if c.inflight != [] { FlushedDiscard(z, CalledBack(c).(congested := false)); }
    } else if op.DoDrain? {
      FlushedDiscard(z, c.(congested := false));
    }
  }

  lemma {:induction false} OpStream(z: Config, c: Conn, op: Op)
    requires Valid(z, c) && Live(Do(z, c, op)) && (Live(c) && DiscardOk(c))
    ensures Stream(Do(z, c, op)) == Stream(c) + if op.DoOutput? then [op.payload] else []
  {
    LosslessOrder(z, c, op);
    assert Stream(c) + [] == Stream(c);
  }

  // ------------------------------------------------------------------ the invariant of the whole way

  function Eating(notes: seq<Note>): nat {
    if notes == [] then 0
    else Eating(notes[..|notes| - 1]) + match notes[|notes| - 1] case Eaten(n) => n case Pause(_) => 0
  }

  function Held(notes: seq<Note>): bool {
    if notes == [] then false
    else match notes[|notes| - 1] case Pause(on) => on case Eaten(_) => Held(notes[..|notes| - 1])
  }

  lemma {:induction false} NotesAppend(notes: seq<Note>, n: Note)
    ensures Eating(notes + [n]) == Eating(notes) + match n case Eaten(m) => m case Pause(_) => 0
    ensures Held(notes + [n]) == match n case Pause(on) => on case Eaten(_) => Held(notes)
  {
    assert (notes + [n])[..|notes|] == notes;
  }

  lemma {:induction false} EatingGrows(notes: seq<Note>, i: nat, j: nat)
    requires i <= j <= |notes|
    ensures Eating(notes[..i]) <= Eating(notes[..j])
    decreases j
  {
    if i < j {
      assert notes[..j][..j - 1] == notes[..j - 1];
      EatingGrows(notes, i, j - 1);
    }
  }

  ghost predicate NetOk(y: Setup, s: Sys) {
    && Inv(y.conn, y.window, s)
    && Poised(y.conn, y.gate.chunkBytes, s.conn)
    && PauseOk(s.conn) && DiscardOk(s.conn)
  }

  ghost predicate GateOk(y: Setup, g: G.Gate) {
    && G.Valid(y.gate, g)
    && ChunksOk(g.sent, y.gate.chunkBytes) && ChunksOk(g.queue, y.gate.chunkBytes)
  }

  /** Nothing is lost on the link, and the gateway reports what it has taken. */
  ghost predicate LinkOk(p: Pipe) {
    && p.arrived <= |p.gate.sent|
    && p.told <= p.sys.conn.reported
    && Taken(p.sys.conn) <= G.Size(p.gate.sent[..p.arrived])
    && (Live(p.sys.conn) ==>
          && Taken(p.sys.conn) == G.Size(p.gate.sent[..p.arrived])
          && Stream(p.sys.conn) == Datas(p.gate.sent[..p.arrived]))
  }

  /**
   * What the gate counts in flight is what it sent and has not heard to be consumed; it is held when it was told so.
   */
  ghost predicate NotesOk(p: Pipe) {
    && p.noted <= |p.notes|
    && Eating(p.notes) == p.told
    && p.gate.inflight + Eating(p.notes[..p.noted]) == G.Size(p.gate.sent)
    && p.gate.remotePaused == Held(p.notes[..p.noted])
    && (p.sys.conn.phase == Active ==> p.sys.conn.paused == Held(p.notes))
  }

  ghost predicate Whole(y: Setup, p: Pipe) { NetOk(y, p.sys) && GateOk(y, p.gate) && LinkOk(p) && NotesOk(p) }

  predicate SetupOk(y: Setup) { y.gate.chunkBytes > 0 && 0 < y.window <= y.conn.window && y.conn.sendQueue > 0 }

  predicate GoodTurn(y: Setup, t: Turn) { t.FromGate? ==> MarkerOk(t.op, y.gate.chunkBytes) }

  // ------------------------------------------------------------------ every turn keeps it

  lemma {:induction false} GateTurn(y: Setup, p: Pipe, op: G.Op)
    requires SetupOk(y) && Whole(y, p) && MarkerOk(op, y.gate.chunkBytes) && !op.DoConsumed? && !op.DoSetRemotePaused?
    ensures Whole(y, p.(gate := G.Do(y.gate, p.gate, op, y.full)))
  {
    var h := G.Do(y.gate, p.gate, op, y.full);
    G.DoKeeps(y.gate, p.gate, op, y.full);
    GateGrows(y.gate, p.gate, op, y.full);
    assert h.sent[..p.arrived] == p.gate.sent[..p.arrived];
  }

  lemma {:induction false} HearTurn(y: Setup, p: Pipe)
    requires SetupOk(y) && Whole(y, p) && p.noted < |p.notes|
    ensures Whole(y, Turned(y, p, Hear))
  {
    var g, n := p.gate, p.notes[p.noted];
    assert p.notes[..p.noted + 1] == p.notes[..p.noted] + [n];
    NotesAppend(p.notes[..p.noted], n);
    EatingGrows(p.notes, p.noted + 1, |p.notes|);
    assert p.notes[..|p.notes|] == p.notes;
    SizeOfPrefix(g.sent, p.arrived);
    HeardKeeps(y, g, n);
    assert Heard(y, g, n).sent[..p.arrived] == g.sent[..p.arrived];
  }

  lemma {:induction false} HeardKeeps(y: Setup, g: G.Gate, n: Note)
    requires SetupOk(y) && GateOk(y, g) && (n.Eaten? ==> n.n <= g.inflight)
    ensures GateOk(y, Heard(y, g, n)) && g.sent <= Heard(y, g, n).sent
    ensures Heard(y, g, n).inflight + G.Size(g.sent) + (if n.Eaten? then n.n else 0) ==
        g.inflight + G.Size(Heard(y, g, n).sent)
    ensures Heard(y, g, n).remotePaused == if n.Pause? then n.on else g.remotePaused
  {
    hide G.Pumped, G.Valid, ChunksOk;
    match n
    case Pause(on) =>
      G.DoKeeps(y.gate, g, G.DoSetRemotePaused(on), y.full);
      GateGrows(y.gate, g, G.DoSetRemotePaused(on), y.full);
      PumpedPauses(y.gate, g.(remotePaused := on), y.full);
    case Eaten(bytes) =>
      G.DoKeeps(y.gate, g, G.DoConsumed(bytes), y.full);
      var e := g.(inflight := g.inflight - bytes);
      PumpedGrows(y.gate, e, y.full);
      PumpedPauses(y.gate, e, y.full);
  }

  lemma {:induction false} ReportTurn(y: Setup, p: Pipe)
    requires SetupOk(y) && Whole(y, p) && p.sys.conn.reported > p.told
    ensures Whole(y, Turned(y, p, Report))
  {
    var q := Turned(y, p, Report);
    NotesAppend(p.notes, q.notes[|p.notes|]);
    assert q.notes[..p.noted] == p.notes[..p.noted];
  }

  lemma {:induction false} NetStep(y: Setup, s: Sys, e: Event)
    requires SetupOk(y) && NetOk(y, s) && Chunked(e, y.gate.chunkBytes)
    ensures NetOk(y, Step(y.conn, s, e))
    ensures Serves(s.conn, Step(y.conn, s, e).conn, if e.Serve? && e.op.DoOutput? then |e.op.payload| else 0)
    ensures Live(Step(y.conn, s, e).conn) ==>
      Stream(Step(y.conn, s, e).conn) == Stream(s.conn) + if e.Serve? && e.op.DoOutput? then [e.op.payload] else []
  {
    StepKeeps(y.conn, y.window, s, e);
    assert Stream(s.conn) + [] == Stream(s.conn);
    match e
    case Serve(op) =>
      if !op.DoCredit? {
        ServePoised(y.conn, y.gate.chunkBytes, s.conn, op);
        OpServes(y.conn, s.conn, op);
        OpDiscards(y.conn, s.conn, op);
        if Live(Do(y.conn, s.conn, op)) { OpStream(y.conn, s.conn, op); }
      }
    case Deliver =>
    case Apply =>
      if s.applied < |s.grants| {
        var g := s.grants[s.applied];
        var op := DoCredit(g.consumedSeq, g.creditBytes);
        ServePoised(y.conn, y.gate.chunkBytes, s.conn, op);
        OpServes(y.conn, s.conn, op);
        OpDiscards(y.conn, s.conn, op);
        if Live(Do(y.conn, s.conn, op)) { OpStream(y.conn, s.conn, op); }
      }
  }

  lemma {:induction false} ServedNotes(p: Pipe, t: Sys)
    requires NotesOk(p) && (t.conn.phase == Active ==> p.sys.conn.phase == Active)
    ensures NotesOk(Served(p, t))
  {
    var q := Served(p, t);
    assert q.notes[..p.noted] == p.notes[..p.noted];
    if Change(p.sys.conn, t.conn) == [] {
      assert q.notes == p.notes;
    } else {
      NotesAppend(p.notes, Pause(t.conn.paused));
    }
  }

  lemma {:induction false} NetTurn(y: Setup, p: Pipe, e: Event)
    requires SetupOk(y) && Whole(y, p) && Internal(e)
    ensures Whole(y, Turned(y, p, Net(e)))
  {
    NetStep(y, p.sys, e);
    StepPhase(y.conn, p.sys, e);
    ServedNotes(p, Step(y.conn, p.sys, e));
    assert Stream(p.sys.conn) + [] == Stream(p.sys.conn);
  }

  lemma {:induction false} StepPhase(z: Config, s: Sys, e: Event)
    ensures Step(z, s, e).conn.phase == Active ==> s.conn.phase == Active
  {
    match e
    case Serve(op) =>
      if !op.DoCredit? { ServeExtends(z, s.conn, op); }
    case _ =>
  }

  lemma {:induction false} ArriveTurn(y: Setup, p: Pipe, granted: bool)
    requires SetupOk(y) && Whole(y, p) && p.arrived < |p.gate.sent|
    ensures Whole(y, Turned(y, p, Arrive(granted)))
  {
    var c := p.gate.sent[p.arrived];
    assert c in p.gate.sent;
    var e := Serve(DoOutput(c.data, granted));
    NetStep(y, p.sys, e);
    StepPhase(y.conn, p.sys, e);
    ServedNotes(p, Step(y.conn, p.sys, e));
    NextArrival(p.gate.sent, p.arrived);
  }

  lemma {:induction false} TurnKeeps(y: Setup, p: Pipe, t: Turn)
    requires SetupOk(y) && Whole(y, p) && GoodTurn(y, t)
    ensures Whole(y, Turned(y, p, t))
  {
    match t
    case FromGate(op) =>
      if !op.DoConsumed? && !op.DoSetRemotePaused? { GateTurn(y, p, op); }
    case Arrive(granted) =>
      if p.arrived < |p.gate.sent| { ArriveTurn(y, p, granted); }
    case Net(e) =>
      if Internal(e) { NetTurn(y, p, e); }
    case Report =>
      if p.sys.conn.reported > p.told { ReportTurn(y, p); }
    case Hear =>
      if p.noted < |p.notes| { HearTurn(y, p); }
  }

  lemma {:induction false} RunKeeps(y: Setup, p: Pipe, ts: seq<Turn>)
    requires SetupOk(y) && Whole(y, p) && forall t :: t in ts ==> GoodTurn(y, t)
    ensures Whole(y, Run(y, p, ts))
    decreases |ts|
  {
    if ts != [] {
      assert ts[0] in ts;
      TurnKeeps(y, p, ts[0]);
      RunKeeps(y, Turned(y, p, ts[0]), ts[1..]);
    }
  }

  lemma {:induction false} BeginWhole(y: Setup)
    requires SetupOk(y)
    ensures Whole(y, Begin(y))
  {
    StartOk(y.conn, y.window);
  }

  // ------------------------------------------------------------------ what has come to rest

  /**
   * Every channel is empty, or its reader is held by the pause that the sender asked for; so the link has drained or is
   * not read.
   */
  predicate AtRestAll(p: Pipe) {
    && Live(p.sys.conn) && Quiet(p.sys)
    && (p.arrived == |p.gate.sent| || p.sys.conn.paused)
    && p.told == p.sys.conn.reported
    && p.noted == |p.notes|
    && (!p.gate.sinkFull || p.sys.conn.paused)
  }

  function Joined(parts: seq<seq<Byte>>): seq<Byte> {
    if parts == [] then [] else Joined(parts[..|parts| - 1]) + parts[|parts| - 1]
  }

  lemma {:induction false} FlatIsJoined(cs: seq<G.Chunk>)
    ensures G.Flat(cs) == Joined(Datas(cs))
    decreases |cs|
  {
    if cs != [] {
      var rest, last := cs[..|cs| - 1], cs[|cs| - 1];
      assert cs == rest + [last];
      G.SizeAppend(rest, [last]);
      assert [last][1..] == [];
      assert G.Flat([last]) == last.data + [];
      FlatIsJoined(rest);
      assert Datas(cs)[..|Datas(cs)| - 1] == Datas(rest);
    }
  }

  /**
   * With limits that fit, whatever run the parts have made, if they have come to rest then the gate's queue is empty,
   * the gate is open, nobody sleeps on it, and the client has shown exactly the stream the gate accepted.
   */
  lemma {:induction false} NothingLeftBehind(y: Setup, ts: seq<Turn>)
    requires SetupOk(y) && Fits(y.conn, y.window, y.gate.chunkBytes)
    requires forall t :: t in ts ==> GoodTurn(y, t)
    ensures var p := Run(y, Begin(y), ts);
      AtRestAll(p) ==>
        && p.gate.queue == [] && !G.Paused(y.gate, p.gate) && p.gate.waiters == []
        && p.sys.rec.gaps == 0 && Joined(p.sys.rec.shown) == G.Output(p.gate)
  {
    BeginWhole(y);
    RunKeeps(y, Begin(y), ts);
    var p := Run(y, Begin(y), ts);
    if AtRestAll(p) { RestDelivers(y, p); }
  }

  lemma {:induction false} RestDelivers(y: Setup, p: Pipe)
    requires SetupOk(y) && Whole(y, p) && Fits(y.conn, y.window, y.gate.chunkBytes) && AtRestAll(p)
    ensures p.gate.queue == [] && !G.Paused(y.gate, p.gate) && p.gate.waiters == []
    ensures p.sys.rec.gaps == 0 && Joined(p.sys.rec.shown) == G.Output(p.gate)
  {
    var c, g := p.sys.conn, p.gate;
    FittingIsNeverStuck(y.conn, y.window, y.gate.chunkBytes, p.sys);
    assert c.pendingOut == [] && !c.paused;
    assert g.sent[..p.arrived] == g.sent;
    assert p.notes[..p.noted] == p.notes;
    assert g.inflight == 0 && !g.remotePaused;
    assert g.queue == [];
    BytesWhole(c.wire);
    assert Stream(c) == Payloads(c.wire) + [] == Payloads(c.wire);
    assert c.wire[..p.sys.delivered] == c.wire;
    FlatIsJoined(g.sent);
    assert G.Output(g) == G.Flat(g.sent) + [] == G.Flat(g.sent);
  }
}
