/** The guarantees of the job protocol. */
module JobTheorems {
  import opened Common
  import opened HubModel
  import H = HubSafety
  import opened AgentModel
  import opened JobSystem
  import opened JobSafety

  // ------------------------------------------------------------------ at most once

  /** Each job id is started at most once, by one agent, and only as the hub's durable assignment of the work
      that was submitted, under that assignment's lease. */
  lemma {:induction false} AtMostOnce(s0: System, es: seq<Event>, s: System)
    requires Initial(s0) && Trace(s0, es, s)
    ensures forall i, j :: 0 <= i < j < |s.started| ==> s.started[i].order.id != s.started[j].order.id
    ensures forall i :: 0 <= i < |s.started| ==> OrderOk(s, s.started[i].agent, s.started[i].order)
  {
    InitialInv(s0);
    TraceKeeps(s0, es, s);
    forall i | 0 <= i < |s.started| ensures OrderOk(s, s.started[i].agent, s.started[i].order) {
      assert StartOk(s, i);
    }
  }

  // ------------------------------------------------------------------ outcomes

  /** A reported outcome in the hub's table is what the assigned node stored durably under that lease, and no
      agent ever stored another outcome for the job. */
  lemma {:induction false} OutcomeAgreement(s0: System, es: seq<Event>, s: System, x: Uid)
    requires Initial(s0) && Trace(s0, es, s) && x in s.hub.jobs && Reported(s.hub.jobs[x])
    ensures var j := s.hub.jobs[x];
            && j.node.Some? && j.lease.Some? && j.result.Some?
            && (exists ag :: ag in s.agents && s.agents[ag].node == j.node.value
                             && Stored(ag, x, j.lease.value, Outcome(j.state, j.result.value, true)) in s.stored)
            && (forall r :: r in s.stored && r.id == x ==> r.outcome == Outcome(j.state, j.result.value, true))
  {
    InitialInv(s0);
    TraceKeeps(s0, es, s);
    assert BackedAt(s, x);
    var j := s.hub.jobs[x];
    var ag :| ag in s.agents && Stored(ag, x, j.lease.value, Outcome(j.state, j.result.value, true)) in s.stored;
    forall r | r in s.stored && r.id == x ensures r.outcome == Outcome(j.state, j.result.value, true) {
      assert SingleOutcome(s, r, Stored(ag, x, j.lease.value, Outcome(j.state, j.result.value, true)));
    }
  }

  /** A stored outcome is in its agent's file until the hub holds it, or the operator abandoned the job; an
      entry marked acknowledged, which pruning may drop, is one that the hub holds. */
  lemma {:induction false} PruningLosesNothing(s0: System, es: seq<Event>, s: System)
    requires Initial(s0) && Trace(s0, es, s)
    ensures forall r :: r in s.stored ==> Kept(s, r)
    ensures forall ag, k :: ag in s.agents && k in s.agents[ag].file.recs && s.agents[ag].file.recs[k].acked ==>
              s.agents[ag].file.recs[k].outcome.Some? && H.Holds(s.hub, k, s.agents[ag].file.recs[k].outcome.value)
  {
    InitialInv(s0);
    TraceKeeps(s0, es, s);
    forall r | r in s.stored ensures Kept(s, r) {
      assert StoredOk(s, r);
    }
    forall ag, k | ag in s.agents && k in s.agents[ag].file.recs && s.agents[ag].file.recs[k].acked
      ensures s.agents[ag].file.recs[k].outcome.Some? && H.Holds(s.hub, k, s.agents[ag].file.recs[k].outcome.value)
    {
      assert FileOk(s, ag, k);
    }
  }

  // ------------------------------------------------------------------ table

  /** At most one ASSIGNED or UNKNOWN job per node and one job per requester and key, in every state of every
      run, whatever restarts and registrations it has; and the journal replays to the live table. */
  lemma {:induction false} SingleSlotAndIdempotency(s0: System, es: seq<Event>, s: System, x: Uid, y: Uid)
    requires Initial(s0) && Trace(s0, es, s) && x in s.hub.jobs && y in s.hub.jobs && x != y
    ensures s.hub.jobs[x].who != s.hub.jobs[y].who
    ensures Busy(s.hub.jobs[x]) && Busy(s.hub.jobs[y]) ==> s.hub.jobs[x].node != s.hub.jobs[y].node
    ensures x in Replay(s.hub.journal).jobs && Replay(s.hub.journal).jobs[x] == H.Durable(s.hub.jobs[x])
  {
    InitialInv(s0);
    TraceKeeps(s0, es, s);
    assert H.Apart(s.hub, x, y) && H.Replayed(Replay(s.hub.journal), s.hub, x);
  }

  /** The edges of the documented state diagram, composed: final jobs never change again, in any field; a lease
      and a node are given once; no job goes back to QUEUED, nor from UNKNOWN to ASSIGNED. */
  ghost predicate JobProgress(j: Job, k: Job) {
    && H.SameIdentity(j, k)
    && (Final(j.state) ==> k == j)
    && (j.state != Queued ==> k.state != Queued && k.node == j.node && k.lease == j.lease)
    && (j.state == Unknown ==> k.state != Assigned)
    && (Reported(j) ==> k.state == Abandoned || (k.state == j.state && k.result == j.result))
  }

  ghost predicate Progress(h: Hub, h': Hub, x: Uid) {
    x in h.jobs ==> x in h'.jobs && JobProgress(h.jobs[x], h'.jobs[x])
  }

  lemma {:induction false} QuietProgress(h: Hub, h': Hub, y: Uid)
    requires H.TableInv(h)
    requires forall x :: x != y ==> H.QuietAt(h, h', x)
    requires Progress(h, h', y)
    ensures forall x :: Progress(h, h', x)
  {
    forall x ensures Progress(h, h', x) {
      assert (x != y ==> H.QuietAt(h, h', x)) && H.Sound(h, x);
    }
  }

  lemma {:induction false} QuietAll(h: Hub, h': Hub)
    requires H.TableInv(h) && H.Quiet(h, h')
    ensures forall x :: Progress(h, h', x)
  {
    forall x ensures Progress(h, h', x) {
      assert H.QuietAt(h, h', x) && H.Sound(h, x);
    }
  }

  lemma {:induction false} DeliverProgress(s: System, ag: nat, r: Receipt, room: nat)
    requires Inv(s) && Enabled(s, Deliver(ag, r, room))
    ensures forall x :: Progress(s.hub, Apply(s, Deliver(ag, r, room)).hub, x)
  {
    var a := s.agents[ag];
    H.ReceiptKeeps(s.hub, a.node, a.tenant, r, room);
    var (h, ok) := TakeReceipt(s.hub, a.node, a.tenant, r, room);
    assert PacketOk(s, Receipts(ag, r)) && BackedAt(s, r.id);
    if ok.Ok? && H.Settled(s.hub, h, r) {
      var j := s.hub.jobs[r.id];
      if Reported(j) {
        var b :| b in s.agents && Stored(b, r.id, j.lease.value, Outcome(j.state, j.result.value, true)) in s.stored;
        assert SingleOutcome(s, Stored(b, r.id, j.lease.value, Outcome(j.state, j.result.value, true)),
                             Stored(ag, r.id, r.lease, r.outcome));
      }
      QuietProgress(s.hub, h, r.id);
    } else {
      QuietAll(s.hub, h);
    }
  }

  lemma {:induction false} OracleProgress(s: System, e: Event)
    requires Inv(s) && e.Oracle? && Enabled(s, e)
    ensures forall x :: Progress(s.hub, Apply(s, e).hub, x)
  {
    H.AnswerKeeps(s.hub, e.answer, e.now, e.lease, e.sent, e.room);
    var h := Answer(s.hub, e.answer, e.now, e.lease, e.sent, e.room).hub;
    if Dispatches(s.hub, e.answer, e.now, e.room) {
      QuietProgress(s.hub, h, s.hub.order[s.hub.phase.at]);
    } else {
      QuietAll(s.hub, h);
    }
  }

  lemma {:induction false} CommandProgress(s: System, e: Event)
    requires Inv(s) && (e.Command? || e.GiveUp?) && Enabled(s, e)
    ensures forall x :: Progress(s.hub, Apply(s, e).hub, x)
  {
    var h := Apply(s, e).hub;
    if e.Command? {
      H.SubmitKeeps(s.hub, e.capable, e.who, e.work, e.id, e.room);
    } else {
      H.AbandonKeeps(s.hub, e.capable, e.tenant, e.id, e.room);
    }
    if h != s.hub { QuietProgress(s.hub, h, e.id); }
  }

  lemma {:induction false} LossProgress(s: System, e: Event)
    requires Inv(s) && (e.Drop? || e.Clock? || e.HubBoot?) && Enabled(s, e)
    ensures forall x :: Progress(s.hub, Apply(s, e).hub, x)
  {
    match e {
      case Drop(node, conn, room) => H.DisconnectKeeps(s.hub, node, conn, room);
      case Clock(now, room) => H.TickKeeps(s.hub, now, room);
      case HubBoot(room) => H.RestartKeeps(s.hub, room);
    }
    QuietAll(s.hub, Apply(s, e).hub);
  }

  lemma {:induction false} StepProgress(s: System, e: Event)
    requires Inv(s) && Enabled(s, e)
    ensures forall x :: Progress(s.hub, Apply(s, e).hub, x)
  {
    match e
    case Command(_, _, _, _, _) => CommandProgress(s, e);
    case GiveUp(_, _, _, _) => CommandProgress(s, e);
    case Oracle(_, _, _, _, _) => OracleProgress(s, e);
    case Deliver(ag, r, room) => DeliverProgress(s, ag, r, room);
    case Drop(_, _, _) => LossProgress(s, e);
    case Clock(_, _) => LossProgress(s, e);
    case HubBoot(_) => LossProgress(s, e);
    case _ =>
  }

  lemma {:induction false} RunProgress(s: System, es: seq<Event>, s': System, x: Uid)
    requires Inv(s) && Trace(s, es, s')
    ensures Progress(s.hub, s'.hub, x)
    decreases |es|
  {
    if es != [] {
      var s1 := Apply(s, es[0]);
      StepProgress(s, es[0]);
      StepKeeps(s, es[0]);
      RunProgress(s1, es[1..], s', x);
      assert Progress(s.hub, s1.hub, x);
    }
  }

  /** Between any two points of a run. */
  lemma {:induction false} JobsOnlyProgress(s0: System, es: seq<Event>, s: System, later: seq<Event>, s': System,
      x: Uid)
    requires Initial(s0) && Trace(s0, es, s) && Trace(s, later, s') && x in s.hub.jobs
    ensures x in s'.hub.jobs && JobProgress(s.hub.jobs[x], s'.hub.jobs[x])
  {
    InitialInv(s0);
    TraceKeeps(s0, es, s);
    RunProgress(s, later, s', x);
    assert Progress(s.hub, s'.hub, x);
  }

  // ------------------------------------------------------------------ the receipt store stays bounded

  ghost predicate Bounded(f: Store) { Tidy(f) && |f.keys| <= RECEIPT_CAP }

  ghost predicate StoresBounded(s: System, ag: nat) {
    ag in s.agents ==>
      && Bounded(s.agents[ag].file)
      && (Live(s.agents[ag]) ==> Bounded(s.agents[ag].cache))
  }

  lemma {:induction false} OrderBounded(a: Agent, o: Order, admissible: bool, saved: bool)
    requires Bounded(a.file) && (Live(a) ==> Bounded(a.cache)) && a.up
    ensures var b := OnOrder(a, o, admissible, saved).0; Bounded(b.file) && (Live(b) ==> Bounded(b.cache))
  {
    if !a.stopped {
      var c := Prune(a.cache);
      PruneTidy(a.cache);
      PutTidy(c, o.id, Entry(o, None, false));
    }
  }

  lemma {:induction false} BootBounded(a: Agent, saved: bool)
    requires Bounded(a.file)
    ensures Bounded(Boot(a, saved).file) && (!a.up && Live(Boot(a, saved)) ==> Bounded(Boot(a, saved).cache))
  {
    assert Reload(a.file).recs.Keys == a.file.recs.Keys;
    assert Tidy(Reload(a.file));
    PruneTidy(Reload(a.file));
  }

  lemma {:induction false} WriteBounded(a: Agent, k: Uid, e: Entry, saved: bool)
    requires Bounded(a.file) && Bounded(a.cache) && k in a.cache.recs
    ensures var b := Persist(a.(cache := Put(a.cache, k, e)), saved); Bounded(b.file) && Bounded(b.cache)
  {
    PutTidy(a.cache, k, e);
  }

  predicate Writes(e: Event) { e.AgentOrder? || e.AgentDone? || e.AgentAck? || e.AgentBoot? }

  lemma {:induction false} WritesBounded(s: System, e: Event)
    requires Inv(s) && Writes(e) && Enabled(s, e) && StoresBounded(s, e.agent)
    ensures StoresBounded(Apply(s, e), e.agent)
  {
    hide Bounded;
    var a := s.agents[e.agent];
    match e
    case AgentOrder(_, o, admissible, saved) => OrderBounded(a, o, admissible, saved);
    case AgentDone(ag, outcome, saved) =>
      assert BusyOk(s, ag);
      WriteBounded(a, a.busy.value, a.cache.recs[a.busy.value].(outcome := Some(outcome)), saved);
    case AgentAck(_, id, _, _, saved) =>
      if id in a.cache.recs && Live(a) {
        WriteBounded(a, id, a.cache.recs[id].(acked := true), saved);
      }
    case AgentBoot(_, saved) => BootBounded(a, saved);
  }

  lemma {:induction false} StepBounded(s: System, e: Event, ag: nat)
    requires Inv(s) && Enabled(s, e) && StoresBounded(s, ag)
    ensures StoresBounded(Apply(s, e), ag)
  {
    if Writes(e) {
      if e.agent == ag { WritesBounded(s, e); }
    } else {
      assert BusyOk(s, ag);
    }
  }

  lemma {:induction false} TraceBounded(s: System, es: seq<Event>, s': System)
    requires Inv(s) && Trace(s, es, s') && forall ag :: StoresBounded(s, ag)
    ensures forall ag :: StoresBounded(s', ag)
    decreases |es|
  {
    if es != [] {
      forall ag ensures StoresBounded(Apply(s, es[0]), ag) {
        assert StoresBounded(s, ag);
        StepBounded(s, es[0], ag);
      }
      StepKeeps(s, es[0]);
      TraceBounded(Apply(s, es[0]), es[1..], s');
    }
  }

  lemma {:induction false} StartsBounded(s: System)
    requires Initial(s)
    ensures forall ag :: StoresBounded(s, ag)
  {
    forall ag ensures StoresBounded(s, ag) {}
  }

  // ------------------------------------------------------------------ what becomes of a stored outcome

  lemma {:induction false} TraceJoin(a: System, xs: seq<Event>, b: System, ys: seq<Event>, c: System)
    requires Trace(a, xs, b) && Trace(b, ys, c)
    ensures Trace(a, xs + ys, c)
    decreases |xs|
  {
    if xs == [] {
      assert xs + ys == ys;
    } else {
      assert (xs + ys)[1..] == xs[1..] + ys;
      TraceJoin(Apply(a, xs[0]), xs[1..], b, ys, c);
    }
  }

  /**
   * What an idle hub says to a genuine receipt. It takes one whose result is plain when the journal has room or the
   * job is final already; an abandoned job takes any; every other one is refused.
   */
  lemma {:induction false} GenuineReceiptTaken(s: System, r: Stored, room: nat)
    requires Inv(s) && r in s.stored
    ensures r.agent in s.agents && r.id in s.hub.jobs
    ensures var a := s.agents[r.agent]; var j := s.hub.jobs[r.id];
      var answer := TakeReceipt(s.hub, a.node, a.tenant, Receipt(r.id, r.lease, r.outcome), room).1;
      && (answer.Ok? <==> j.state == Abandoned || (r.outcome.plain && (room > 0 || Final(j.state))))
      && (answer.Err? ==> answer.error == if r.outcome.plain then JournalLimit else BadObjectKey)
  {
    assert StoredOk(s, r);
    var i :| 0 <= i < |s.started| && s.started[i].agent == r.agent
             && s.started[i].order.id == r.id && s.started[i].order.lease == r.lease;
    assert StartOk(s, i) && BackedAt(s, r.id);
    var j := s.hub.jobs[r.id];
    if Reported(j) {
      var b :| b in s.agents && Stored(b, r.id, j.lease.value, Outcome(j.state, j.result.value, true)) in s.stored;
      assert SingleOutcome(s, r, Stored(b, r.id, j.lease.value, Outcome(j.state, j.result.value, true)));
    }
  }

  /** The table has what the receipt says. */
  predicate Recorded(h: Hub, r: Stored) {
    r.id in h.jobs && h.jobs[r.id].state == r.outcome.state && h.jobs[r.id].result == Some(r.outcome.result)
  }

  /** Histories only grow. */
  lemma {:induction false} StoredStays(s: System, es: seq<Event>, s': System)
    requires Trace(s, es, s')
    ensures s.stored <= s'.stored
    decreases |es|
  {
    if es != [] { StoredStays(Apply(s, es[0]), es[1..], s'); }
  }

  /** An outcome that is not plain is never recorded: its job stays open until the operator gives it up. */
  lemma {:induction false} UnrecordableStaysOpen(s0: System, es: seq<Event>, s: System, r: Stored)
    requires Initial(s0) && Trace(s0, es, s) && r in s.stored && !r.outcome.plain
    ensures r.id in s.hub.jobs && !Reported(s.hub.jobs[r.id]) && !Recorded(s.hub, r)
  {
    InitialInv(s0);
    TraceKeeps(s0, es, s);
    assert StoredOk(s, r);
    GenuineReceiptTaken(s, r, 1);
    if Reported(s.hub.jobs[r.id]) { OutcomeAgreement(s0, es, s, r.id); }
    assert r.outcome.state in {Succeeded, Failed, Unknown};
  }
}
