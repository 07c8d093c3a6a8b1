/** Over every run of the system, work goes where its target says and to nodes of its own tenant only. */
module JobPlacement {
  import opened Common
  import opened HubModel
  import H = HubSafety
  import D = HubDecisions
  import opened AgentModel
  import opened JobSystem
  import opened JobSafety

  // ------------------------------------------------------------------ what holds in every state

  /** A job that has a node has the one its target names, if it names one. */
  predicate OnTarget(j: Job) { j.node.Some? && j.work.target.NodeTarget? ==> j.node.value == j.work.target.id }

  ghost predicate JobOk(h: Hub, x: Uid) { x in h.jobs ==> OnTarget(h.jobs[x]) }

  ghost predicate Named(h: Hub, n: Name) { n in h.peers ==> h.peers[n].id == n }

  /** While the oracle is asked, a node that is still on the connection it was asked about is one the job wants. */
  ghost predicate AskedAt(s: System, n: Name) {
    s.hub.phase.Awaiting? && n in s.hub.phase.asked ==>
      && s.hub.phase.asked[n] in s.conns
      && s.hub.phase.at < |s.hub.order| && s.hub.order[s.hub.phase.at] in s.hub.jobs
      && (n in s.hub.peers && s.hub.peers[n].conn == s.hub.phase.asked[n] ==>
            D.Wanted(s.hub.jobs[s.hub.order[s.hub.phase.at]], s.hub.peers[n]))
  }

  ghost predicate PlacementInv(s: System) {
    (forall x :: JobOk(s.hub, x)) && (forall n :: Named(s.hub, n)) && (forall n :: AskedAt(s, n))
  }

  // ------------------------------------------------------------------ the hub's own moves

  /** Whoever is being asked is registered as asked about, and is one the job wants. */
  ghost predicate AskedNow(h: Hub) {
    h.phase.Awaiting? ==>
      && h.phase.at < |h.order| && h.order[h.phase.at] in h.jobs
      && forall n :: n in h.phase.asked ==>
           n in h.peers && h.peers[n].conn == h.phase.asked[n] && D.Wanted(h.jobs[h.order[h.phase.at]], h.peers[n])
  }

  lemma {:induction false} ScheduledAsks(h: Hub, i: nat)
    requires D.Scheduled(h, i)
    ensures AskedNow(h)
  {}

  lemma {:induction false} AnswerAsks(h: Hub, p: Placement, now: int, lease: Uid, sent: bool, room: nat)
    requires H.Inv(h) && h.phase.Awaiting?
    requires p.Placed? ==> p.node in h.phase.free
    ensures AskedNow(Answer(h, p, now, lease, sent, room).hub)
  {
    var r := Answer(h, p, now, lease, sent, room);
    D.AnswerSchedules(h, p, now, lease, sent, room);
    if r.ok { ScheduledAsks(r.hub, h.phase.at + 1); }
  }

  lemma {:induction false} SubmitAsks(h: Hub, capable: bool, who: Requester, work: Work, id: Uid, room: nat)
    requires H.Inv(h) && h.phase.Idle? && id !in h.jobs
    ensures AskedNow(Submit(h, capable, who, work, id, room).0)
  {
    D.SubmitSchedules(h, who, work, id, room);
    D.FindsKey(h, who);
    if capable && D.KeyFree(h, who) && Submit(h, true, who, work, id, room).1.Accepted? {
      ScheduledAsks(Submit(h, true, who, work, id, room).0, 0);
    }
  }

  lemma {:induction false} ReceiptAsks(h: Hub, node: Name, tenant: Name, r: Receipt, room: nat)
    requires H.Inv(h) && h.phase.Idle?
    ensures AskedNow(TakeReceipt(h, node, tenant, r, room).0)
  {
    D.ReceiptSchedules(h, node, tenant, r, room);
    D.ReceiptDecided(h, node, tenant, r, room);
    if TakeReceipt(h, node, tenant, r, room).1.Ok? && h.jobs[r.id].state != Abandoned {
      ScheduledAsks(TakeReceipt(h, node, tenant, r, room).0, 0);
    }
  }

  lemma {:induction false} TickAsks(h: Hub, now: int, room: nat)
    requires H.Inv(h) && h.phase.Idle?
    ensures AskedNow(Tick(h, now, room).hub)
  {
    H.SweepKeeps(h, ByDeadline(now), room);
    D.ScanSchedules(Sweep(h, 0, ByDeadline(now), room).hub, 0);
    if Tick(h, now, room).ok { ScheduledAsks(Tick(h, now, room).hub, 0); }
  }

  // ------------------------------------------------------------------ every event keeps it

  lemma {:induction false} QuietTargets(h: Hub, h': Hub)
    requires H.Quiet(h, h') && forall x :: JobOk(h, x)
    ensures forall x :: JobOk(h', x)
  {
    forall x ensures JobOk(h', x) { assert H.QuietAt(h, h', x) && JobOk(h, x); }
  }

  lemma {:induction false} QuietButTargets(h: Hub, h': Hub, x: Uid)
    requires H.QuietBut(h, h', x) && OnTarget(h'.jobs[x]) && forall y :: JobOk(h, y)
    ensures forall y :: JobOk(h', y)
  {
    forall y ensures JobOk(h', y) { assert y != x ==> H.QuietAt(h, h', y) && JobOk(h, y); }
  }

  /** The hub has moved, and whoever it asks now it asks about what is registered now. */
  lemma {:induction false} HubTurns(s: System, h: Hub)
    requires Inv(s) && PlacementInv(s) && h.peers == s.hub.peers && AskedNow(h) && forall x :: JobOk(h, x)
    ensures PlacementInv(s.(hub := h))
  {
    var s' := s.(hub := h);
    forall n ensures Named(h, n) && AskedAt(s', n) {
      assert Named(s.hub, n) && PeerOk(s, n);
    }
  }

  lemma {:induction false} Unmoved(s: System, s': System)
    requires PlacementInv(s) && s'.hub == s.hub && s'.conns == s.conns
    ensures PlacementInv(s')
  {
    forall n ensures AskedAt(s', n) { assert AskedAt(s, n); }
  }

  lemma {:induction false} CommandPlaces(s: System, capable: bool, who: Requester, work: Work, id: Uid, room: nat)
    requires Inv(s) && PlacementInv(s) && Enabled(s, Command(capable, who, work, id, room))
    ensures PlacementInv(s.(hub := Submit(s.hub, capable, who, work, id, room).0))
  {
    var h := Submit(s.hub, capable, who, work, id, room).0;
    H.SubmitKeeps(s.hub, capable, who, work, id, room);
    SubmitAsks(s.hub, capable, who, work, id, room);
    SubmitPeers(s.hub, capable, who, work, id, room);
    if h != s.hub {
      assert H.Sound(h, id);
      QuietButTargets(s.hub, h, id);
    }
    HubTurns(s, h);
  }

  lemma {:induction false} GiveUpPlaces(s: System, capable: bool, tenant: Name, id: Uid, room: nat)
    requires Inv(s) && PlacementInv(s) && HubIdle(s)
    ensures PlacementInv(s.(hub := Abandon(s.hub, capable, tenant, id, room).0))
  {
    var h := Abandon(s.hub, capable, tenant, id, room).0;
    H.AbandonKeeps(s.hub, capable, tenant, id, room);
    if h != s.hub {
      assert JobOk(s.hub, id);
      QuietButTargets(s.hub, h, id);
    }
    HubTurns(s, h);
  }

  lemma {:induction false} EnrollPlaces(s: System, e: Event)
    requires Inv(s) && PlacementInv(s) && e.Enroll? && Enabled(s, e)
    ensures PlacementInv(Apply(s, e))
  {
    var s' := Apply(s, e);
    forall n ensures Named(s'.hub, n) && AskedAt(s', n) {
      assert Named(s.hub, n) && AskedAt(s, n);
    }
    forall x ensures JobOk(s'.hub, x) { assert JobOk(s.hub, x); }
  }

  lemma {:induction false} HeartbeatPlaces(s: System, node: Name, seen: int)
    requires PlacementInv(s) && Enabled(s, Heartbeat(node, seen))
    ensures PlacementInv(Apply(s, Heartbeat(node, seen)))
  {
    var s' := Apply(s, Heartbeat(node, seen));
    forall n ensures Named(s'.hub, n) && AskedAt(s', n) {
      assert Named(s.hub, n) && AskedAt(s, n);
    }
    forall x ensures JobOk(s'.hub, x) { assert JobOk(s.hub, x); }
  }

  /** A node that an answer is committed to is one the job wants. */
  lemma {:induction false} CommitIsWanted(s: System, node: Name, now: int)
    requires PlacementInv(s) && s.hub.phase.Awaiting? && s.hub.phase.at < |s.hub.order| && Keyed(s.hub)
    requires Commits(s.hub, s.hub.jobs[s.hub.order[s.hub.phase.at]], s.hub.phase.asked, node, now)
    ensures node in s.hub.peers && s.hub.peers[node].id == node
    ensures D.Wanted(s.hub.jobs[s.hub.order[s.hub.phase.at]], s.hub.peers[node])
  {
    assert AskedAt(s, node) && Named(s.hub, node);
  }

  lemma {:induction false} OraclePlaces(s: System, answer: Placement, now: int, lease: Uid, sent: bool, room: nat)
    requires Inv(s) && PlacementInv(s) && Enabled(s, Oracle(answer, now, lease, sent, room))
    ensures PlacementInv(s.(hub := Answer(s.hub, answer, now, lease, sent, room).hub))
  {
    var h, x := Answer(s.hub, answer, now, lease, sent, room).hub, s.hub.order[s.hub.phase.at];
    H.AnswerKeeps(s.hub, answer, now, lease, sent, room);
    AnswerAsks(s.hub, answer, now, lease, sent, room);
    if Dispatches(s.hub, answer, now, room) {
      CommitIsWanted(s, answer.node, now);
      QuietButTargets(s.hub, h, x);
    } else {
      QuietTargets(s.hub, h);
    }
    HubTurns(s, h);
  }

  lemma {:induction false} DropPlaces(s: System, node: Name, conn: nat, room: nat)
    requires Inv(s) && PlacementInv(s) && Enabled(s, Drop(node, conn, room))
    ensures PlacementInv(s.(hub := Disconnect(s.hub, node, conn, room).hub))
  {
    var h := Disconnect(s.hub, node, conn, room).hub;
    H.DisconnectKeeps(s.hub, node, conn, room);
    QuietTargets(s.hub, h);
    forall n ensures Named(h, n) && AskedAt(s.(hub := h), n) { assert Named(s.hub, n); }
  }

  lemma {:induction false} DeliverPlaces(s: System, ag: nat, r: Receipt, room: nat)
    requires Inv(s) && PlacementInv(s) && Enabled(s, Deliver(ag, r, room))
    ensures PlacementInv(s.(hub := TakeReceipt(s.hub, s.agents[ag].node, s.agents[ag].tenant, r, room).0))
  {
    var a := s.agents[ag];
    var h := TakeReceipt(s.hub, a.node, a.tenant, r, room).0;
    H.ReceiptKeeps(s.hub, a.node, a.tenant, r, room);
    ReceiptAsks(s.hub, a.node, a.tenant, r, room);
    if H.Quiet(s.hub, h) {
      QuietTargets(s.hub, h);
    } else {
      assert JobOk(s.hub, r.id);
      QuietButTargets(s.hub, h, r.id);
    }
    HubTurns(s, h);
  }

  lemma {:induction false} ClockPlaces(s: System, now: int, room: nat)
    requires Inv(s) && PlacementInv(s) && Enabled(s, Clock(now, room))
    ensures PlacementInv(s.(hub := Tick(s.hub, now, room).hub))
  {
    H.TickKeeps(s.hub, now, room);
    TickAsks(s.hub, now, room);
    QuietTargets(s.hub, Tick(s.hub, now, room).hub);
    HubTurns(s, Tick(s.hub, now, room).hub);
  }

  lemma {:induction false} BootPlaces(s: System, room: nat)
    requires Inv(s) && PlacementInv(s)
    ensures PlacementInv(s.(hub := Restart(s.hub.journal, room).hub))
  {
    var h := Restart(s.hub.journal, room).hub;
    H.RestartKeeps(s.hub, room);
    QuietTargets(s.hub, h);
    KeyedReplay(s.hub.journal);
    assert h.peers == map[] && h.phase == Idle;
    forall n ensures Named(h, n) && AskedAt(s.(hub := h), n) {}
  }

  lemma {:induction false} CrashPlaces(s: System)
    requires Inv(s) && PlacementInv(s)
    ensures PlacementInv(s.(hub := s.hub.(phase := Idle)))
  {
    forall x ensures JobOk(s.hub.(phase := Idle), x) { assert JobOk(s.hub, x); }
    HubTurns(s, s.hub.(phase := Idle));
  }

  lemma {:induction false} StepPlaces(s: System, e: Event)
    requires Inv(s) && PlacementInv(s) && Enabled(s, e)
    ensures PlacementInv(Apply(s, e))
  {
    hide Inv, PlacementInv;
    var s' := Apply(s, e);
    match e
    case Command(capable, who, work, id, room) => CommandPlaces(s, capable, who, work, id, room);
    case GiveUp(capable, tenant, id, room) => GiveUpPlaces(s, capable, tenant, id, room);
    case Enroll(_, _, _, _, _, _) => EnrollPlaces(s, e);
    case Heartbeat(node, seen) => HeartbeatPlaces(s, node, seen);
    case Oracle(answer, now, lease, sent, room) =>
      OraclePlaces(s, answer, now, lease, sent, room);
      Unmoved(s.(hub := s'.hub), s');
    case Drop(node, conn, room) => DropPlaces(s, node, conn, room);
    case Deliver(agent, receipt, room) =>
      DeliverPlaces(s, agent, receipt, room);
      Unmoved(s.(hub := s'.hub), s');
    case Clock(now, room) => ClockPlaces(s, now, room);
    case HubCrash =>
      CrashPlaces(s);
      Unmoved(s.(hub := s'.hub), s');
    case HubBoot(room) =>
      BootPlaces(s, room);
      Unmoved(s.(hub := s'.hub), s');
    case _ => Unmoved(s, s');
  }

  lemma {:induction false} TracePlaces(s: System, es: seq<Event>, s': System)
    requires Inv(s) && PlacementInv(s) && Trace(s, es, s')
    ensures Inv(s') && PlacementInv(s')
    decreases |es|
  {
    if es != [] {
      StepKeeps(s, es[0]);
      StepPlaces(s, es[0]);
      TracePlaces(Apply(s, es[0]), es[1..], s');
    }
  }

  lemma {:induction false} Reached(s0: System, es: seq<Event>, s: System)
    requires Initial(s0) && Trace(s0, es, s)
    ensures Inv(s) && PlacementInv(s)
  {
    InitialInv(s0);
    TracePlaces(s0, es, s);
  }

  // ------------------------------------------------------------------ the guarantees

  /** In every reachable state a job that has been given to a node and names one is with the node it names. */
  lemma {:induction false} PlacedOnTarget(s0: System, es: seq<Event>, s: System, x: Uid)
    requires Initial(s0) && Trace(s0, es, s) && x in s.hub.jobs
        && s.hub.jobs[x].state in {Assigned, Unknown, Succeeded, Failed}
    ensures s.hub.jobs[x].node.Some?
    ensures s.hub.jobs[x].work.target.NodeTarget? ==> s.hub.jobs[x].node == Some(s.hub.jobs[x].work.target.id)
  {
    Reached(s0, es, s);
    assert JobOk(s.hub, x) && H.Sound(s.hub, x);
  }

  /** And so has every execution that ever began: on the node the work names, for the agent's own tenant. */
  lemma {:induction false} RunsOnTarget(s0: System, es: seq<Event>, s: System, i: nat)
    requires Initial(s0) && Trace(s0, es, s) && i < |s.started|
    ensures var ag, x := s.started[i].agent, s.started[i].order.id;
      && ag in s.agents && x in s.hub.jobs && s.hub.jobs[x].who.tenant == s.agents[ag].tenant
      && (s.hub.jobs[x].work.target.NodeTarget? ==> s.agents[ag].node == s.hub.jobs[x].work.target.id)
  {
    Reached(s0, es, s);
    assert StartOk(s, i) && JobOk(s.hub, s.started[i].order.id);
  }

  /**
   * An award, in every run: the job goes to a registered node of its tenant, of its site if it names one, and to the
   * node it names if it names one.
   */
  lemma {:induction false} AwardOnTarget(s0: System, es: seq<Event>, s: System, e: Event, x: Uid)
    requires Initial(s0) && Trace(s0, es, s) && Enabled(s, e)
    requires x in s.hub.jobs && s.hub.jobs[x].node.None?
    requires x in Apply(s, e).hub.jobs && Apply(s, e).hub.jobs[x].node.Some?
    ensures var j, n := s.hub.jobs[x], Apply(s, e).hub.jobs[x].node.value;
      && n in s.hub.peers && s.hub.peers[n].tenant == j.who.tenant
      && (j.work.target.NodeTarget? ==> n == j.work.target.id)
      && (j.work.target.SiteTarget? ==> s.hub.peers[n].site == j.work.target.site)
  {
    Reached(s0, es, s);
    if e.Oracle? {
      OracleAwards(s, e.answer, e.now, e.lease, e.sent, e.room, x);
    } else {
      NoAward(s, e, x);
    }
  }

  lemma {:induction false} OracleAwards(s: System, answer: Placement, now: int, lease: Uid, sent: bool, room: nat,
      x: Uid)
    requires Inv(s) && PlacementInv(s) && Enabled(s, Oracle(answer, now, lease, sent, room))
    requires x in s.hub.jobs && s.hub.jobs[x].node.None?
    ensures var h := Answer(s.hub, answer, now, lease, sent, room).hub;
      x in h.jobs && h.jobs[x].node.Some? ==>
        var n := h.jobs[x].node.value;
        n in s.hub.peers && s.hub.peers[n].id == n && D.Wanted(s.hub.jobs[x], s.hub.peers[n])
  {
    var h, y := Answer(s.hub, answer, now, lease, sent, room).hub, s.hub.order[s.hub.phase.at];
    H.AnswerKeeps(s.hub, answer, now, lease, sent, room);
    if Dispatches(s.hub, answer, now, room) {
      CommitIsWanted(s, answer.node, now);
      assert x != y ==> H.QuietAt(s.hub, h, x);
    } else {
      assert H.QuietAt(s.hub, h, x);
    }
  }

  lemma {:induction false} QuietNoAward(h: Hub, h': Hub, x: Uid)
    requires x in h.jobs && h.jobs[x].node.None? && (h' == h || H.QuietAt(h, h', x))
    ensures x in h'.jobs && h'.jobs[x].node.None?
  {}

  /** No command gives a job a node. */
  lemma {:induction false} CommandNoAward(h: Hub, capable: bool, who: Requester, work: Work, id: Uid, room: nat, x: Uid)
    requires H.Inv(h) && id !in h.jobs && x in h.jobs && h.jobs[x].node.None?
    ensures var h' := Submit(h, capable, who, work, id, room).0; x in h'.jobs && h'.jobs[x].node.None?
  {
    H.SubmitKeeps(h, capable, who, work, id, room);
    QuietNoAward(h, Submit(h, capable, who, work, id, room).0, x);
  }

  lemma {:induction false} AbandonNoAward(h: Hub, capable: bool, tenant: Name, id: Uid, room: nat, x: Uid)
    requires H.Inv(h) && h.phase.Idle? && x in h.jobs && h.jobs[x].node.None?
    ensures var h' := Abandon(h, capable, tenant, id, room).0; x in h'.jobs && h'.jobs[x].node.None?
  {
    H.AbandonKeeps(h, capable, tenant, id, room);
    var h' := Abandon(h, capable, tenant, id, room).0;
    assert h' == h || x == id || H.QuietAt(h, h', x);
  }

  lemma {:induction false} ReceiptNoAward(h: Hub, node: Name, tenant: Name, r: Receipt, room: nat, x: Uid)
    requires H.Inv(h) && h.phase.Idle? && x in h.jobs && h.jobs[x].node.None?
    ensures var h' := TakeReceipt(h, node, tenant, r, room).0; x in h'.jobs && h'.jobs[x].node.None?
  {
    H.ReceiptKeeps(h, node, tenant, r, room);
    var h' := TakeReceipt(h, node, tenant, r, room).0;
    assert H.Quiet(h, h') || x != r.id;
    QuietNoAward(h, h', x);
  }

  /** Nothing but an answer of the oracle gives a job a node. */
  lemma {:induction false} NoAward(s: System, e: Event, x: Uid)
    requires Inv(s) && Enabled(s, e) && !e.Oracle? && x in s.hub.jobs && s.hub.jobs[x].node.None?
    ensures x in Apply(s, e).hub.jobs && Apply(s, e).hub.jobs[x].node.None?
  {
    var h, h' := s.hub, Apply(s, e).hub;
    assert H.Inv(h);
    hide Inv, H.Inv;
    match e
    case Command(capable, who, work, id, room) => CommandNoAward(h, capable, who, work, id, room, x);
    case GiveUp(capable, tenant, id, room) => AbandonNoAward(h, capable, tenant, id, room, x);
    case Drop(node, conn, room) =>
      H.DisconnectKeeps(h, node, conn, room);
      QuietNoAward(h, h', x);
    case Deliver(agent, r, room) => ReceiptNoAward(h, s.agents[agent].node, s.agents[agent].tenant, r, room, x);
    case Clock(now, room) =>
      H.TickKeeps(h, now, room);
      QuietNoAward(h, h', x);
    case HubBoot(room) =>
      H.RestartKeeps(h, room);
      QuietNoAward(h, h', x);
    case _ =>
  }
}
