/**
 * The hub, its agents and the network between them, as one transition system.
 *
 * The network is a set of packets in flight that may be delivered in any order or lost, so every run over FIFO
 * channels that lose a suffix when a connection breaks is a run here. Receipts and acknowledgements may also be
 * duplicated; an execute message is sent once. `started` and `stored` are histories: which executions began, in
 * order, and which final receipts ever reached an agent's disk.
 */
module JobSystem {
  import opened Common
  import opened HubModel
  import opened AgentModel

  datatype Start = Start(agent: nat, order: Order)

  datatype Stored = Stored(agent: nat, id: Uid, lease: Uid, outcome: Outcome)

  datatype Packet =
    | Execute(agent: nat, order: Order)
    | Receipts(agent: nat, receipt: Receipt)
    | Acked(agent: nat, id: Uid, lease: Uid, about: Outcome)  // `about` is history: the agent does not read it

  datatype System = System(
    hub: Hub, hubUp: bool, agents: map<nat, Agent>, conns: map<nat, nat>, net: set<Packet>,
    started: seq<Start>, stored: set<Stored>)

  datatype Event =
    | Command(capable: bool, who: Requester, work: Work, id: Uid, room: nat)
    | GiveUp(capable: bool, tenant: Name, id: Uid, room: nat)
    | Enroll(agent: nat, conn: nat, site: Name, operations: set<Name>, granted: set<Name>, seen: int)
    | Heartbeat(node: Name, seen: int)
    | Oracle(answer: Placement, now: int, lease: Uid, sent: bool, room: nat)
    | Drop(node: Name, conn: nat, room: nat)
    | Deliver(agent: nat, receipt: Receipt, room: nat)
    | Clock(now: int, room: nat)
    | HubCrash
    | HubBoot(room: nat)
    | AgentOrder(agent: nat, order: Order, admissible: bool, saved: bool)
    | AgentDone(agent: nat, outcome: Outcome, saved: bool)
    | AgentAck(agent: nat, id: Uid, lease: Uid, about: Outcome, saved: bool)
    | AgentReport(agent: nat, id: Uid)
    | AgentLink(agent: nat, ready: bool)
    | AgentStop(agent: nat)
    | AgentCrash(agent: nat)
    | AgentBoot(agent: nat, saved: bool)
    | Lose(packet: Packet)

  // ------------------------------------------------------------------ steps

  predicate HubIdle(s: System) { s.hubUp && s.hub.phase.Idle? }

  /** When an event can happen. The last line of `Oracle` is the placement contract: a node offered as free. */
  ghost predicate Enabled(s: System, e: Event) {
    match e
    case Command(_, _, _, id, _) => HubIdle(s) && Keyed(s.hub) && id !in s.hub.jobs
    case GiveUp(_, _, _, _) => HubIdle(s)
    case Enroll(agent, conn, _, _, _, _) => s.hubUp && agent in s.agents && s.agents[agent].up && conn !in s.conns
    case Heartbeat(node, _) => s.hubUp && node in s.hub.peers
    case Oracle(answer, _, _, _, _) =>
      && s.hubUp && s.hub.phase.Awaiting? && s.hub.phase.at < |s.hub.order| && Keyed(s.hub)
      && (answer.Placed? ==> answer.node in s.hub.phase.free)
    case Drop(_, _, _) => HubIdle(s) && Keyed(s.hub)
    case Deliver(agent, receipt, _) =>
      HubIdle(s) && Keyed(s.hub) && agent in s.agents && Receipts(agent, receipt) in s.net
    case Clock(_, _) => HubIdle(s) && Keyed(s.hub)
    case HubCrash => s.hubUp
    case HubBoot(_) => !s.hubUp
    case AgentOrder(agent, order, _, _) => agent in s.agents && s.agents[agent].up && Execute(agent, order) in s.net
    case AgentDone(agent, outcome, _) =>
      && agent in s.agents && s.agents[agent].up && s.agents[agent].busy.Some?
      && s.agents[agent].busy.value in s.agents[agent].cache.recs
      && outcome.state in {Succeeded, Failed}
    case AgentAck(agent, id, lease, about, _) =>
      agent in s.agents && s.agents[agent].up && Acked(agent, id, lease, about) in s.net
    case AgentReport(agent, id) => agent in s.agents && Reports(s.agents[agent], id)
    case AgentLink(agent, _) => agent in s.agents && s.agents[agent].up
    case AgentStop(agent) => agent in s.agents && s.agents[agent].up
    case AgentCrash(agent) => agent in s.agents && s.agents[agent].up
    case AgentBoot(agent, _) => agent in s.agents && !s.agents[agent].up
    case Lose(packet) => packet in s.net
  }

  /** The final receipts in agent `ag`'s file. */
  function OnDisk(ag: nat, file: Store): set<Stored> {
    set k | k in file.recs && file.recs[k].outcome.Some? ::
      Stored(ag, k, file.recs[k].order.lease, file.recs[k].outcome.value)
  }

  /** Agent `ag` moves to `a`; what its file then holds has been stored. */
  function WithAgent(s: System, ag: nat, a: Agent): System {
    s.(agents := s.agents[ag := a], stored := s.stored + OnDisk(ag, a.file))
  }

  ghost function Apply(s: System, e: Event): System
    requires Enabled(s, e)
  {
    match e
    case Command(capable, who, work, id, room) => s.(hub := Submit(s.hub, capable, who, work, id, room).0)
    case GiveUp(capable, tenant, id, room) => s.(hub := Abandon(s.hub, capable, tenant, id, room).0)
    case Enroll(agent, conn, site, operations, granted, seen) =>
      var a := s.agents[agent];
      (match Register(s.hub, Peer(conn, a.node, a.tenant, site, operations, seen), granted)
       case Ok(h) => s.(hub := h, conns := s.conns[conn := agent])
       case Err(_) => s)
    case Heartbeat(node, seen) =>
      s.(hub := s.hub.(peers := s.hub.peers[node := s.hub.peers[node].(seen := seen)]))
    case Oracle(answer, now, lease, sent, room) =>
      var s' := s.(hub := Answer(s.hub, answer, now, lease, sent, room).hub);
      if sent && Dispatches(s.hub, answer, now, room) && s.hub.peers[answer.node].conn in s.conns then
        var j := s.hub.jobs[s.hub.order[s.hub.phase.at]];
        s'.(net := s.net + {Execute(s.conns[s.hub.peers[answer.node].conn],
            Order(j.id, lease, j.work.op, j.work.data))})
      else s'
    case Drop(node, conn, room) => s.(hub := Disconnect(s.hub, node, conn, room).hub)
    case Deliver(agent, receipt, room) =>
      var a := s.agents[agent];
      var r := TakeReceipt(s.hub, a.node, a.tenant, receipt, room);
      if r.1.Ok? then s.(hub := r.0, net := s.net + {Acked(agent, receipt.id, receipt.lease, receipt.outcome)})
      else s.(hub := r.0)
    case Clock(now, room) => s.(hub := Tick(s.hub, now, room).hub)
    case HubCrash => s.(hubUp := false, hub := s.hub.(phase := Idle))
    case HubBoot(room) =>
      var r := Restart(s.hub.journal, room);
      s.(hub := r.hub, hubUp := r.ok)
    case AgentOrder(agent, order, admissible, saved) =>
      var (a, r) := OnOrder(s.agents[agent], order, admissible, saved);
      var s' := WithAgent(s, agent, a).(net := s.net - {Execute(agent, order)});
      if r == Run then s'.(started := s.started + [Start(agent, order)]) else s'
    case AgentDone(agent, outcome, saved) =>
      WithAgent(s, agent, OnDone(s.agents[agent], outcome, saved))
    case AgentAck(agent, id, lease, _, saved) => WithAgent(s, agent, OnAck(s.agents[agent], id, lease, saved))
    case AgentReport(agent, id) =>
      var e := s.agents[agent].cache.recs[id];
      s.(net := s.net + {Receipts(agent, Receipt(id, e.order.lease, e.outcome.value))})
    case AgentLink(agent, ready) => WithAgent(s, agent, s.agents[agent].(ready := ready))
    case AgentStop(agent) => WithAgent(s, agent, s.agents[agent].(stopped := true))
    case AgentCrash(agent) => WithAgent(s, agent, Crash(s.agents[agent]))
    case AgentBoot(agent, saved) => WithAgent(s, agent, Boot(s.agents[agent], saved))
    case Lose(packet) => s.(net := s.net - {packet})
  }

  /** A fresh hub and agents with empty receipt stores, all down. */
  ghost predicate Initial(s: System) {
    && s.hub == EMPTY && !s.hubUp && s.conns == map[] && s.net == {} && s.started == [] && s.stored == {}
    && forall ag :: ag in s.agents ==>
         !s.agents[ag].up && s.agents[ag].file == Store([], map[]) && s.agents[ag].busy.None?
  }

  /** The states that a list of events leads to, if each can happen in its turn. */
  ghost predicate Trace(s: System, es: seq<Event>, s': System)
    decreases |es|
  {
    if es == [] then s' == s
    else Enabled(s, es[0]) && Trace(Apply(s, es[0]), es[1..], s')
  }
}
