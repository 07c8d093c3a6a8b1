/** Every stored outcome can still be delivered. */
module JobRecovery {
  // By a run that the program has: a hub process reads receipts only from agents that have registered with it, and only
  // what they send on that connection.

  import opened Common
  import opened HubModel
  import H = HubSafety
  import opened AgentModel
  import opened JobSystem
  import opened JobSafety
  import opened JobTheorems

  /**
   * What a recovery is made of: restarts, registrations with the tick that each of them sets off, scheduling, reports
   * and deliveries. Nobody asks for anything, and nobody gives anything up.
   */
  predicate Restoring(e: Event) {
    e.AgentCrash? || e.AgentBoot? || e.HubCrash? || e.HubBoot? || e.Enroll? || e.AgentLink? || e.Clock? || e.Oracle?
    || e.AgentReport? || e.Deliver?
  }

  /**
   * The connections between agents and this hub process: which agents have registered on theirs, what each has sent on
   * it and the hub has not read, and whether the tick after a registration is still to come.
   */
  datatype Lines = Lines(live: set<nat>, sent: map<nat, seq<Receipt>>, due: bool)

  const NO_LINES := Lines({}, map[], false)

  function Unread(l: Lines, ag: nat): seq<Receipt> { if ag in l.sent then l.sent[ag] else [] }

  /** The agent's connection is gone, with what was on it. */
  function Cut(l: Lines, ag: nat): Lines { l.(live := l.live - {ag}, sent := l.sent - {ag}) }

  /** The hub knows the node by a connection of this agent. */
  predicate Registered(s: System, ag: nat) {
    && ag in s.agents && s.agents[ag].node in s.hub.peers
    && s.hub.peers[s.agents[ag].node].conn in s.conns && s.conns[s.hub.peers[s.agents[ag].node].conn] == ag
  }

  /**
   * An agent registers on a connection that is new, and is welcomed when it has. A receipt is read in the order of its
   * connection, from an agent that has registered on it.
   */
  predicate Carries(s: System, l: Lines, e: Event) {
    match e
    case Enroll(ag, _, _, _, _, _) => ag in s.agents && !s.agents[ag].ready
    case AgentLink(ag, ready) => ready ==> ag in l.live
    case Deliver(ag, receipt, _) =>
      ag in l.live && Registered(s, ag) && !l.due && Unread(l, ag) != [] && Unread(l, ag)[0] == receipt
    case _ => true
  }

  ghost function Carried(s: System, l: Lines, e: Event): Lines
    requires Enabled(s, e)
  {
    match e
    case HubCrash => NO_LINES
    case HubBoot(_) => NO_LINES
    case AgentCrash(ag) => Cut(l, ag)
    case AgentBoot(ag, _) => Cut(l, ag)
    case AgentLink(ag, ready) => if ready then l else Cut(l, ag)
    case Enroll(ag, conn, _, _, _, _) =>
      if conn in Apply(s, e).conns then Lines(l.live + {ag}, l.sent - {ag}, true) else l
    case Clock(_, _) => l.(due := false)
    case AgentReport(ag, id) =>
      var entry := s.agents[ag].cache.recs[id];
      if ag in l.live && s.agents[ag].ready then
        l.(sent := l.sent[ag := Unread(l, ag) + [Receipt(id, entry.order.lease, entry.outcome.value)]])
      else l
    case Deliver(ag, _, _) => if Unread(l, ag) == [] then l else l.(sent := l.sent[ag := Unread(l, ag)[1..]])
    case _ => l
  }

  ghost predicate Path(s: System, l: Lines, es: seq<Event>, t: System, m: Lines)
    decreases |es|
  {
    if es == [] then t == s && m == l
    else
      && Enabled(s, es[0]) && Restoring(es[0]) && Carries(s, l, es[0])
      && Path(Apply(s, es[0]), Carried(s, l, es[0]), es[1..], t, m)
  }

  ghost predicate Leads(s: System, l: Lines, t: System, m: Lines) { exists es :: Path(s, l, es, t, m) }

  /** A recovery leads there, with no connection to begin with. */
  ghost predicate Recovers(s: System, t: System) { exists m :: Leads(s, NO_LINES, t, m) }

  lemma {:induction false} LeadsNowhere(s: System, l: Lines)
    ensures Leads(s, l, s, l)
  {
    assert Path(s, l, [], s, l);
  }

  lemma {:induction false} LeadsOn(s: System, l: Lines, e: Event)
    requires Enabled(s, e) && Restoring(e) && Carries(s, l, e)
    ensures Leads(s, l, Apply(s, e), Carried(s, l, e))
  {
    assert [e][1..] == [];
    assert Path(s, l, [e], Apply(s, e), Carried(s, l, e));
  }

  lemma {:induction false} PathJoin(a: System, k: Lines, xs: seq<Event>, b: System, l: Lines, ys: seq<Event>, c: System,
      m: Lines)
    requires Path(a, k, xs, b, l) && Path(b, l, ys, c, m)
    ensures Path(a, k, xs + ys, c, m)
    decreases |xs|
  {
    hide Enabled, Apply, Restoring, Carries, Carried;
    if xs == [] {
      assert xs + ys == ys;
    } else {
      assert (xs + ys)[1..] == xs[1..] + ys;
      PathJoin(Apply(a, xs[0]), Carried(a, k, xs[0]), xs[1..], b, l, ys, c, m);
    }
  }

  lemma {:induction false} LeadsJoin(a: System, k: Lines, b: System, l: Lines, c: System, m: Lines)
    requires Leads(a, k, b, l) && Leads(b, l, c, m)
    ensures Leads(a, k, c, m)
  {
    var xs :| Path(a, k, xs, b, l);
    var ys :| Path(b, l, ys, c, m);
    PathJoin(a, k, xs, b, l, ys, c, m);
  }

  lemma {:induction false} PathIsTrace(s: System, l: Lines, es: seq<Event>, t: System, m: Lines)
    requires Path(s, l, es, t, m)
    ensures Trace(s, es, t)
    decreases |es|
  {
    hide Enabled, Apply, Restoring, Carries, Carried;
    if es != [] { PathIsTrace(Apply(s, es[0]), Carried(s, l, es[0]), es[1..], t, m); }
  }

  lemma {:induction false} CutNothing(ag: nat)
    ensures Cut(NO_LINES, ag) == NO_LINES
  {}

  /** Restart an agent: it has loaded its file. */
  lemma {:induction false} AgentRestarts(s: System, ag: nat) returns (t: System)
    requires Inv(s) && ag in s.agents
    ensures Leads(s, NO_LINES, t, NO_LINES) && Inv(t) && ag in t.agents && s.stored <= t.stored
    ensures t.hub == s.hub && t.hubUp == s.hubUp
    ensures t.agents[ag] == Boot(if s.agents[ag].up then Crash(s.agents[ag]) else s.agents[ag], true)
  {
    hide Inv, Boot, Leads, OnDisk;
    CutNothing(ag);
    var d := s;
    LeadsNowhere(s, NO_LINES);
    if s.agents[ag].up {
      d := Apply(s, AgentCrash(ag));
      LeadsOn(s, NO_LINES, AgentCrash(ag));
      StepKeeps(s, AgentCrash(ag));
    }
    t := Apply(d, AgentBoot(ag, true));
    LeadsOn(d, NO_LINES, AgentBoot(ag, true));
    StepKeeps(d, AgentBoot(ag, true));
    LeadsJoin(s, NO_LINES, d, NO_LINES, t, NO_LINES);
  }

  /** The outcome is in the store that the agent loads. */
  lemma {:induction false} AgentReloads(s: System, r: Stored) returns (t: System)
    requires Inv(s) && r in s.stored && StoresBounded(s, r.agent) && !H.Holds(s.hub, r.id, r.outcome)
    ensures Leads(s, NO_LINES, t, NO_LINES) && Inv(t) && r in t.stored && t.hub == s.hub && t.hubUp == s.hubUp
    ensures r.agent in t.agents && Reports(t.agents[r.agent], r.id) && !t.agents[r.agent].ready
    ensures t.agents[r.agent].cache.recs[r.id].outcome == Some(r.outcome)
  {
    assert StoredOk(s, r) && FileOk(s, r.agent, r.id);
    hide Inv, Leads;
    t := AgentRestarts(s, r.agent);
    var f := s.agents[r.agent].file;
    PruneShrinks(Reload(f));
    assert Shrinks(Reload(f), Prune(Reload(f)), r.id);
  }

  /**
   * Restart the hub: it is up and idle, without peers, and knows the same jobs, where one that was assigned is now of
   * unknown outcome.
   */
  lemma {:induction false} HubReloads(s: System) returns (t: System)
    requires Inv(s)
    ensures forall x :: x in s.hub.jobs ==> x in t.hub.jobs && t.hub.jobs[x] == H.Restarted(s.hub.jobs[x])
    ensures Leads(s, NO_LINES, t, NO_LINES) && Inv(t) && HubIdle(t) && t.hub.peers == map[]
    ensures t.net == s.net && t.agents == s.agents && t.stored == s.stored
  {
    hide Inv, Leads;
    var d := s;
    LeadsNowhere(s, NO_LINES);
    if s.hubUp {
      d := Apply(s, HubCrash);
      LeadsOn(s, NO_LINES, HubCrash);
      StepKeeps(s, HubCrash);
    }
    BootsIdle(d);
    var e := HubBoot(|d.hub.order|);
    t := Apply(d, e);
    LeadsOn(d, NO_LINES, e);
    StepKeeps(d, e);
    LeadsJoin(s, NO_LINES, d, NO_LINES, t, NO_LINES);
  }

  lemma {:induction false} BootsIdle(s: System)
    requires Inv(s)
    ensures var r := Restart(s.hub.journal, |s.hub.order|);
      && r.ok && r.hub.phase.Idle? && r.hub.peers == map[]
      && forall x :: x in s.hub.jobs ==> x in r.hub.jobs && r.hub.jobs[x] == H.Restarted(s.hub.jobs[x])
  {
    H.CrashRefinement(s.hub, |s.hub.order|);
    KeyedReplay(s.hub.journal);
  }

  // ------------------------------------------------------------------ a connection

  /** No job is lost, and none is given up. */
  predicate Spared(h: Hub, h': Hub, x: Uid) {
    x in h.jobs && h.jobs[x].state != Abandoned ==> x in h'.jobs && h'.jobs[x].state != Abandoned
  }

  /** The hub alone has moved. */
  predicate HubOnly(s: System, t: System) { t == s.(hub := t.hub) && t.hub.peers == s.hub.peers }

  lemma {:induction false} QuietSpares(h: Hub, h': Hub)
    requires H.Quiet(h, h')
    ensures forall x :: Spared(h, h', x)
  {
    forall x ensures Spared(h, h', x) { assert H.QuietAt(h, h', x); }
  }

  lemma {:induction false} SparedOn(a: Hub, b: Hub, c: Hub)
    requires (forall x :: Spared(a, b, x)) && forall x :: Spared(b, c, x)
    ensures forall x :: Spared(a, c, x)
  {
    forall x ensures Spared(a, c, x) { assert Spared(a, b, x) && Spared(b, c, x); }
  }

  lemma {:induction false} ScanStops(h: Hub, i: nat)
    requires Keyed(h)
    ensures Scan(h, i).phase.Awaiting? ==> i <= Scan(h, i).phase.at < |h.order|
    decreases |h.order| - i
  {
    if i < |h.order| && h.jobs[h.order[i]].state == Queued {
      if Candidates(h, h.jobs[h.order[i]]) == map[] {
        ScanStops(Annotate(h, h.jobs[h.order[i]].id, NoConnectedMatchingAgent), i + 1);
      }
    } else if i < |h.order| {
      ScanStops(h, i + 1);
    }
  }

  /** The oracle cannot be asked: the hub goes on with the next job. */
  lemma {:induction false} Unanswered(s: System) returns (t: System)
    requires Inv(s) && s.hubUp && s.hub.phase.Awaiting?
    ensures Inv(t) && t.hubUp && HubOnly(s, t) && t.hub.order == s.hub.order && forall x :: Spared(s.hub, t.hub, x)
    ensures forall l :: Leads(s, l, t, l)
    ensures t.hub.phase.Awaiting? ==> s.hub.phase.at < t.hub.phase.at < |s.hub.order|
  {
    var e := Oracle(Unavailable, 0, 0, false, 0);
    t := Apply(s, e);
    forall l ensures Leads(s, l, t, l) { LeadsOn(s, l, e); }
    StepKeeps(s, e);
    H.AnswerKeeps(s.hub, Unavailable, 0, 0, false, 0);
    QuietSpares(s.hub, t.hub);
    ScanStops(Annotate(s.hub, s.hub.jobs[s.hub.order[s.hub.phase.at]].id, SchedulerUnavailable), s.hub.phase.at + 1);
  }

  /** Scheduling comes to an end. */
  lemma {:induction false} Schedules(s: System, l: Lines) returns (t: System)
    requires Inv(s) && s.hubUp
    ensures Leads(s, l, t, l) && Inv(t) && HubIdle(t) && HubOnly(s, t) && forall x :: Spared(s.hub, t.hub, x)
    decreases if s.hub.phase.Awaiting? then 1 + |s.hub.order| - s.hub.phase.at else 0
  {
    hide Inv, Leads, Spared;
    if s.hub.phase.Idle? {
      LeadsNowhere(s, l);
      t := s;
      SparesSelf(s.hub);
    } else {
      AwaitsWithin(s);
      var u := Unanswered(s);
      t := Schedules(u, l);
      LeadsJoin(s, l, u, l, t, l);
      SparedOn(s.hub, u.hub, t.hub);
    }
  }

  lemma {:induction false} SparesSelf(h: Hub)
    ensures forall x :: Spared(h, h, x)
  {}

  lemma {:induction false} AwaitsWithin(s: System)
    requires Inv(s)
    ensures s.hub.phase.Awaiting? ==> s.hub.phase.at < |s.hub.order|
  {}

  lemma {:induction false} FreshConn(conns: map<nat, nat>) returns (c: nat)
    ensures c !in conns
  {
    c := 0;
    var rest := conns.Keys;
    while rest != {}
      invariant rest <= conns.Keys && forall k :: k in conns && k !in rest ==> k < c
      decreases |rest|
    {
      var k :| k in rest;
      if k >= c { c := k + 1; }
      rest := rest - {k};
    }
  }

  const SITE := Name("site")
  const OPERATION := Name("echo")

  /** A running agent registers with a hub that has no peers; the tick that this sets off does its scheduling. */
  lemma {:induction false} Registers(s: System, ag: nat) returns (t: System, l: Lines)
    requires Inv(s) && HubIdle(s) && s.hub.peers == map[] && ag in s.agents && s.agents[ag].up && !s.agents[ag].ready
    ensures Leads(s, NO_LINES, t, l) && l == Lines({ag}, map[], false)
    ensures Inv(t) && HubIdle(t) && t.agents == s.agents && t.stored == s.stored && Registered(t, ag)
    ensures forall x :: Spared(s.hub, t.hub, x)
  {
    hide Inv, Leads, Spared;
    var c := FreshConn(s.conns);
    var enroll := Enroll(ag, c, SITE, {OPERATION}, {OPERATION}, 0);
    var s1, l1 := Apply(s, enroll), Lines({ag}, map[], true);
    Enrolled(s, ag, c);
    LeadsOn(s, NO_LINES, enroll);
    StepKeeps(s, enroll);
    IdleKeyed(s1);
    var s2 := Apply(s1, Clock(0, 0));
    LeadsOn(s1, l1, Clock(0, 0));
    StepKeeps(s1, Clock(0, 0));
    Ticked(s1);
    l := Lines({ag}, map[], false);
    t := Schedules(s2, l);
    LeadsJoin(s, NO_LINES, s1, l1, s2, l);
    LeadsJoin(s, NO_LINES, s2, l, t, l);
    SparedOn(s1.hub, s2.hub, t.hub);
    SparedOn(s.hub, s1.hub, t.hub);
  }

  lemma {:induction false} Enrolled(s: System, ag: nat, c: nat)
    requires HubIdle(s) && s.hub.peers == map[] && ag in s.agents && s.agents[ag].up && c !in s.conns
    ensures var e := Enroll(ag, c, SITE, {OPERATION}, {OPERATION}, 0); var t := Apply(s, e);
      && Carried(s, NO_LINES, e) == Lines({ag}, map[], true)
      && HubIdle(t) && t.agents == s.agents && t.stored == s.stored && Registered(t, ag)
      && forall x :: Spared(s.hub, t.hub, x)
  {
    assert |{OPERATION}| == 1;
    assert {} + {ag} == {ag} && NO_LINES.sent - {ag} == map[];
  }

  lemma {:induction false} IdleKeyed(s: System)
    requires Inv(s) && HubIdle(s)
    ensures Enabled(s, Clock(0, 0))
  {}

  lemma {:induction false} Ticked(s: System)
    requires Inv(s) && HubIdle(s)
    ensures var t := Apply(s, Clock(0, 0)); t.hubUp && HubOnly(s, t) && forall x :: Spared(s.hub, t.hub, x)
  {
    H.TickKeeps(s.hub, 0, 0);
    QuietSpares(s.hub, Tick(s.hub, 0, 0).hub);
  }

  // ------------------------------------------------------------------ the delivery

  /** A registered agent that has the outcome reports it, and the hub reads it. */
  lemma {:induction false} ReportArrives(s: System, l: Lines, r: Stored) returns (t: System, m: Lines)
    requires Inv(s) && HubIdle(s) && Registered(s, r.agent) && l == Lines({r.agent}, map[], false)
    requires r in s.stored && r.outcome.plain && r.id in s.hub.jobs && s.hub.jobs[r.id].state != Abandoned
    requires Reports(s.agents[r.agent], r.id) && s.agents[r.agent].cache.recs[r.id].outcome == Some(r.outcome)
    ensures Leads(s, l, t, m) && Recorded(t.hub, r)
  {
    hide Inv, Leads;
    var link, report := AgentLink(r.agent, true), AgentReport(r.agent, r.id);
    var s1 := Apply(s, link);
    LeadsOn(s, l, link);
    StepKeeps(s, link);
    var s2, l2 := Apply(s1, report), Carried(s1, l, report);
    LeadsOn(s1, l, report);
    StepKeeps(s1, report);
    var rc := Receipt(r.id, r.lease, r.outcome);
    var deliver := Deliver(r.agent, rc, 1);
    DeliverLast(s2, r);
    t, m := Apply(s2, deliver), Carried(s2, l2, deliver);
    assert l2.sent[r.agent] == [rc];
    LeadsOn(s2, l2, deliver);
    LeadsJoin(s, l, s1, l, s2, l2);
    LeadsJoin(s, l, s2, l2, t, m);
  }

  lemma {:induction false} DeliverLast(s: System, r: Stored)
    requires Inv(s) && HubIdle(s) && r.agent in s.agents && r in s.stored && r.outcome.plain && s.agents[r.agent].up
    requires r.id in s.agents[r.agent].cache.recs && s.agents[r.agent].cache.recs[r.id].outcome == Some(r.outcome)
    requires r.id in s.hub.jobs && s.hub.jobs[r.id].state != Abandoned && !s.agents[r.agent].stopped
    requires Receipts(r.agent, Receipt(r.id, s.agents[r.agent].cache.recs[r.id].order.lease, r.outcome)) in s.net
    ensures s.agents[r.agent].cache.recs[r.id].order.lease == r.lease
    ensures var e := Deliver(r.agent, Receipt(r.id, r.lease, r.outcome), 1);
            Enabled(s, e) && Recorded(Apply(s, e).hub, r)
  {
    assert CacheOk(s, r.agent, r.id);
    var e := s.agents[r.agent].cache.recs[r.id];
    assert SingleOutcome(s, r, Stored(r.agent, r.id, e.order.lease, r.outcome));
    GenuineReceiptTaken(s, r, 1);
    var a := s.agents[r.agent];
    var rc := Receipt(r.id, r.lease, r.outcome);
    H.ReceiptKeeps(s.hub, a.node, a.tenant, rc, 1);
    StillGiven(s.hub, TakeReceipt(s.hub, a.node, a.tenant, rc, 1).0, rc);
  }

  /** A receipt does not give a job up. */
  lemma {:induction false} StillGiven(h: Hub, h': Hub, r: Receipt)
    requires H.Quiet(h, h') || H.Settled(h, h', r)
    requires r.id in h.jobs && h.jobs[r.id].state != Abandoned && H.Holds(h', r.id, r.outcome)
    ensures r.id in h'.jobs && H.Has(h'.jobs[r.id], r.outcome)
  {
    if H.Quiet(h, h') { assert H.QuietAt(h, h', r.id); }
  }

  lemma {:induction false} Redelivered(s: System, r: Stored) returns (t: System)
    requires Inv(s) && r in s.stored && StoresBounded(s, r.agent)
    requires r.outcome.plain && r.id in s.hub.jobs && s.hub.jobs[r.id].state != Abandoned
    ensures Recovers(s, t) && Recorded(t.hub, r)
  {
    hide Inv, Leads, HubIdle;
    if H.Holds(s.hub, r.id, r.outcome) {
      LeadsNowhere(s, NO_LINES);
      t := s;
    } else {
      var s1 := AgentReloads(s, r);
      var s2 := HubReloads(s1);
      var s3, l := Registers(s2, r.agent);
      assert Spared(s2.hub, s3.hub, r.id);
      var u, m := ReportArrives(s3, l, r);
      t := u;
      LeadsJoin(s, NO_LINES, s1, NO_LINES, s2, NO_LINES);
      LeadsJoin(s, NO_LINES, s2, NO_LINES, s3, l);
      LeadsJoin(s, NO_LINES, s3, l, t, m);
    }
  }

  /**
   * From every state of every run, a stored outcome can still reach the hub: restart both processes, let the agent
   * register, report, deliver. Unless the operator has abandoned the job, such a run leads to a table that has this
   * outcome exactly when its result is plain.
   */
  lemma {:induction false} OutcomeDeliverable(s0: System, es: seq<Event>, s: System, r: Stored)
    requires Initial(s0) && Trace(s0, es, s) && r in s.stored
    ensures r.id in s.hub.jobs
    ensures s.hub.jobs[r.id].state != Abandoned ==>
      (r.outcome.plain <==> exists t :: Recovers(s, t) && Recorded(t.hub, r))
  {
    hide Inv, Initial, StoresBounded, Leads;
    InitialInv(s0);
    TraceKeeps(s0, es, s);
    GenuineReceiptTaken(s, r, 1);
    if r.outcome.plain && s.hub.jobs[r.id].state != Abandoned {
      StartsBounded(s0);
      TraceBounded(s0, es, s);
      var t := Redelivered(s, r);
    }
    if t :| Recovers(s, t) && Recorded(t.hub, r) {
      var more := RunOf(s, t);
      TraceJoin(s0, es, s, more, t);
      StoredStays(s, more, t);
      if !r.outcome.plain { UnrecordableStaysOpen(s0, es + more, t, r); }
    }
  }

  lemma {:induction false} RunOf(s: System, t: System) returns (es: seq<Event>)
    requires Recovers(s, t)
    ensures Trace(s, es, t)
  {
    var m :| Leads(s, NO_LINES, t, m);
    es :| Path(s, NO_LINES, es, t, m);
    PathIsTrace(s, NO_LINES, es, t, m);
  }
}
