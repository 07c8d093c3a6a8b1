/** Where a job may run, and what each call to the hub decides, read off the fields of its table. */
module HubDecisions {
  // lib/fabric.js

  import opened Common
  import opened HubModel
  import opened HubSafety

  // ------------------------------------------------------------------ where a job may run

  /** The node is the tenant's own and, for work that names a node or a site, that node or a node of that site. */
  predicate Wanted(j: Job, p: Peer) {
    && p.tenant == j.who.tenant
    && (j.work.target.NodeTarget? ==> p.id == j.work.target.id)
    && (j.work.target.SiteTarget? ==> p.site == j.work.target.site)
  }

  /** No node that is registered is one for the job. */
  ghost predicate NobodyFor(h: Hub, j: Job) { forall n :: n in h.peers ==> !Wanted(j, h.peers[n]) }

  /** Nothing the table holds is on the node, or may still be. */
  ghost predicate FreeNode(h: Hub, n: Name) {
    forall x :: x in h.jobs && h.jobs[x].node == Some(n) ==> h.jobs[x].state != Assigned && h.jobs[x].state != Unknown
  }

  /**
   * The oracle is asked about the registered nodes the job wants, all of them and no others, on the connections they
   * are registered with, and is told which of them are free.
   */
  ghost predicate AskedExactly(h: Hub) {
    && h.phase.Awaiting? && h.phase.at < |h.order| && h.order[h.phase.at] in h.jobs
    && var j := h.jobs[h.order[h.phase.at]];
    && j.state == Queued && h.phase.asked != map[]
    && (forall n :: n in h.phase.asked <==> n in h.peers && Wanted(j, h.peers[n]))
    && (forall n :: n in h.phase.asked ==> h.phase.asked[n] == h.peers[n].conn)
    && (forall n :: n in h.phase.free <==> n in h.phase.asked && FreeNode(h, n))
  }

  /** The loop went past this job: it is not queued, or nobody registered is one for it. */
  ghost predicate Passed(h: Hub, k: nat) {
    k < |h.order| && h.order[k] in h.jobs && (h.jobs[h.order[k]].state == Queued ==>
        NobodyFor(h, h.jobs[h.order[k]]) && h.jobs[h.order[k]].reason == NoConnectedMatchingAgent)
  }

  lemma {:induction false} AskedHere(h: Hub, i: nat)
    requires Keyed(h) && i < |h.order| && h.jobs[h.order[i]].state == Queued
    requires Candidates(h, h.jobs[h.order[i]]) != map[]
    ensures AskedExactly(Scan(h, i))
  {
    var j := h.jobs[h.order[i]];
    forall n ensures n in Candidates(h, j) <==> n in h.peers && Wanted(j, h.peers[n]) {}
    forall n ensures FreeNode(h, n) <==> !Occupied(h, n) {}
  }

  lemma {:induction false} NobodyAsked(h: Hub, j: Job)
    requires Candidates(h, j) == map[]
    ensures NobodyFor(h, j)
  {
    forall n | n in h.peers ensures !Wanted(j, h.peers[n]) { assert n !in Candidates(h, j); }
  }

  /**
   * The scheduling loop stops at the first queued job that some registered node is for, and asks about exactly those
   * nodes; every queued job before it waits with the reason that no such node is connected.
   */
  lemma {:induction false} ScanDecided(h: Hub, i: nat)
    requires Keyed(h) && i <= |h.order| && forall a, b :: 0 <= a < b < |h.order| ==> h.order[a] != h.order[b]
    ensures var r := Scan(h, i);
      && (r.phase.Idle? ==> forall k :: i <= k < |h.order| ==> Passed(r, k))
      && (r.phase.Awaiting? ==>
            i <= r.phase.at && AskedExactly(r) && forall k :: i <= k < r.phase.at ==> Passed(r, k))
      && (forall k :: 0 <= k < i ==> r.jobs[h.order[k]] == h.jobs[h.order[k]])
    decreases |h.order| - i
  {
    hide AskedExactly;
    if i < |h.order| {
      var j := h.jobs[h.order[i]];
      if j.state != Queued {
        ScanDecided(h, i + 1);
        assert Passed(Scan(h, i), i);
      } else if Candidates(h, j) == map[] {
        NobodyAsked(h, j);
        ScanDecided(Annotate(h, j.id, NoConnectedMatchingAgent), i + 1);
        var r := Scan(h, i);
        assert r.jobs[h.order[i]].reason == NoConnectedMatchingAgent;
        assert NobodyFor(r, r.jobs[h.order[i]]);
        assert Passed(r, i);
      } else {
        AskedHere(h, i);
      }
    }
  }

  // ------------------------------------------------------------------ the oracle's answer

  /**
   * What an answer is checked against when it comes: the node named is still registered on the connection that was
   * asked about, was heard of within the last fifteen seconds, offers the operation and is the tenant's; the job still
   * waits.
   */
  predicate StillGood(h: Hub, j: Job, asked: map<Name, nat>, node: Name, now: int) {
    && j.state == Queued && node in asked && node in h.peers
    && var p := h.peers[node];
      p.conn == asked[node] && p.seen >= now - 15000 && j.work.op in p.operations && p.tenant == j.who.tenant
  }

  /**
   * The job that was asked about is assigned exactly when the oracle names a node that is still good and the journal
   * takes the assignment: for thirty seconds, under the new lease, and UNKNOWN at once when the message could not be
   * sent and that was journaled too. Otherwise it waits on.
   */
  lemma {:induction false} AwardDecided(h: Hub, p: Placement, now: int, lease: Uid, sent: bool, room: nat)
    requires Inv(h) && h.phase.Awaiting?
    ensures var x := h.order[h.phase.at];
      var r, j := Answer(h, p, now, lease, sent, room), h.jobs[x];
      && x in r.hub.jobs
      && if p.Placed? && StillGood(h, j, h.phase.asked, p.node, now) && room > 0 then
           && var k := r.hub.jobs[x];
           && k.node == Some(p.node) && k.lease == Some(lease) && k.deadline == now + 30000
           && k.work == j.work && k.who == j.who && k.id == j.id && k.result.None?
           && (sent || room == 1 ==> k.state == Assigned && k.reason == NoReason)
           && (!sent && room > 1 ==> k.state == Unknown && k.reason == TransportOutcomeUnknown)
           && (r.ok <==> sent || room > 1)
         else
           r.hub.jobs[x].state == Queued && (r.ok <==> !(p.Placed? && StillGood(h, j, h.phase.asked, p.node, now)))
  {
    var x := h.order[h.phase.at];
    var next := h.phase.at + 1;
    var j := h.jobs[x];
    assert Sound(h, x);
    if p.Placed? && StillGood(h, j, h.phase.asked, p.node, now) && room > 0 {
      var h1 := Record(h, Award(j, p.node, lease, now));
      AwardScanned(h1, x, next, sent, room);
    } else {
      WaitsOn(h, p, now, lease, sent, room);
    }
  }

  lemma {:induction false} AwardScanned(h1: Hub, x: Uid, next: nat, sent: bool, room: nat)
    requires Keyed(h1) && x in h1.jobs && h1.jobs[x].id == x && h1.jobs[x].state == Assigned
    ensures Scan(h1, next).jobs.Keys >= {x} && Scan(h1, next).jobs[x] == h1.jobs[x]
    ensures var b := h1.jobs[x].(state := Unknown, reason := TransportOutcomeUnknown);
      x in Scan(Record(h1, b), next).jobs && Scan(Record(h1, b), next).jobs[x] == b
  {
    var b := h1.jobs[x].(state := Unknown, reason := TransportOutcomeUnknown);
    ScanLeavesOthers(h1, next, x);
    ScanLeavesOthers(Record(h1, b), next, x);
  }

  lemma {:induction false} WaitsOn(h: Hub, p: Placement, now: int, lease: Uid, sent: bool, room: nat)
    requires Inv(h) && h.phase.Awaiting?
    requires !(p.Placed? && StillGood(h, h.jobs[h.order[h.phase.at]], h.phase.asked, p.node, now) && room > 0)
    ensures var x, r := h.order[h.phase.at], Answer(h, p, now, lease, sent, room);
      && x in r.hub.jobs && r.hub.jobs[x].state == Queued
      && (r.ok <==> !(p.Placed? && StillGood(h, h.jobs[x], h.phase.asked, p.node, now)))
  {
    var x, next := h.order[h.phase.at], h.phase.at + 1;
    ScanStaysQueued(h, x, next);
    match p
    case Unavailable => ScanStaysQueued(Annotate(h, x, SchedulerUnavailable), x, next);
    case Declined(code) => ScanStaysQueued(Annotate(h, x, PlacementRefused(code)), x, next);
    case Placed(_) =>
  }

  lemma {:induction false} ScanStaysQueued(h: Hub, x: Uid, i: nat)
    requires Keyed(h) && x in h.jobs && h.jobs[x].state == Queued
    ensures x in Scan(h, i).jobs && Scan(h, i).jobs[x].state == Queued
  {
    ScanQuiet(h, i);
    assert QuietAt(h, Scan(h, i), x);
  }

  // ------------------------------------------------------------------ losses

  /** A restart loses every assignment, a lost connection those of its node, the clock those that are overdue. */
  lemma {:induction false} LossDecided(j: Job, node: Name, now: int)
    ensures Hit(ByRestart, j) <==> j.state == Assigned
    ensures Hit(ByDisconnect(node), j) <==> j.state == Assigned && j.node == Some(node)
    ensures Hit(ByDeadline(now), j) <==> j.state == Assigned && j.deadline < now
    ensures Lost(ByRestart, j) == j.(state := Unknown, reason := HubRestart)
    ensures Lost(ByDisconnect(node), j) == j.(state := Unknown, reason := AgentDisconnected)
    ensures Lost(ByDeadline(now), j) == j.(state := Unknown, reason := DeadlineExpired)
  {}

  /** With room in the journal the loss of a connection makes exactly the jobs assigned to its node UNKNOWN. */
  lemma {:induction false} DisconnectDecided(h: Hub, id: Name, conn: nat, room: nat, x: Uid)
    requires Inv(h) && x in h.jobs && room >= |h.order|
    ensures var h' := Disconnect(h, id, conn, room).hub;
      var mine := id in h.peers && h.peers[id].conn == conn;
      && h'.peers == (if mine then h.peers - {id} else h.peers)
      && x in h'.jobs
      && h'.jobs[x] == (if mine && h.jobs[x].state == Assigned && h.jobs[x].node == Some(id)
                        then h.jobs[x].(state := Unknown, reason := AgentDisconnected) else h.jobs[x])
  {
    if id in h.peers && h.peers[id].conn == conn {
      var h1 := h.(peers := h.peers - {id});
      SweepExact(h1, 0, ByDisconnect(id), room);
      assert Sound(h, x);
      assert Swept(ByDisconnect(id), h1, Sweep(h1, 0, ByDisconnect(id), room).hub, x);
    }
  }

  /** With room in the journal the clock makes exactly the overdue assignments UNKNOWN. */
  lemma {:induction false} TickDecided(h: Hub, now: int, room: nat, x: Uid)
    requires Inv(h) && x in h.jobs && h.jobs[x].state != Queued && room >= |h.order|
    ensures var r := Tick(h, now, room);
      && r.ok && x in r.hub.jobs
      && r.hub.jobs[x] == (if h.jobs[x].state == Assigned && h.jobs[x].deadline < now
                           then h.jobs[x].(state := Unknown, reason := DeadlineExpired) else h.jobs[x])
  {
    SweepExact(h, 0, ByDeadline(now), room);
    assert Sound(h, x);
    var h1 := Sweep(h, 0, ByDeadline(now), room).hub;
    assert Swept(ByDeadline(now), h, h1, x);
    ScanLeavesOthers(h1, 0, x);
  }

  // ------------------------------------------------------------------ commands and agents

  /** The requester's job under this key, if there is one. */
  ghost predicate Known(h: Hub, who: Requester, x: Uid) { x in h.jobs && h.jobs[x].who == who }

  ghost predicate KeyFree(h: Hub, who: Requester) { forall x :: !Known(h, who, x) }

  lemma {:induction false} FindsKey(h: Hub, who: Requester)
    requires Inv(h)
    ensures FindKey(h, 0, who).None? <==> KeyFree(h, who)
  {
    var f := FindKey(h, 0, who);
    if f.Some? {
      assert Known(h, who, f.value);
    } else {
      forall x ensures !Known(h, who, x) { assert Sound(h, x); }
    }
  }

  /** A new key makes one more job, queued and free of any node, exactly when nothing stands in the way. */
  lemma {:induction false} SubmitDecided(h: Hub, capable: bool, who: Requester, work: Work, id: Uid, room: nat)
    requires Inv(h) && id !in h.jobs && KeyFree(h, who)
    ensures var (h', r) := Submit(h, capable, who, work, id, room);
      && (!capable ==> r == Refused(Forbidden))
      && (capable && |h.jobs| >= 1000 ==> r == Refused(JobRetentionLimit))
      && (capable && |h.jobs| < 1000 && !work.plain ==> r == Refused(BadObjectKey))
      && (capable && |h.jobs| < 1000 && work.plain && room == 0 ==> r == Refused(JournalLimit))
      && (capable && |h.jobs| < 1000 && work.plain && room > 0 ==>
            && r == Accepted(id) && h'.order == h.order + [id] && |h'.journal| == |h.journal| + 1 && id in h'.jobs
            && h'.jobs[id] == Job(id, who, work, Queued, None, None, 0, None, h'.jobs[id].reason))
      && (r.Refused? ==> h' == h)
  {
    FindsKey(h, who);
    if capable && |h.jobs| < 1000 && work.plain && room > 0 {
      var h1 := Record(h, NewJob(id, who, work));
      RecordKeyed(h, NewJob(id, who, work));
      ScanQuiet(h1, 0);
      assert QuietAt(h1, Scan(h1, 0), id);
    }
  }

  lemma {:induction false} RecordKeyed(h: Hub, j: Job)
    requires Keyed(h)
    ensures Keyed(Record(h, j))
  {}

  /** An abandoned job is one of the tenant's that waits or whose fate is unknown; a refusal names what it is not. */
  lemma {:induction false} AbandonDecided(h: Hub, capable: bool, tenant: Name, id: Uid, room: nat)
    ensures var (h', r) := Abandon(h, capable, tenant, id, room);
      var mine := id in h.jobs && h.jobs[id].who.tenant == tenant;
      && (!capable ==> r == Refused(Forbidden))
      && (capable && !mine ==> r == Refused(NotFound))
      && (capable && mine && h.jobs[id].state != Unknown && h.jobs[id].state != Queued ==>
          r == Refused(OnlyUnknownOrQueued))
      && (capable && mine && (h.jobs[id].state == Unknown || h.jobs[id].state == Queued) ==>
            r == if room == 0 then Refused(JournalLimit) else Accepted(id))
      && (r.Refused? ==> h' == h)
  {}

  /** A node registers once, with at most sixteen operations, all of them granted to it. */
  lemma {:induction false} RegisterDecided(h: Hub, p: Peer, granted: set<Name>)
    ensures var r := Register(h, p, granted);
      && (p.id in h.peers ==> r == Err(DuplicateAgent))
      && (p.id !in h.peers && (|p.operations| > 16 || exists op :: op in p.operations && op !in granted) ==>
            r == Err(CapabilityEscalation))
      && (p.id !in h.peers && |p.operations| <= 16 && (forall op :: op in p.operations ==> op in granted) ==>
            r == Ok(h.(peers := h.peers[p.id := p])))
  {}

  /** The job a receipt may speak about: assigned to that node, of that tenant, under that lease. */
  predicate Mine(h: Hub, node: Name, tenant: Name, r: Receipt) {
    && r.id in h.jobs
    && h.jobs[r.id].node == Some(node) && h.jobs[r.id].who.tenant == tenant && h.jobs[r.id].lease == Some(r.lease)
  }

  /**
   * A receipt for somebody else's assignment is refused. The first outcome is recorded as reported; the same one again
   * is acknowledged, another one is refused, and whatever comes for an abandoned job is acknowledged and dropped.
   */
  lemma {:induction false} ReceiptDecided(h: Hub, node: Name, tenant: Name, r: Receipt, room: nat)
    requires Inv(h) && h.phase.Idle?
    ensures var (h', a) := TakeReceipt(h, node, tenant, r, room);
      && (!Mine(h, node, tenant, r) ==> a == Err(ForeignOrStaleReceipt))
      && (Mine(h, node, tenant, r) ==>
            var j, o := h.jobs[r.id], r.outcome;
            if o.state != Succeeded && o.state != Failed && o.state != Unknown then a == Err(BadResultState)
            else if j.state == Abandoned then h' == h && a == Ok(Ack(r.id, r.lease, Abandoned))
            else if j.state == Succeeded || j.state == Failed then
              && r.id in h'.jobs && h'.jobs[r.id] == j
              && a == (if j.state == o.state && o.plain
                  && j.result == Some(o.result) then Ok(Ack(r.id, r.lease, j.state))
                       else if j.state == o.state && !o.plain then Err(BadObjectKey) else Err(ResultEquivocation))
            else if !o.plain then a == Err(BadObjectKey)
            else if room == 0 then a == Err(JournalLimit)
            else
              && a == Ok(Ack(r.id, r.lease, o.state)) && r.id in h'.jobs
              && h'.jobs[r.id] == j.(state := o.state, result := Some(o.result),
                                     reason := if o.state == Unknown then ExecutorUncertain else NoReason))
      && (a.Err? ==> h' == h)
  {
    assert Sound(h, r.id);
    if Mine(h, node, tenant, r) {
      ScanLeavesOthers(h, 0, r.id);
      RecordKeyed(h, Settle(h.jobs[r.id], r.outcome));
      if r.outcome.state == Succeeded || r.outcome.state == Failed || r.outcome.state == Unknown {
        ScanLeavesOthers(Record(h, Settle(h.jobs[r.id], r.outcome)), 0, r.id);
      }
    }
  }

  // ------------------------------------------------------------------ nothing waits for nothing

  /**
   * From index `i` of the table on, every queued job waits for a reason: nobody registered is one for it, or the oracle
   * is being asked about the first for which somebody is.
   */
  ghost predicate Scheduled(h: Hub, i: nat) {
    && (h.phase.Idle? ==> forall k :: i <= k < |h.order| ==> Passed(h, k))
    && (h.phase.Awaiting? ==> i <= h.phase.at && AskedExactly(h) && forall k :: i <= k < h.phase.at ==> Passed(h, k))
  }

  lemma {:induction false} ScanSchedules(h: Hub, i: nat)
    requires TableInv(h) && i <= |h.order|
    ensures Scheduled(Scan(h, i), i)
  {
    ScanDecided(h, i);
  }

  /** A new job, a receipt that is taken and every tick of the clock start the scheduling over. */
  lemma {:induction false} CallsSchedule(h: Hub, who: Requester, work: Work, id: Uid, node: Name, tenant: Name,
      r: Receipt,
      now: int, room: nat)
    requires Inv(h) && h.phase.Idle? && id !in h.jobs
    ensures KeyFree(h, who) && Submit(h, true, who, work, id, room).1.Accepted? ==>
      Scheduled(Submit(h, true, who, work, id, room).0, 0)
    ensures TakeReceipt(h, node, tenant, r, room).1.Ok? && r.id in h.jobs && h.jobs[r.id].state != Abandoned ==>
      Scheduled(TakeReceipt(h, node, tenant, r, room).0, 0)
    ensures Tick(h, now, room).ok ==> Scheduled(Tick(h, now, room).hub, 0)
  {
    SubmitSchedules(h, who, work, id, room);
    ReceiptSchedules(h, node, tenant, r, room);
    SweepKeeps(h, ByDeadline(now), room);
    ScanSchedules(Sweep(h, 0, ByDeadline(now), room).hub, 0);
  }

  lemma {:induction false} SubmitSchedules(h: Hub, who: Requester, work: Work, id: Uid, room: nat)
    requires Inv(h) && id !in h.jobs
    ensures KeyFree(h, who) && Submit(h, true, who, work, id, room).1.Accepted? ==>
      Scheduled(Submit(h, true, who, work, id, room).0, 0)
  {
    FindsKey(h, who);
    hide KeyFree, Scheduled, Inv;
    if KeyFree(h, who) && Submit(h, true, who, work, id, room).1.Accepted? { NewJobSchedules(h, who, work, id); }
  }

  lemma {:induction false} NewJobSchedules(h: Hub, who: Requester, work: Work, id: Uid)
    requires Inv(h) && id !in h.jobs && FindKey(h, 0, who).None?
    ensures Keyed(Record(h, NewJob(id, who, work))) && Scheduled(Scan(Record(h, NewJob(id, who, work)), 0), 0)
  {
    hide Scheduled;
    NoRequester(h, who, NewJob(id, who, work));
    RecordKeeps(h, NewJob(id, who, work));
    ScanSchedules(Record(h, NewJob(id, who, work)), 0);
  }

  lemma {:induction false} ReceiptSchedules(h: Hub, node: Name, tenant: Name, r: Receipt, room: nat)
    requires Inv(h)
    ensures TakeReceipt(h, node, tenant, r, room).1.Ok? && r.id in h.jobs && h.jobs[r.id].state != Abandoned ==>
      Scheduled(TakeReceipt(h, node, tenant, r, room).0, 0)
  {
    assert Sound(h, r.id);
    ScanSchedules(h, 0);
    if TakeReceipt(h, node, tenant, r, room).1.Ok? && !Final(h.jobs[r.id].state) {
      TransitionKeeps(h, Settle(h.jobs[r.id], r.outcome));
      ScanSchedules(Record(h, Settle(h.jobs[r.id], r.outcome)), 0);
    }
  }

  /** An answer that is not cut short by the journal goes on behind the job it was about. */
  lemma {:induction false} AnswerSchedules(h: Hub, p: Placement, now: int, lease: Uid, sent: bool, room: nat)
    requires Inv(h) && h.phase.Awaiting?
    requires p.Placed? ==> p.node in h.phase.free
    ensures Answer(h, p, now, lease, sent, room).ok ==>
        Scheduled(Answer(h, p, now, lease, sent, room).hub, h.phase.at + 1)
  {
    var x, next := h.order[h.phase.at], h.phase.at + 1;
    assert Sound(h, x);
    match p
    case Unavailable =>
      AnnotateKeeps(h, x, SchedulerUnavailable);
      ScanSchedules(Annotate(h, x, SchedulerUnavailable), next);
    case Declined(code) =>
      AnnotateKeeps(h, x, PlacementRefused(code));
      ScanSchedules(Annotate(h, x, PlacementRefused(code)), next);
    case Placed(node) =>
      ScanSchedules(h, next);
      if Commits(h, h.jobs[x], h.phase.asked, node, now) && room > 0 {
        AwardSchedules(h, x, node, lease, now, next);
      }
  }

  lemma {:induction false} AwardSchedules(h: Hub, x: Uid, node: Name, lease: Uid, now: int, next: nat)
    requires Inv(h) && x in h.jobs && h.jobs[x].id == x && h.jobs[x].state == Queued && next <= |h.order|
    requires !Occupied(h, node)
    ensures var a := Award(h.jobs[x], node, lease, now);
      var h1, b := Record(h, a), a.(state := Unknown, reason := TransportOutcomeUnknown);
      && TableInv(h1) && Scheduled(Scan(h1, next), next)
      && TableInv(Record(h1, b)) && Scheduled(Scan(Record(h1, b), next), next)
  {
    var a := Award(h.jobs[x], node, lease, now);
    var h1 := Record(h, a);
    assert Sound(h, x);
    FreeNodeFits(h, x, node, lease, now);
    RecordKeeps(h, a);
    ScanSchedules(h1, next);
    var b := a.(state := Unknown, reason := TransportOutcomeUnknown);
    assert Sound(h1, x);
    TransitionKeeps(h1, b);
    ScanSchedules(Record(h1, b), next);
  }
}
