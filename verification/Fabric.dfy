/**
 * The hub object of lib/fabric.js: its fields, updated in place, and its methods, each tied to the function of
 * HubModel that says what the whole new state is.
 */
module FabricHub {
  import opened Common
  import opened HubModel

  class Fabric {
    var journal: seq<Job>
    var jobs: map<Uid, Job>
    var order: seq<Uid>
    var peers: map<Name, Peer>
    var phase: Phase

    ghost function State(): Hub
      reads this
    {
      Hub(journal, jobs, order, peers, phase)
    }

    /** Replay the journal, then report every lost assignment as UNKNOWN. */
    constructor (log: seq<Job>, room: nat)
      ensures State() == Restart(log, room).hub
    {
      journal, jobs, order, peers, phase := log, map[], [], map[], Idle;
      new;
      for i := 0 to |log|
        invariant State() == Replay(log[..i]).(journal := log)
      {
        assert log[..i + 1][..i] == log[..i];
        var j := log[i];
        if j.id !in jobs { order := order + [j.id]; }
        jobs := jobs[j.id := j];
      }
      assert log[..|log|] == log;
      KeyedReplay(log);
      var _ := LoseAssignments(ByRestart, room);
    }

    /** `record`: append to the journal, or throw; then the live table. The record is hashed before it is measured. */
    method Append(j: Job, plain: bool, room: nat) returns (refused: Option<Refusal>)
      modifies this`journal, this`jobs, this`order
      ensures refused == if !plain then Some(BadObjectKey) else if room == 0 then Some(JournalLimit) else None
      ensures State() == if refused.None? then Record(old(State()), j) else old(State())
    {
      if !plain { return Some(BadObjectKey); }
      if room == 0 { return Some(JournalLimit); }
      journal := journal + [j];
      if j.id !in jobs { order := order + [j.id]; }
      jobs := jobs[j.id := j];
      return None;
    }

    /** The loop shared by restart, disconnect and tick. */
    method LoseAssignments(w: Loss, room: nat) returns (ok: bool)
      requires Keyed(State())
      modifies this`journal, this`jobs, this`order
      ensures State() == Sweep(old(State()), 0, w, room).hub && ok == Sweep(old(State()), 0, w, room).ok
    {
      var i, left := 0, room;
      while i < |order|
        invariant i <= |order| && Keyed(State())
        invariant Sweep(State(), i, w, left) == Sweep(old(State()), 0, w, room)
        decreases |order| - i
      {
        var j := jobs[order[i]];
        if Hit(w, j) {
          var refused := Append(Lost(w, j), true, left);
          if refused.Some? { return false; }
          left := left - 1;
        }
        i := i + 1;
      }
      return true;
    }

    /** The schedule loop, from index `from` to its next await. */
    method Resume(from: nat)
      requires Keyed(State())
      modifies this`jobs, this`phase
      ensures State() == Scan(old(State()), from)
    {
      var i := from;
      while i < |order|
        invariant Keyed(State())
        invariant Scan(State(), i) == Scan(old(State()), from)
        decreases |order| - i
      {
        var j := jobs[order[i]];
        if j.state == Queued {
          var asked := map n | n in peers && Matches(j, peers[n]) :: peers[n].conn;
          if asked != map[] {
            var busy := set x | x in jobs && jobs[x].node.Some? && Busy(jobs[x]) :: jobs[x].node.value;
            assert (set n | n in asked && n !in busy) == FreeNodes(State(), asked);
            phase := Awaiting(i, asked, set n | n in asked && n !in busy);
            return;
          }
          jobs := jobs[j.id := j.(reason := NoConnectedMatchingAgent)];
        }
        i := i + 1;
      }
      phase := Idle;
    }

    /** The oracle answered. `sent` is what the agent's send returned, if it was called. */
    method OnPlacement(p: Placement, now: int, lease: Uid, sent: bool, room: nat) returns (ok: bool)
      requires Keyed(State()) && phase.Awaiting? && phase.at < |order|
      modifies this`journal, this`jobs, this`order, this`phase
      ensures State() == Answer(old(State()), p, now, lease, sent, room).hub
      ensures ok == Answer(old(State()), p, now, lease, sent, room).ok
    {
      var j := jobs[order[phase.at]];
      var next := phase.at + 1;
      ok := true;
      match p
      case Unavailable =>
        jobs := jobs[j.id := j.(reason := SchedulerUnavailable)];
        Resume(next);
      case Declined(code) =>
        jobs := jobs[j.id := j.(reason := PlacementRefused(code))];
        Resume(next);
      case Placed(node) =>
        var commits := node in peers && node in phase.asked && peers[node].conn == phase.asked[node]
                       && now - peers[node].seen <= STALE_MS && j.work.op in peers[node].operations
                       && peers[node].tenant == j.who.tenant && j.state == Queued;
        if !commits {
          Resume(next);
        } else {
          var a := Award(j, node, lease, now);
          var refused := Append(a, true, room);
          if refused.None? && !sent {
            refused := Append(a.(state := Unknown, reason := TransportOutcomeUnknown), true, room - 1);
          }
          ok := refused.None?;
          if ok { Resume(next); } else { phase := Idle; }
        }
    }

    method Command(capable: bool, who: Requester, work: Work, id: Uid, room: nat) returns (r: Reply)
      requires Keyed(State()) && id !in jobs && phase.Idle?
      modifies this`journal, this`jobs, this`order, this`phase
      ensures (State(), r) == Submit(old(State()), capable, who, work, id, room)
    {
      if !capable { return Refused(Forbidden); }
      var i := 0;
      while i < |order| && jobs[order[i]].who != who
        invariant i <= |order|
        invariant FindKey(State(), i, who) == FindKey(State(), 0, who)
      {
        i := i + 1;
      }
      if i < |order| {
        if !work.plain { return Refused(BadObjectKey); }
        if jobs[order[i]].work != work { return Refused(IdempotencyConflict); }
        return Accepted(order[i]);
      }
      if |jobs| >= JOB_RETENTION { return Refused(JobRetentionLimit); }
      var refused := Append(NewJob(id, who, work), work.plain, room);
      if refused.Some? { return Refused(refused.value); }
      Resume(0);
      return Accepted(id);
    }

    method Abandon(capable: bool, tenant: Name, id: Uid, room: nat) returns (r: Reply)
      requires phase.Idle?
      modifies this`journal, this`jobs, this`order
      ensures (State(), r) == HubModel.Abandon(old(State()), capable, tenant, id, room)
    {
      if !capable { return Refused(Forbidden); }
      if id !in jobs || jobs[id].who.tenant != tenant { return Refused(NotFound); }
      if jobs[id].state != Unknown && jobs[id].state != Queued { return Refused(OnlyUnknownOrQueued); }
      var refused := Append(jobs[id].(state := Abandoned, reason := OperatorAbandoned), true, room);
      if refused.Some? { return Refused(refused.value); }
      return Accepted(id);
    }

    /** Not serialized: may run while the oracle is being asked. */
    method Register(p: Peer, granted: set<Name>) returns (r: Result<(), Refusal>)
      modifies this`peers
      ensures match HubModel.Register(old(State()), p, granted)
              case Ok(h) => r == Ok(()) && State() == h
              case Err(e) => r == Err(e) && State() == old(State())
    {
      if p.id in peers { return Err(DuplicateAgent); }
      if !(p.operations <= granted) || |p.operations| > 16 { return Err(CapabilityEscalation); }
      peers := peers[p.id := p];
      return Ok(());
    }

    method Disconnect(id: Name, conn: nat, room: nat) returns (ok: bool)
      requires Keyed(State()) && phase.Idle?
      modifies this`journal, this`jobs, this`order, this`peers
      ensures State() == HubModel.Disconnect(old(State()), id, conn, room).hub
    {
      if id !in peers || peers[id].conn != conn { return true; }
      peers := peers - {id};
      ok := LoseAssignments(ByDisconnect(id), room);
    }

    method OnReceipt(node: Name, tenant: Name, r: Receipt, room: nat) returns (a: Result<Ack, Refusal>)
      requires Keyed(State()) && phase.Idle? && (r.id in jobs ==> jobs[r.id].id == r.id && r.id in order)
      modifies this`journal, this`jobs, this`order, this`phase
      ensures (State(), a) == TakeReceipt(old(State()), node, tenant, r, room)
    {
      if r.id !in jobs { return Err(ForeignOrStaleReceipt); }
      var j := jobs[r.id];
      if j.node != Some(node) || j.who.tenant != tenant || j.lease != Some(r.lease) {
        return Err(ForeignOrStaleReceipt);
      }
      if r.outcome.state !in {Succeeded, Failed, Unknown} { return Err(BadResultState); }
      if Final(j.state) {
        if j.state == Abandoned { return Ok(Ack(j.id, r.lease, Abandoned)); }
        if j.state != r.outcome.state { return Err(ResultEquivocation); }
        if !r.outcome.plain { return Err(BadObjectKey); }
        if j.result != Some(r.outcome.result) { return Err(ResultEquivocation); }
      } else {
        var refused := Append(Settle(j, r.outcome), r.outcome.plain, room);
        if refused.Some? { return Err(refused.value); }
      }
      Resume(0);
      return Ok(Ack(j.id, r.lease, r.outcome.state));
    }

    method Tick(now: int, room: nat) returns (ok: bool)
      requires Keyed(State()) && phase.Idle?
      modifies this`journal, this`jobs, this`order, this`phase
      ensures State() == HubModel.Tick(old(State()), now, room).hub
    {
      ok := LoseAssignments(ByDeadline(now), room);
      if ok { Resume(0); }
    }
  }
}
