/** What holds in every state of every run of hub, agents and network, and why each single step keeps it. */
module JobSafety {
  // Each job is started at most once, on the node it was assigned to and with the work that was submitted; a result in
  // the hub's table is one that the assigned agent stored; no stored result is lost by pruning.

  import opened Common
  import opened HubModel
  import H = HubSafety
  import opened AgentModel
  import opened JobSystem

  // ------------------------------------------------------------------ invariant, element by element

  /** The order is the hub's own assignment of that job to this agent. */
  ghost predicate OrderOk(s: System, ag: nat, o: Order) {
    && ag in s.agents
    && o.id in s.hub.jobs
    && var j := s.hub.jobs[o.id];
       && j.state != Queued
       && j.node == Some(s.agents[ag].node) && j.who.tenant == s.agents[ag].tenant
       && j.lease == Some(o.lease)
       && j.work.op == o.op && j.work.data == o.data
  }

  ghost predicate Began(s: System, x: Uid) {
    exists i :: 0 <= i < |s.started| && s.started[i].order.id == x
  }

  ghost predicate PacketOk(s: System, p: Packet) {
    p in s.net ==>
      match p
      case Execute(ag, o) => OrderOk(s, ag, o) && !Began(s, o.id)
      case Receipts(ag, r) => Stored(ag, r.id, r.lease, r.outcome) in s.stored
      case Acked(ag, id, lease, about) => Stored(ag, id, lease, about) in s.stored && H.Holds(s.hub, id, about)
  }

  ghost predicate SingleOrder(s: System, p: Packet, q: Packet) {
    p in s.net && q in s.net && p.Execute? && q.Execute? && p.order.id == q.order.id ==> p == q
  }

  ghost predicate StartOk(s: System, i: nat) {
    i < |s.started| ==> OrderOk(s, s.started[i].agent, s.started[i].order)
  }

  /** A stored outcome is still in the agent's file, or the hub has it. */
  ghost predicate Kept(s: System, r: Stored) {
    || H.Holds(s.hub, r.id, r.outcome)
    || (r.agent in s.agents && r.id in s.agents[r.agent].file.recs
        && s.agents[r.agent].file.recs[r.id].outcome == Some(r.outcome))
  }

  ghost predicate StoredOk(s: System, r: Stored) {
    r in s.stored ==>
      && r.agent in s.agents
      && r.outcome.state in {Succeeded, Failed, Unknown}
      && (exists i :: 0 <= i < |s.started| && s.started[i].agent == r.agent
                      && s.started[i].order.id == r.id && s.started[i].order.lease == r.lease)
      && Kept(s, r)
  }

  ghost predicate SingleOutcome(s: System, r: Stored, q: Stored) {
    r in s.stored && q in s.stored && r.id == q.id ==> r == q
  }

  ghost predicate Unstored(s: System, k: Uid) { forall r :: r in s.stored ==> r.id != k }

  ghost predicate EntryOk(s: System, ag: nat, k: Uid, e: Entry) {
    && e.order.id == k
    && Start(ag, e.order) in s.started
    && (e.outcome.Some? ==> Stored(ag, k, e.order.lease, e.outcome.value) in s.stored)
    && (e.outcome.None? ==> !e.acked && Unstored(s, k))
    && (e.acked ==> e.outcome.Some? && H.Holds(s.hub, k, e.outcome.value))
  }

  ghost predicate FileOk(s: System, ag: nat, k: Uid) {
    ag in s.agents && k in s.agents[ag].file.recs ==> EntryOk(s, ag, k, s.agents[ag].file.recs[k])
  }

  /** The memory of an agent that may still write it differs from its file by acknowledgements and pruning only. */
  ghost predicate Live(a: Agent) { a.up && (!a.stopped || a.busy.Some?) }

  ghost predicate CacheOk(s: System, ag: nat, k: Uid) {
    ag in s.agents && Live(s.agents[ag]) ==>
      var a := s.agents[ag];
      && (k in a.cache.recs ==>
            && k in a.file.recs
            && EntryOk(s, ag, k, a.cache.recs[k])
            && (a.cache.recs[k] == a.file.recs[k]
                || (a.stopped && a.cache.recs[k] == a.file.recs[k].(acked := true)))
            && (a.cache.recs[k].outcome.None? ==> a.busy == Some(k)))
      && (k in a.file.recs && k !in a.cache.recs ==> a.file.recs[k].acked)
  }

  ghost predicate BusyOk(s: System, ag: nat) {
    ag in s.agents && s.agents[ag].busy.Some? ==>
      var a := s.agents[ag];
      a.up && a.busy.value in a.cache.recs && a.cache.recs[a.busy.value].outcome.None?
  }

  ghost predicate PeerOk(s: System, n: Name) {
    n in s.hub.peers ==>
      && s.hub.peers[n].conn in s.conns
      && var ag := s.conns[s.hub.peers[n].conn];
         ag in s.agents && s.agents[ag].node == n && s.agents[ag].tenant == s.hub.peers[n].tenant
  }

  /** The job carries an executor's outcome. */
  predicate Reported(j: Job) { j.state in {Succeeded, Failed} || (j.state == Unknown && j.result.Some?) }

  /** Its assigned node durably stored exactly that outcome under that lease. */
  ghost predicate BackedAt(s: System, x: Uid) {
    x in s.hub.jobs && Reported(s.hub.jobs[x]) ==>
      var j := s.hub.jobs[x];
      && j.node.Some? && j.lease.Some? && j.result.Some?
      && exists ag :: ag in s.agents && s.agents[ag].node == j.node.value
                      && Stored(ag, x, j.lease.value, Outcome(j.state, j.result.value, true)) in s.stored
  }

  ghost predicate HubSide(s: System) {
    && H.Inv(s.hub)
    && (forall n :: PeerOk(s, n))
    && (forall x :: BackedAt(s, x))
  }

  ghost predicate WireSide(s: System) {
    && (forall p :: PacketOk(s, p))
    && (forall p, q :: SingleOrder(s, p, q))
    && (forall i :: StartOk(s, i))
    && (forall i, j :: 0 <= i < j < |s.started| ==> s.started[i].order.id != s.started[j].order.id)
  }

  ghost predicate DiskSide(s: System) {
    && (forall r :: StoredOk(s, r))
    && (forall r, q :: SingleOutcome(s, r, q))
    && (forall ag, k :: FileOk(s, ag, k))
    && (forall ag, k :: CacheOk(s, ag, k))
    && (forall ag :: BusyOk(s, ag))
  }

  ghost predicate Inv(s: System) { HubSide(s) && WireSide(s) && DiskSide(s) }

  lemma {:induction false} InitialInv(s: System)
    requires Initial(s)
    ensures Inv(s)
  {
    assert Replay([]) == EMPTY;
    forall x ensures H.Replayed(EMPTY, EMPTY, x) {}
  }

  // ------------------------------------------------------------------ the hub moves, the rest stays

  /** What the hub's own moves never take back. */
  ghost predicate Later(h: Hub, h': Hub, x: Uid) {
    x in h.jobs ==>
      && x in h'.jobs
      && H.SameIdentity(h.jobs[x], h'.jobs[x])
      && (h.jobs[x].state != Queued ==>
            h'.jobs[x].state != Queued && h'.jobs[x].node == h.jobs[x].node && h'.jobs[x].lease == h.jobs[x].lease)
      && (Reported(h.jobs[x]) || h.jobs[x].state == Abandoned ==>
            h'.jobs[x].state == Abandoned
            || (h'.jobs[x].state == h.jobs[x].state && h'.jobs[x].result == h.jobs[x].result))
  }

  /** Every outcome of `h'` was in `h` already. */
  ghost predicate NoNews(h: Hub, h': Hub, x: Uid) {
    x in h'.jobs && Reported(h'.jobs[x]) ==>
      x in h.jobs && h.jobs[x].state == h'.jobs[x].state && h.jobs[x].result == h'.jobs[x].result
      && h.jobs[x].node == h'.jobs[x].node && h.jobs[x].lease == h'.jobs[x].lease
  }

  lemma {:induction false} WireLater(s: System, h: Hub)
    requires WireSide(s) && forall x :: Later(s.hub, h, x)
    ensures WireSide(s.(hub := h))
  {
    var s' := s.(hub := h);
    forall p ensures PacketOk(s', p) {
      assert PacketOk(s, p);
      if p in s.net && p.Execute? {
        assert Later(s.hub, h, p.order.id);
        assert Began(s', p.order.id) ==> Began(s, p.order.id);
      } else if p in s.net && p.Acked? {
        assert Later(s.hub, h, p.id);
        HoldsLater(s.hub, h, p.id, p.about);
      }
    }
    forall p, q ensures SingleOrder(s', p, q) {
      assert SingleOrder(s, p, q);
    }
    forall i: nat ensures StartOk(s', i) {
      assert StartOk(s, i);
      assert i < |s.started| ==> Later(s.hub, h, s.started[i].order.id);
    }
  }

  lemma {:induction false} HoldsLater(h: Hub, h': Hub, x: Uid, o: Outcome)
    requires Later(h, h', x) && H.Holds(h, x, o)
    ensures H.Holds(h', x, o)
  {
  }

  lemma {:induction false} DiskLater(s: System, h: Hub)
    requires DiskSide(s) && forall x :: Later(s.hub, h, x)
    ensures DiskSide(s.(hub := h))
  {
    var s' := s.(hub := h);
    forall r ensures StoredOk(s', r) {
      assert StoredOk(s, r) && Later(s.hub, h, r.id);
    }
    forall r, q ensures SingleOutcome(s', r, q) {
      assert SingleOutcome(s, r, q);
    }
    forall ag, k ensures FileOk(s', ag, k) && CacheOk(s', ag, k) {
      assert FileOk(s, ag, k) && CacheOk(s, ag, k) && Later(s.hub, h, k);
      if ag in s.agents && k in s.agents[ag].file.recs {
        EntryLater(s, h, ag, k, s.agents[ag].file.recs[k]);
      }
      if ag in s.agents && Live(s.agents[ag]) && k in s.agents[ag].cache.recs {
        EntryLater(s, h, ag, k, s.agents[ag].cache.recs[k]);
      }
    }
    forall ag ensures BusyOk(s', ag) {
      assert BusyOk(s, ag);
    }
  }

  lemma {:induction false} EntryLater(s: System, h: Hub, ag: nat, k: Uid, e: Entry)
    requires EntryOk(s, ag, k, e) && Later(s.hub, h, k)
    ensures EntryOk(s.(hub := h), ag, k, e)
  {
  }

  lemma {:induction false} BackedLater(s: System, h: Hub)
    requires forall x :: BackedAt(s, x) && NoNews(s.hub, h, x)
    ensures forall x :: BackedAt(s.(hub := h), x)
  {
    forall x ensures BackedAt(s.(hub := h), x) {
      assert BackedAt(s, x) && NoNews(s.hub, h, x);
    }
  }

  lemma {:induction false} HubMoves(s: System, h: Hub)
    requires Inv(s) && H.Inv(h)
    requires forall x :: Later(s.hub, h, x) && BackedAt(s.(hub := h), x)
    requires forall n :: PeerOk(s.(hub := h), n)
    ensures Inv(s.(hub := h))
  {
    WireLater(s, h);
    DiskLater(s, h);
  }

  lemma {:induction false} QuietLater(h: Hub, h': Hub)
    requires H.TableInv(h) && H.Quiet(h, h')
    ensures forall x :: Later(h, h', x) && NoNews(h, h', x)
  {
    forall x ensures Later(h, h', x) && NoNews(h, h', x) {
      assert H.QuietAt(h, h', x) && H.Sound(h, x);
    }
  }

  /** One job moves to a state that carries no executor's outcome, the others are quiet. */
  lemma {:induction false} QuietButLater(h: Hub, h': Hub, x: Uid)
    requires H.TableInv(h) && H.QuietBut(h, h', x)
    requires Later(h, h', x) && NoNews(h, h', x)
    ensures forall y :: Later(h, h', y) && NoNews(h, h', y)
  {
    forall y ensures Later(h, h', y) && NoNews(h, h', y) {
      assert (y != x ==> H.QuietAt(h, h', y)) && H.Sound(h, y);
    }
  }

  lemma {:induction false} QuietMove(s: System, h: Hub)
    requires Inv(s) && H.Inv(h) && H.Quiet(s.hub, h)
    requires forall n :: n in h.peers ==> n in s.hub.peers && h.peers[n] == s.hub.peers[n]
    ensures Inv(s.(hub := h))
  {
    QuietLater(s.hub, h);
    BackedLater(s, h);
    forall n ensures PeerOk(s.(hub := h), n) {
      assert PeerOk(s, n);
    }
    HubMoves(s, h);
  }

  lemma {:induction false} QuietButMove(s: System, h: Hub, x: Uid)
    requires Inv(s) && H.Inv(h) && H.QuietBut(s.hub, h, x) && h.peers == s.hub.peers
    requires Later(s.hub, h, x) && NoNews(s.hub, h, x)
    ensures Inv(s.(hub := h))
  {
    QuietButLater(s.hub, h, x);
    BackedLater(s, h);
    forall n ensures PeerOk(s.(hub := h), n) {
      assert PeerOk(s, n);
    }
    HubMoves(s, h);
  }

  // ------------------------------------------------------------------ packets come and go

  lemma {:induction false} PacketLeaves(s: System, p: Packet)
    requires Inv(s)
    ensures Inv(s.(net := s.net - {p}))
  {
    var s' := s.(net := s.net - {p});
    forall q ensures PacketOk(s', q) {
      assert PacketOk(s, q);
      assert q.Execute? && Began(s', q.order.id) ==> Began(s, q.order.id);
    }
    forall q, r ensures SingleOrder(s', q, r) {
      assert SingleOrder(s, q, r);
    }
    Others(s, s');
  }

  lemma {:induction false} PacketJoins(s: System, p: Packet)
    requires Inv(s)
    requires PacketOk(s.(net := s.net + {p}), p)
    requires p.Execute? ==> forall q :: q in s.net && q.Execute? ==> q.order.id != p.order.id
    ensures Inv(s.(net := s.net + {p}))
  {
    var s' := s.(net := s.net + {p});
    forall q ensures PacketOk(s', q) {
      assert PacketOk(s, q);
      assert q.Execute? && Began(s', q.order.id) ==> Began(s, q.order.id);
    }
    forall q, r ensures SingleOrder(s', q, r) {
      assert SingleOrder(s, q, r);
    }
    Others(s, s');
  }

  /** A change of the network alone leaves the rest of the invariant. */
  lemma {:induction false} Others(s: System, s': System)
    requires Inv(s) && s' == s.(net := s'.net)
    ensures HubSide(s') && DiskSide(s') && forall i: nat :: StartOk(s', i)
  {
    forall x ensures BackedAt(s', x) {
      assert BackedAt(s, x);
    }
    forall n ensures PeerOk(s', n) {
      assert PeerOk(s, n);
    }
    forall i: nat ensures StartOk(s', i) {
      assert StartOk(s, i);
    }
    DiskFrame(s, s');
  }

  lemma {:induction false} DiskFrame(s: System, s': System)
    requires DiskSide(s) && s'.hub == s.hub && s'.agents == s.agents && s'.stored == s.stored
    requires forall i :: 0 <= i < |s.started| ==> i < |s'.started| && s'.started[i] == s.started[i]
    ensures DiskSide(s')
  {
    assert forall x :: x in s.started ==> x in s'.started;
    forall r ensures StoredOk(s', r) {
      assert StoredOk(s, r);
    }
    forall r, q ensures SingleOutcome(s', r, q) {
      assert SingleOutcome(s, r, q);
    }
    forall ag, k ensures FileOk(s', ag, k) && CacheOk(s', ag, k) {
      assert FileOk(s, ag, k) && CacheOk(s, ag, k);
    }
    forall ag ensures BusyOk(s', ag) {
      assert BusyOk(s, ag);
    }
  }

  /** An execution begins: its order was in flight, and no execution of that job began before. */
  lemma {:induction false} StartJoins(s: System, ag: nat, o: Order)
    requires Inv(s) && Execute(ag, o) in s.net
    ensures Inv(s.(net := s.net - {Execute(ag, o)}, started := s.started + [Start(ag, o)])) && !Began(s, o.id)
  {
    var s' := s.(net := s.net - {Execute(ag, o)}, started := s.started + [Start(ag, o)]);
    assert PacketOk(s, Execute(ag, o));
    forall q ensures PacketOk(s', q) {
      assert PacketOk(s, q) && SingleOrder(s, q, Execute(ag, o));
      if q in s'.net && q.Execute? {
        assert q.order.id != o.id;
        assert Began(s', q.order.id) ==> Began(s, q.order.id);
      }
    }
    forall q, r ensures SingleOrder(s', q, r) {
      assert SingleOrder(s, q, r);
    }
    forall i: nat ensures StartOk(s', i) {
      assert i < |s.started| ==> StartOk(s, i);
    }
    forall i, j | 0 <= i < j < |s'.started| ensures s'.started[i].order.id != s'.started[j].order.id {
      assert j == |s.started| ==> s.started[i].order.id != o.id;
    }
    forall x ensures BackedAt(s', x) {
      assert BackedAt(s, x);
    }
    forall n ensures PeerOk(s', n) {
      assert PeerOk(s, n);
    }
    DiskFrame(s, s');
  }

  // ------------------------------------------------------------------ one agent moves

  lemma {:induction false} StartUnique(s: System, x: Start, y: Start)
    requires WireSide(s) && x in s.started && y in s.started && x.order.id == y.order.id
    ensures x == y
  {
    var i :| 0 <= i < |s.started| && s.started[i] == x;
    var j :| 0 <= j < |s.started| && s.started[j] == y;
    assert i == j;
  }

  /** Entry `k` of the new file: known or new, and no outcome of the old file is lost. */
  ghost predicate FileStep(s: System, ag: nat, f: Store, k: Uid) {
    && (k in f.recs ==>
          var e := f.recs[k];
          && e.order.id == k
          && Start(ag, e.order) in s.started
          && (e.outcome.Some? ==>
                || Stored(ag, k, e.order.lease, e.outcome.value) in s.stored
                || (Unstored(s, k) && e.outcome.value.state in {Succeeded, Failed, Unknown}))
          && (e.outcome.None? ==> !e.acked && Unstored(s, k))
          && (e.acked ==> e.outcome.Some? && H.Holds(s.hub, k, e.outcome.value)))
    && (ag in s.agents && k in s.agents[ag].file.recs && s.agents[ag].file.recs[k].outcome.Some? ==>
          || H.Holds(s.hub, k, s.agents[ag].file.recs[k].outcome.value)
          || (k in f.recs && f.recs[k].outcome == s.agents[ag].file.recs[k].outcome))
  }

  lemma {:induction false} AgentMoves(s: System, ag: nat, a: Agent)
    requires Inv(s) && ag in s.agents && a.node == s.agents[ag].node && a.tenant == s.agents[ag].tenant
    requires forall k :: FileStep(s, ag, a.file, k)
    requires forall k :: CacheOk(WithAgent(s, ag, a), ag, k)
    requires BusyOk(WithAgent(s, ag, a), ag)
    ensures Inv(WithAgent(s, ag, a))
  {
    var s' := WithAgent(s, ag, a);
    AgentFrame(s, ag, a);
    NewOutcomes(s, ag, a);
    forall b, k ensures FileOk(s', b, k) {
      assert FileOk(s, b, k) && FileStep(s, ag, a.file, k);
      if b in s'.agents && k in s'.agents[b].file.recs {
        if b == ag {
          OwnEntry(s, ag, a, k);
        } else {
          ForeignEntry(s, ag, a, b, k, s.agents[b].file.recs[k]);
        }
      }
    }
    forall b, k ensures CacheOk(s', b, k) {
      assert CacheOk(s, b, k);
      if b != ag && b in s.agents && Live(s.agents[b]) && k in s.agents[b].cache.recs {
        ForeignEntry(s, ag, a, b, k, s.agents[b].cache.recs[k]);
      }
    }
    forall b ensures BusyOk(s', b) {
      assert BusyOk(s, b);
    }
  }

  /** The hub and the wire do not look at files. */
  lemma {:induction false} AgentFrame(s: System, ag: nat, a: Agent)
    requires Inv(s) && ag in s.agents && a.node == s.agents[ag].node && a.tenant == s.agents[ag].tenant
    ensures HubSide(WithAgent(s, ag, a)) && WireSide(WithAgent(s, ag, a))
  {
    var s' := WithAgent(s, ag, a);
    forall x ensures BackedAt(s', x) {
      assert BackedAt(s, x);
    }
    forall n ensures PeerOk(s', n) {
      assert PeerOk(s, n);
    }
    forall q ensures PacketOk(s', q) {
      assert PacketOk(s, q);
      assert q.Execute? && Began(s', q.order.id) ==> Began(s, q.order.id);
    }
    forall q, r ensures SingleOrder(s', q, r) {
      assert SingleOrder(s, q, r);
    }
    forall i: nat ensures StartOk(s', i) {
      assert StartOk(s, i);
    }
  }

  lemma {:induction false} NewOutcomes(s: System, ag: nat, a: Agent)
    requires Inv(s) && ag in s.agents
    requires forall k :: FileStep(s, ag, a.file, k)
    ensures forall r :: StoredOk(WithAgent(s, ag, a), r)
    ensures forall r, q :: SingleOutcome(WithAgent(s, ag, a), r, q)
  {
    var s' := WithAgent(s, ag, a);
    forall r ensures StoredOk(s', r) {
      assert StoredOk(s, r) && FileStep(s, ag, a.file, r.id);
    }
    forall r, q ensures SingleOutcome(s', r, q) {
      assert SingleOutcome(s, r, q) && FileStep(s, ag, a.file, r.id) && FileStep(s, ag, a.file, q.id);
    }
  }

  lemma {:induction false} OwnEntry(s: System, ag: nat, a: Agent, k: Uid)
    requires Inv(s) && ag in s.agents && k in a.file.recs
    requires forall j :: FileStep(s, ag, a.file, j)
    ensures EntryOk(WithAgent(s, ag, a), ag, k, a.file.recs[k])
  {
    assert FileStep(s, ag, a.file, k);
    var e := a.file.recs[k];
    if e.outcome.Some? {
      assert Stored(ag, k, e.order.lease, e.outcome.value) in OnDisk(ag, a.file);
    }
  }

  lemma {:induction false} ForeignEntry(s: System, ag: nat, a: Agent, b: nat, k: Uid, e: Entry)
    requires Inv(s) && ag in s.agents && b != ag && EntryOk(s, b, k, e)
    requires forall j :: FileStep(s, ag, a.file, j)
    ensures EntryOk(WithAgent(s, ag, a), b, k, e)
  {
    assert FileStep(s, ag, a.file, k);
    if k in a.file.recs {
      StartUnique(s, Start(b, e.order), Start(ag, a.file.recs[k].order));
    }
  }

  /** The file stays as it is. */
  lemma {:induction false} SameFile(s: System, ag: nat)
    requires Inv(s) && ag in s.agents
    ensures forall k :: FileStep(s, ag, s.agents[ag].file, k)
    ensures OnDisk(ag, s.agents[ag].file) <= s.stored
  {
    forall k ensures FileStep(s, ag, s.agents[ag].file, k) {
      assert FileOk(s, ag, k);
    }
    forall r | r in OnDisk(ag, s.agents[ag].file) ensures r in s.stored {
      assert FileOk(s, ag, r.id);
    }
  }

  /** A change of memory and flags that no longer matters, or that leaves the cache as it was. */
  lemma {:induction false} FlagsKeep(s: System, ag: nat, a: Agent)
    requires Inv(s) && ag in s.agents && a.node == s.agents[ag].node && a.tenant == s.agents[ag].tenant
    requires a.file == s.agents[ag].file
    requires Live(a) ==> Live(s.agents[ag]) && a.cache == s.agents[ag].cache && a.busy == s.agents[ag].busy
                         && (s.agents[ag].stopped ==> a.stopped)
    requires a.busy.Some? ==> a.up
    ensures Inv(WithAgent(s, ag, a))
  {
    var s' := WithAgent(s, ag, a);
    SameFile(s, ag);
    assert s'.stored == s.stored;
    forall k ensures CacheOk(s', ag, k) {
      assert CacheOk(s, ag, k);
    }
    assert BusyOk(s, ag);
    AgentMoves(s, ag, a);
  }

  /** The cache was pruned in memory only: what went was acknowledged on disk as well. */
  lemma {:induction false} PruneKeeps(s: System, ag: nat)
    requires Inv(s) && ag in s.agents && s.agents[ag].up && !s.agents[ag].stopped
    ensures Inv(WithAgent(s, ag, s.agents[ag].(cache := Prune(s.agents[ag].cache))))
  {
    var a := s.agents[ag].(cache := Prune(s.agents[ag].cache));
    var s' := WithAgent(s, ag, a);
    SameFile(s, ag);
    assert s'.stored == s.stored;
    PruneShrinks(s.agents[ag].cache);
    forall k ensures CacheOk(s', ag, k) {
      assert CacheOk(s, ag, k) && Shrinks(s.agents[ag].cache, a.cache, k);
    }
    assert BusyOk(s, ag);
    assert BusyOk(s', ag) by {
      if a.busy.Some? {
        assert CacheOk(s, ag, a.busy.value) && Shrinks(s.agents[ag].cache, a.cache, a.busy.value);
      }
    }
    AgentMoves(s, ag, a);
  }

  /** The order is persisted as EXECUTING, then it runs. */
  lemma {:induction false} BeginKeeps(s: System, ag: nat, o: Order)
    requires Inv(s) && ag in s.agents && s.agents[ag].up && !s.agents[ag].stopped && s.agents[ag].busy.None?
    requires Start(ag, o) in s.started && Unstored(s, o.id) && o.id !in s.agents[ag].cache.recs
    ensures var c := Put(s.agents[ag].cache, o.id, Entry(o, None, false));
            Inv(WithAgent(s, ag, s.agents[ag].(cache := c, file := c, busy := Some(o.id))))
  {
    var c := Put(s.agents[ag].cache, o.id, Entry(o, None, false));
    var a := s.agents[ag].(cache := c, file := c, busy := Some(o.id));
    var s' := WithAgent(s, ag, a);
    forall k ensures FileStep(s, ag, c, k) {
      assert CacheOk(s, ag, k) && FileOk(s, ag, k);
    }
    forall k ensures CacheOk(s', ag, k) {
      assert CacheOk(s, ag, k) && FileStep(s, ag, c, k);
      if k in c.recs {
        OwnEntry(s, ag, a, k);
      }
    }
    AgentMoves(s, ag, a);
  }

  lemma {:induction false} OrderKeeps(s: System, ag: nat, o: Order, admissible: bool, saved: bool)
    requires Inv(s) && Enabled(s, AgentOrder(ag, o, admissible, saved))
    ensures Inv(Apply(s, AgentOrder(ag, o, admissible, saved)))
  {
    var (b, r) := OnOrder(s.agents[ag], o, admissible, saved);
    if r == Run {
      RunKeeps(s, ag, o, b);
    } else {
      PacketLeaves(s, Execute(ag, o));
      var s1 := s.(net := s.net - {Execute(ag, o)});
      if b == s.agents[ag] || b.stopped {
        FlagsKeep(s1, ag, b);
      } else {
        PruneKeeps(s1, ag);
      }
    }
  }

  lemma {:induction false} RunKeeps(s: System, ag: nat, o: Order, b: Agent)
    requires Inv(s) && ag in s.agents && s.agents[ag].up && Execute(ag, o) in s.net
    requires exists admissible :: OnOrder(s.agents[ag], o, admissible, true) == (b, Reaction.Run)
    ensures Inv(WithAgent(s, ag, b).(net := s.net - {Execute(ag, o)}, started := s.started + [Start(ag, o)]))
  {
    StartJoins(s, ag, o);
    NotStored(s, o.id);
    var s1 := s.(net := s.net - {Execute(ag, o)}, started := s.started + [Start(ag, o)]);
    PruneThenBegin(s1, ag, o);
  }

  lemma {:induction false} PruneThenBegin(s: System, ag: nat, o: Order)
    requires Inv(s) && ag in s.agents && s.agents[ag].up && !s.agents[ag].stopped && s.agents[ag].busy.None?
    requires Start(ag, o) in s.started && Unstored(s, o.id) && o.id !in s.agents[ag].cache.recs
    ensures var a := s.agents[ag];
            var c := Put(Prune(a.cache), o.id, Entry(o, None, false));
            Inv(WithAgent(s, ag, a.(cache := c, file := c, busy := Some(o.id))))
  {
    var a := s.agents[ag];
    PruneKeeps(s, ag);
    var s2 := WithAgent(s, ag, a.(cache := Prune(a.cache)));
    SameFile(s, ag);
    assert s2.stored == s.stored;
    PruneShrinks(a.cache);
    assert Shrinks(a.cache, Prune(a.cache), o.id);
    BeginKeeps(s2, ag, o);
    var c := Put(Prune(a.cache), o.id, Entry(o, None, false));
    var b := a.(cache := c, file := c, busy := Some(o.id));
    assert WithAgent(s2, ag, b) == WithAgent(s, ag, b);
  }

  lemma {:induction false} NotStored(s: System, x: Uid)
    requires Inv(s) && !Began(s, x)
    ensures Unstored(s, x)
  {
    forall r | r in s.stored ensures r.id != x {
      assert StoredOk(s, r);
    }
  }

  lemma {:induction false} DoneKeeps(s: System, ag: nat, outcome: Outcome, saved: bool)
    requires Inv(s) && Enabled(s, AgentDone(ag, outcome, saved))
    ensures Inv(Apply(s, AgentDone(ag, outcome, saved)))
  {
    var a := s.agents[ag];
    var b := OnDone(a, outcome, saved);
    if !saved {
      FlagsKeep(s, ag, b);
    } else {
      var s' := WithAgent(s, ag, b);
      assert BusyOk(s, ag);
      forall k ensures FileStep(s, ag, b.file, k) {
        assert CacheOk(s, ag, k) && FileOk(s, ag, k);
      }
      forall k ensures CacheOk(s', ag, k) {
        assert CacheOk(s, ag, k) && FileStep(s, ag, b.file, k);
        if k in b.file.recs {
          OwnEntry(s, ag, b, k);
        }
      }
      AgentMoves(s, ag, b);
    }
  }

  lemma {:induction false} AckKeeps(s: System, ag: nat, id: Uid, lease: Uid, about: Outcome, saved: bool)
    requires Inv(s) && Enabled(s, AgentAck(ag, id, lease, about, saved))
    ensures Inv(Apply(s, AgentAck(ag, id, lease, about, saved)))
  {
    var a := s.agents[ag];
    var b := OnAck(a, id, lease, saved);
    if b == a {
      FlagsKeep(s, ag, b);
    } else {
      var s' := WithAgent(s, ag, b);
      AckMatches(s, ag, id, lease, about);
      SameFile(s, ag);
      assert BusyOk(s, ag);
      forall k ensures FileStep(s, ag, b.file, k) {
        assert CacheOk(s, ag, k) && FileOk(s, ag, k) && FileStep(s, ag, a.file, k);
      }
      forall k ensures CacheOk(s', ag, k) {
        assert CacheOk(s, ag, k) && FileStep(s, ag, b.file, k);
        AckedCache(s, ag, b, id, k, saved);
      }
      AgentMoves(s, ag, b);
    }
  }

  /** An acknowledgement is about the outcome that the entry holds. */
  lemma {:induction false} AckMatches(s: System, ag: nat, id: Uid, lease: Uid, about: Outcome)
    requires Inv(s) && ag in s.agents && Live(s.agents[ag]) && Acked(ag, id, lease, about) in s.net
    requires id in s.agents[ag].cache.recs && s.agents[ag].cache.recs[id].order.lease == lease
    ensures s.agents[ag].cache.recs[id].outcome == Some(about) && H.Holds(s.hub, id, about)
  {
    assert PacketOk(s, Acked(ag, id, lease, about)) && CacheOk(s, ag, id);
    var e := s.agents[ag].cache.recs[id];
    if e.outcome.Some? {
      assert SingleOutcome(s, Stored(ag, id, lease, about), Stored(ag, id, lease, e.outcome.value));
    }
  }

  lemma {:induction false} AckedCache(s: System, ag: nat, b: Agent, id: Uid, k: Uid, saved: bool)
    requires Inv(s) && ag in s.agents && s.agents[ag].up && !s.agents[ag].stopped && CacheOk(s, ag, k)
    requires id in s.agents[ag].cache.recs && s.agents[ag].cache.recs[id].outcome.Some?
    requires H.Holds(s.hub, id, s.agents[ag].cache.recs[id].outcome.value)
    requires b == Persist(
      s.agents[ag].(cache := Put(s.agents[ag].cache, id, s.agents[ag].cache.recs[id].(acked := true))), saved)
    requires forall j :: FileStep(s, ag, b.file, j)
    ensures CacheOk(WithAgent(s, ag, b), ag, k)
  {
    assert CacheOk(s, ag, id);
    var s' := WithAgent(s, ag, b);
    if k in b.cache.recs {
      if k in b.file.recs && b.file == b.cache {
        OwnEntry(s, ag, b, k);
      }
      assert FileOk(s, ag, k);
    }
  }

  lemma {:induction false} BootKeeps(s: System, ag: nat, saved: bool)
    requires Inv(s) && Enabled(s, AgentBoot(ag, saved))
    ensures Inv(Apply(s, AgentBoot(ag, saved)))
  {
    var a := s.agents[ag];
    var b := Boot(a, saved);
    assert BusyOk(s, ag);
    if b == a {
      FlagsKeep(s, ag, b);
    } else {
      var s' := WithAgent(s, ag, b);
      PruneShrinks(Reload(a.file));
      forall k ensures FileStep(s, ag, b.file, k) {
        assert FileOk(s, ag, k) && Shrinks(Reload(a.file), b.file, k);
      }
      forall k ensures CacheOk(s', ag, k) {
        assert FileStep(s, ag, b.file, k) && Shrinks(Reload(a.file), b.file, k);
        if k in b.file.recs {
          OwnEntry(s, ag, b, k);
        }
      }
      AgentMoves(s, ag, b);
    }
  }

  // ------------------------------------------------------------------ every event keeps the invariant

  lemma {:induction false} SubmitPeers(h: Hub, capable: bool, who: Requester, work: Work, id: Uid, room: nat)
    requires Keyed(h)
    ensures Submit(h, capable, who, work, id, room).0.peers == h.peers
  {}

  lemma {:induction false} CommandKeeps(s: System, capable: bool, who: Requester, work: Work, id: Uid, room: nat)
    requires Inv(s) && Enabled(s, Command(capable, who, work, id, room))
    ensures Inv(Apply(s, Command(capable, who, work, id, room)))
  {
    H.SubmitKeeps(s.hub, capable, who, work, id, room);
    SubmitPeers(s.hub, capable, who, work, id, room);
    hide H.QuietBut, Submit;
    var h := Submit(s.hub, capable, who, work, id, room).0;
    if h != s.hub { QuietButMove(s, h, id); }
  }

  lemma {:induction false} GiveUpKeeps(s: System, capable: bool, tenant: Name, id: Uid, room: nat)
    requires Inv(s) && Enabled(s, GiveUp(capable, tenant, id, room))
    ensures Inv(Apply(s, GiveUp(capable, tenant, id, room)))
  {
    H.AbandonKeeps(s.hub, capable, tenant, id, room);
    var h := Abandon(s.hub, capable, tenant, id, room).0;
    if h != s.hub {
      assert H.Sound(s.hub, id);
      QuietButMove(s, h, id);
    }
  }

  /** New connections, new peers and newer timestamps. */
  lemma {:induction false} PeersMove(s: System, h: Hub, conns: map<nat, nat>)
    requires Inv(s) && H.Inv(h) && h.jobs == s.hub.jobs
    requires forall n :: PeerOk(s.(hub := h, conns := conns), n)
    ensures Inv(s.(hub := h, conns := conns))
  {
    assert H.Quiet(s.hub, h);
    QuietLater(s.hub, h);
    WireLater(s, h);
    DiskLater(s, h);
    var s1 := s.(hub := h);
    var s' := s1.(conns := conns);
    forall x ensures BackedAt(s', x) {
      assert BackedAt(s, x);
    }
    forall p ensures PacketOk(s', p) {
      assert PacketOk(s1, p);
      assert p.Execute? && Began(s', p.order.id) ==> Began(s1, p.order.id);
    }
    forall p, q ensures SingleOrder(s', p, q) {
      assert SingleOrder(s1, p, q);
    }
    forall i: nat ensures StartOk(s', i) {
      assert StartOk(s1, i);
    }
    DiskFrame(s1, s');
  }

  lemma {:induction false} EnrollKeeps(s: System, e: Event)
    requires Inv(s) && e.Enroll? && Enabled(s, e)
    ensures Inv(Apply(s, e))
  {
    var a := s.agents[e.agent];
    var p := Peer(e.conn, a.node, a.tenant, e.site, e.operations, e.seen);
    H.RegisterKeeps(s.hub, p, e.granted);
    var r := Register(s.hub, p, e.granted);
    if r.Ok? {
      var conns := s.conns[e.conn := e.agent];
      forall n ensures PeerOk(s.(hub := r.value, conns := conns), n) {
        assert PeerOk(s, n);
      }
      PeersMove(s, r.value, conns);
    }
  }

  lemma {:induction false} HeartbeatKeeps(s: System, node: Name, seen: int)
    requires Inv(s) && Enabled(s, Heartbeat(node, seen))
    ensures Inv(Apply(s, Heartbeat(node, seen)))
  {
    var h := s.hub.(peers := s.hub.peers[node := s.hub.peers[node].(seen := seen)]);
    H.ControlKeeps(s.hub, h);
    forall n | h.phase.Awaiting? && n in h.phase.free ensures !Occupied(h, n) {
      assert !Occupied(s.hub, n);
    }
    forall n ensures PeerOk(s.(hub := h, conns := s.conns), n) {
      assert PeerOk(s, n);
    }
    PeersMove(s, h, s.conns);
  }

  lemma {:induction false} OracleKeeps(s: System, answer: Placement, now: int, lease: Uid, sent: bool, room: nat)
    requires Inv(s) && Enabled(s, Oracle(answer, now, lease, sent, room))
    ensures Inv(Apply(s, Oracle(answer, now, lease, sent, room)))
  {
    assert H.Inv(s.hub);
    hide Inv, Answer;
    if Dispatches(s.hub, answer, now, room) {
      AwardKeeps(s, answer, now, lease, sent, room);
    } else {
      NoAwardKeeps(s, answer, now, lease, sent, room);
    }
  }

  lemma {:induction false} NoAwardKeeps(s: System, answer: Placement, now: int, lease: Uid, sent: bool, room: nat)
    requires Inv(s) && Enabled(s, Oracle(answer, now, lease, sent, room)) && !Dispatches(s.hub, answer, now, room)
    ensures Inv(s.(hub := Answer(s.hub, answer, now, lease, sent, room).hub))
  {
    H.AnswerKeeps(s.hub, answer, now, lease, sent, room);
    hide H.Quiet, H.Inv;
    QuietMove(s, Answer(s.hub, answer, now, lease, sent, room).hub);
  }

  /** An award, and the order for it if one is sent: to the agent behind the connection of the node. */
  lemma {:induction false} AwardKeeps(s: System, answer: Placement, now: int, lease: Uid, sent: bool, room: nat)
    requires Inv(s) && Enabled(s, Oracle(answer, now, lease, sent, room)) && Dispatches(s.hub, answer, now, room)
    ensures var h, j := Answer(s.hub, answer, now, lease, sent, room).hub, s.hub.jobs[s.hub.order[s.hub.phase.at]];
      && Inv(s.(hub := h)) && PeerOk(s, answer.node)
      && (sent ==>
            Inv(s.(hub := h, net := s.net + {Execute(s.conns[s.hub.peers[answer.node].conn],
                Order(j.id, lease, j.work.op, j.work.data))})))
  {
    var x := s.hub.order[s.hub.phase.at];
    H.AnswerKeeps(s.hub, answer, now, lease, sent, room);
    hide H.QuietBut, H.Inv;
    var h := Answer(s.hub, answer, now, lease, sent, room).hub;
    QuietButMove(s, h, x);
    assert PeerOk(s, answer.node);
    if sent { DispatchKeeps(s, h, x, answer.node, lease); }
  }

  lemma {:induction false} QueuedNotBegun(s: System, x: Uid)
    requires WireSide(s) && x in s.hub.jobs && s.hub.jobs[x].state == Queued
    ensures !Began(s, x)
  {
    forall i | 0 <= i < |s.started| ensures s.started[i].order.id != x {
      assert StartOk(s, i);
    }
  }

  lemma {:induction false} DispatchKeeps(s: System, h: Hub, x: Uid, node: Name, lease: Uid)
    requires Inv(s) && Inv(s.(hub := h)) && PeerOk(s, node)
    requires H.Awarded(s.hub, h, x, node, lease, Assigned) && h.jobs[x].id == x
    ensures var p := Execute(s.conns[s.hub.peers[node].conn],
        Order(x, lease, s.hub.jobs[x].work.op, s.hub.jobs[x].work.data));
            Inv(s.(hub := h, net := s.net + {p}))
  {
    var p := Execute(s.conns[s.hub.peers[node].conn], Order(x, lease, s.hub.jobs[x].work.op, s.hub.jobs[x].work.data));
    var s1 := s.(hub := h);
    QueuedNotBegun(s, x);
    assert Began(s1, x) ==> Began(s, x);
    forall q | q in s1.net && q.Execute? ensures q.order.id != x {
      assert PacketOk(s, q);
    }
    PacketJoins(s1, p);
  }

  lemma {:induction false} DropKeeps(s: System, node: Name, conn: nat, room: nat)
    requires Inv(s) && Enabled(s, Drop(node, conn, room))
    ensures Inv(Apply(s, Drop(node, conn, room)))
  {
    H.DisconnectKeeps(s.hub, node, conn, room);
    QuietMove(s, Disconnect(s.hub, node, conn, room).hub);
  }

  lemma {:induction false} ClockKeeps(s: System, now: int, room: nat)
    requires Inv(s) && Enabled(s, Clock(now, room))
    ensures Inv(Apply(s, Clock(now, room)))
  {
    H.TickKeeps(s.hub, now, room);
    QuietMove(s, Tick(s.hub, now, room).hub);
  }

  lemma {:induction false} DeliverKeeps(s: System, ag: nat, r: Receipt, room: nat)
    requires Inv(s) && Enabled(s, Deliver(ag, r, room))
    ensures Inv(Apply(s, Deliver(ag, r, room)))
  {
    var a := s.agents[ag];
    H.ReceiptKeeps(s.hub, a.node, a.tenant, r, room);
    var (h, ok) := TakeReceipt(s.hub, a.node, a.tenant, r, room);
    assert PacketOk(s, Receipts(ag, r));
    if ok.Ok? && H.Settled(s.hub, h, r) {
      SettledMove(s, h, ag, r);
    } else {
      QuietMove(s, h);
    }
    if ok.Ok? {
      PacketJoins(s.(hub := h), Acked(ag, r.id, r.lease, r.outcome));
    }
  }

  /** The one move that brings an outcome into the table: it is the one the assigned agent stored. */
  lemma {:induction false} SettledMove(s: System, h: Hub, ag: nat, r: Receipt)
    requires Inv(s) && H.Inv(h) && H.Settled(s.hub, h, r) && h.peers == s.hub.peers && ag in s.agents
    requires H.Addressed(s.hub, s.agents[ag].node, r) && Stored(ag, r.id, r.lease, r.outcome) in s.stored
    requires r.outcome.state in {Succeeded, Failed, Unknown}
    ensures Inv(s.(hub := h))
  {
    var s' := s.(hub := h);
    assert BackedAt(s, r.id);
    assert Later(s.hub, h, r.id) by {
      var j := s.hub.jobs[r.id];
      if Reported(j) {
        var b :| b in s.agents && Stored(b, r.id, j.lease.value, Outcome(j.state, j.result.value, true)) in s.stored;
        assert SingleOutcome(s, Stored(b, r.id, j.lease.value, Outcome(j.state, j.result.value, true)),
                             Stored(ag, r.id, r.lease, r.outcome));
      }
    }
    forall x ensures Later(s.hub, h, x) && BackedAt(s', x) {
      assert (x != r.id ==> H.QuietAt(s.hub, h, x)) && H.Sound(s.hub, x) && BackedAt(s, x);
    }
    forall n ensures PeerOk(s', n) {
      assert PeerOk(s, n);
    }
    HubMoves(s, h);
  }

  lemma {:induction false} HubProcessKeeps(s: System, e: Event)
    requires Inv(s) && (e.HubCrash? || e.HubBoot?) && Enabled(s, e)
    ensures Inv(Apply(s, e))
  {
    var s' := Apply(s, e);
    if e.HubBoot? {
      H.RestartKeeps(s.hub, e.room);
    } else {
      H.ControlKeeps(s.hub, s'.hub);
    }
    QuietMove(s, s'.hub);
    HubFlag(s.(hub := s'.hub), s'.hubUp);
  }

  lemma {:induction false} HubFlag(s: System, up: bool)
    requires Inv(s)
    ensures Inv(s.(hubUp := up))
  {
    var s' := s.(hubUp := up);
    forall x ensures BackedAt(s', x) {
      assert BackedAt(s, x);
    }
    forall n ensures PeerOk(s', n) {
      assert PeerOk(s, n);
    }
    forall p ensures PacketOk(s', p) {
      assert PacketOk(s, p);
      assert p.Execute? && Began(s', p.order.id) ==> Began(s, p.order.id);
    }
    forall p, q ensures SingleOrder(s', p, q) {
      assert SingleOrder(s, p, q);
    }
    forall i: nat ensures StartOk(s', i) {
      assert StartOk(s, i);
    }
    DiskFrame(s, s');
  }

  lemma {:induction false} ReportKeeps(s: System, ag: nat, id: Uid)
    requires Inv(s) && Enabled(s, AgentReport(ag, id))
    ensures Inv(Apply(s, AgentReport(ag, id)))
  {
    assert CacheOk(s, ag, id);
    var e := s.agents[ag].cache.recs[id];
    PacketJoins(s, Receipts(ag, Receipt(id, e.order.lease, e.outcome.value)));
  }

  lemma {:induction false} StepKeeps(s: System, e: Event)
    requires Inv(s) && Enabled(s, e)
    ensures Inv(Apply(s, e))
  {
    match e
    case Command(capable, who, work, id, room) => CommandKeeps(s, capable, who, work, id, room);
    case GiveUp(capable, tenant, id, room) => GiveUpKeeps(s, capable, tenant, id, room);
    case Enroll(_, _, _, _, _, _) => EnrollKeeps(s, e);
    case Heartbeat(node, seen) => HeartbeatKeeps(s, node, seen);
    case Oracle(answer, now, lease, sent, room) => OracleKeeps(s, answer, now, lease, sent, room);
    case Drop(node, conn, room) => DropKeeps(s, node, conn, room);
    case Deliver(agent, receipt, room) => DeliverKeeps(s, agent, receipt, room);
    case Clock(now, room) => ClockKeeps(s, now, room);
    case HubCrash => HubProcessKeeps(s, e);
    case HubBoot(_) => HubProcessKeeps(s, e);
    case AgentOrder(agent, order, admissible, saved) => OrderKeeps(s, agent, order, admissible, saved);
    case AgentDone(agent, outcome, saved) => DoneKeeps(s, agent, outcome, saved);
    case AgentAck(agent, id, lease, about, saved) => AckKeeps(s, agent, id, lease, about, saved);
    case AgentReport(agent, id) => ReportKeeps(s, agent, id);
    case AgentLink(agent, ready) => FlagsKeep(s, agent, s.agents[agent].(ready := ready));
    case AgentStop(agent) => FlagsKeep(s, agent, s.agents[agent].(stopped := true));
    case AgentCrash(agent) => FlagsKeep(s, agent, Crash(s.agents[agent]));
    case AgentBoot(agent, saved) => BootKeeps(s, agent, saved);
    case Lose(packet) => PacketLeaves(s, packet);
  }

  lemma {:induction false} TraceKeeps(s: System, es: seq<Event>, s': System)
    requires Inv(s) && Trace(s, es, s')
    ensures Inv(s')
    decreases |es|
  {
    if es != [] {
      StepKeeps(s, es[0]);
      TraceKeeps(Apply(s, es[0]), es[1..], s');
    }
  }
}
