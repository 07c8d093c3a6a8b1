/** The agent object of lib/agent.js: its variables, updated in place, tied to the functions of AgentModel. */
module ExecutorAgent {
  import opened Common
  import opened HubModel
  import opened AgentModel

  class Executor {
    const node: Name
    const tenant: Name
    var file: Store
    var cache: Store
    var up: bool
    var busy: Option<Uid>
    var ready: bool
    var stopped: bool

    ghost function State(): Agent
      reads this
    {
      Agent(node, tenant, file, cache, up, busy, ready, stopped)
    }

    /** Load the receipt store; on a refusal nothing is written and the process does not start. */
    constructor (node: Name, tenant: Name, stored: Store, saved: bool)
      requires Tidy(stored)
      ensures var down := Agent(node, tenant, stored, Store([], map[]), false, None, false, false);
              State() == AgentModel.Boot(down, saved)
    {
      this.node, this.tenant := node, tenant;
      file, cache := stored, Store([], map[]);
      up, busy, ready, stopped := false, None, false, false;
      new;
      if |stored.keys| > RECEIPT_CAP { return; }
      var loaded := stored;
      for i := 0 to |stored.keys|
        invariant loaded.keys == stored.keys && loaded.recs.Keys == stored.recs.Keys
        invariant forall j :: 0 <= j < i ==> loaded.recs[stored.keys[j]] == Reopened(stored.recs[stored.keys[j]])
        invariant forall j :: i <= j < |stored.keys| ==> loaded.recs[stored.keys[j]] == stored.recs[stored.keys[j]]
      {
        var k := stored.keys[i];
        if loaded.recs[k].outcome.None? {
          loaded := loaded.(recs := loaded.recs[k := loaded.recs[k].(outcome := Some(RESTARTED))]);
        }
      }
      assert loaded.recs == Reload(stored).recs;
      loaded := PruneStore(loaded);
      if saved {
        file, cache, up := loaded, loaded, true;
      }
    }

    static method PruneStore(s: Store) returns (t: Store)
      ensures t == Prune(s)
    {
      if |s.keys| < RECEIPT_CAP { return s; }
      var i := 0;
      t := s;
      while i < |s.keys| && |t.keys| > RECEIPT_PRUNE_TO
        invariant i <= |s.keys|
        invariant PruneFrom(t, s.keys, i) == PruneFrom(s, s.keys, 0)
      {
        var k := s.keys[i];
        if k in t.recs && t.recs[k].acked {
          t := Remove(t, k);
        }
        i := i + 1;
      }
    }

    method Save(saved: bool)
      modifies this`file, this`stopped
      ensures State() == Persist(old(State()), saved)
    {
      if saved { file := cache; } else { stopped := true; }
    }

    method OnExecute(o: Order, admissible: bool, saved: bool) returns (r: Reaction)
      modifies this`file, this`cache, this`busy, this`stopped
      ensures (State(), r) == OnOrder(old(State()), o, admissible, saved)
    {
      if stopped { return Ignore; }
      if !ready { return Close; }
      if o.id in cache.recs {
        if cache.recs[o.id].order != o { return Close; }
        return if cache.recs[o.id].outcome.Some? then Resend else Ignore;
      }
      cache := PruneStore(cache);
      if busy.Some? || |cache.keys| >= RECEIPT_CAP || !admissible { return Close; }
      cache := Put(cache, o.id, Entry(o, None, false));
      Save(saved);
      if !saved { return Close; }
      busy := Some(o.id);
      return Run;
    }

    method OnFinished(outcome: Outcome, saved: bool)
      requires busy.Some? && busy.value in cache.recs
      modifies this`file, this`cache, this`busy, this`stopped
      ensures State() == OnDone(old(State()), outcome, saved)
    {
      var k := busy.value;
      cache := Put(cache, k, cache.recs[k].(outcome := Some(outcome)));
      Save(saved);
      busy := None;
    }

    method OnReceiptAck(id: Uid, lease: Uid, saved: bool)
      modifies this`file, this`cache, this`stopped
      ensures State() == OnAck(old(State()), id, lease, saved)
    {
      if !stopped && ready && id in cache.recs && cache.recs[id].order.lease == lease {
        cache := Put(cache, id, cache.recs[id].(acked := true));
        Save(saved);
      }
    }
  }
}
