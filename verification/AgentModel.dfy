/** The executor's receipt store as a value, and what pruning may drop from a store that is full. */
module AgentModel {
  // And each synchronous segment of lib/agent.js as a function on it. `cache` is the object in memory, `file` what the
  // last successful atomic write left on disk. `saved` says whether the atomic write of a segment succeeds. A
  // fingerprint is the triple it hashes.

  import opened Common
  import opened HubModel

  /** An `execute` message. */
  datatype Order = Order(id: Uid, lease: Uid, op: Name, data: Name)

  /** No outcome is EXECUTING. */
  datatype Entry = Entry(order: Order, outcome: Option<Outcome>, acked: bool)

  /** The receipts by job id, and the ids in the order in which they were added, which is the order of pruning. */
  datatype Store = Store(keys: seq<Uid>, recs: map<Uid, Entry>)

  datatype Agent = Agent(
    node: Name, tenant: Name, file: Store, cache: Store,
    up: bool, busy: Option<Uid>, ready: bool, stopped: bool)

  datatype Reaction = Ignore | Resend | Close | Run

  const RECEIPT_CAP: nat := 1000
  const RECEIPT_PRUNE_TO: nat := 800

  const RESTARTED := Outcome(Unknown, Name("{\"error\":\"executor restarted before a durable result\"}"), true)

  function Put(s: Store, k: Uid, e: Entry): Store {
    Store(if k in s.recs then s.keys else s.keys + [k], s.recs[k := e])
  }

  function Without(keys: seq<Uid>, k: Uid): (r: seq<Uid>)
    ensures |r| <= |keys|
    ensures forall x :: x in r <==> x in keys && x != k
  {
    if keys == [] then []
    else if keys[0] == k then Without(keys[1..], k)
    else [keys[0]] + Without(keys[1..], k)
  }

  function Remove(s: Store, k: Uid): Store {
    Store(Without(s.keys, k), s.recs - {k})
  }

  /** The prune loop over the keys it started with, from index `i` on. */
  function PruneFrom(s: Store, ids: seq<Uid>, i: nat): Store
    decreases |ids| - i
  {
    if i >= |ids| || |s.keys| <= RECEIPT_PRUNE_TO then s
    else if ids[i] in s.recs && s.recs[ids[i]].acked then PruneFrom(Remove(s, ids[i]), ids, i + 1)
    else PruneFrom(s, ids, i + 1)
  }

  function Prune(s: Store): Store {
    if |s.keys| < RECEIPT_CAP then s else PruneFrom(s, s.keys, 0)
  }

  function Reopened(e: Entry): Entry {
    if e.outcome.None? then e.(outcome := Some(RESTARTED)) else e
  }

  function Reload(s: Store): Store {
    Store(s.keys, map k | k in s.recs :: Reopened(s.recs[k]))
  }

  /** Process start: an entry that was EXECUTING is UNKNOWN, and is never run again. */
  function Boot(a: Agent, saved: bool): Agent {
    if |a.file.keys| > RECEIPT_CAP || !saved then a
    else
      var c := Prune(Reload(a.file));
      a.(file := c, cache := c, up := true, busy := None, ready := false, stopped := false)
  }

  function Crash(a: Agent): Agent {
    a.(up := false, busy := None, ready := false, stopped := false)
  }

  /** `persist`: the atomic write, or the agent stops for good. */
  function Persist(a: Agent, saved: bool): Agent {
    if saved then a.(file := a.cache) else a.(stopped := true)
  }

  /** An `execute` message; `admissible` stands for the deadline, the granted operations and the payload check. */
  function OnOrder(a: Agent, o: Order, admissible: bool, saved: bool): (Agent, Reaction) {
    if a.stopped then (a, Ignore)
    else if !a.ready then (a, Close)
    else if o.id in a.cache.recs then
      var e := a.cache.recs[o.id];
      if e.order != o then (a, Close)
      else (a, if e.outcome.Some? then Resend else Ignore)
    else
      var pruned := a.(cache := Prune(a.cache));
      if a.busy.Some? || |pruned.cache.keys| >= RECEIPT_CAP || !admissible then (pruned, Close)
      else
        var b := Persist(pruned.(cache := Put(pruned.cache, o.id, Entry(o, None, false))), saved);
        if saved then (b.(busy := Some(o.id)), Run) else (b, Close)
  }

  /** The executor finished. */
  function OnDone(a: Agent, outcome: Outcome, saved: bool): Agent
    requires a.busy.Some? && a.busy.value in a.cache.recs
  {
    var k := a.busy.value;
    Persist(a.(cache := Put(a.cache, k, a.cache.recs[k].(outcome := Some(outcome)))), saved).(busy := None)
  }

  function OnAck(a: Agent, id: Uid, lease: Uid, saved: bool): Agent {
    if a.stopped || !a.ready || id !in a.cache.recs || a.cache.recs[id].order.lease != lease then a
    else Persist(a.(cache := Put(a.cache, id, a.cache.recs[id].(acked := true))), saved)
  }

  /** A receipt may be on its way for any finished entry. */
  predicate Reports(a: Agent, id: Uid) {
    a.up && !a.stopped && id in a.cache.recs && a.cache.recs[id].outcome.Some?
  }

  // ------------------------------------------------------------------ what pruning removes

  ghost predicate Tidy(s: Store) {
    && (forall k :: k in s.recs <==> k in s.keys)
    && (forall i, j :: 0 <= i < j < |s.keys| ==> s.keys[i] != s.keys[j])
  }

  /** Every record that is gone was acknowledged; the rest is unchanged. */
  ghost predicate Shrinks(s: Store, t: Store, k: Uid) {
    && (k in t.recs ==> k in s.recs && t.recs[k] == s.recs[k])
    && (k in s.recs && k !in t.recs ==> s.recs[k].acked)
  }

  lemma {:induction false} PruneFromShrinks(s: Store, ids: seq<Uid>, i: nat)
    ensures forall k :: Shrinks(s, PruneFrom(s, ids, i), k)
    decreases |ids| - i
  {
    if i < |ids| && |s.keys| > RECEIPT_PRUNE_TO {
      if ids[i] in s.recs && s.recs[ids[i]].acked {
        var s1 := Remove(s, ids[i]);
        PruneFromShrinks(s1, ids, i + 1);
        var t := PruneFrom(s1, ids, i + 1);
        forall k ensures Shrinks(s, t, k) {
          assert Shrinks(s1, t, k);
        }
      } else {
        PruneFromShrinks(s, ids, i + 1);
      }
    }
  }

  lemma {:induction false} PruneShrinks(s: Store)
    ensures forall k :: Shrinks(s, Prune(s), k)
  {
    PruneFromShrinks(s, s.keys, 0);
  }

  lemma {:induction false} WithoutDistinct(keys: seq<Uid>, k: Uid)
    requires forall i, j :: 0 <= i < j < |keys| ==> keys[i] != keys[j]
    ensures var r := Without(keys, k);
            && (forall i, j :: 0 <= i < j < |r| ==> r[i] != r[j])
            && |r| == if k in keys then |keys| - 1 else |keys|
  {
    if keys != [] {
      var t := keys[1..];
      WithoutDistinct(t, k);
      if keys[0] == k {
        assert k !in t;
      } else {
        assert k in keys <==> k in t;
        var w := Without(t, k);
        forall i, j | 0 <= i < j < |w| + 1 ensures ([keys[0]] + w)[i] != ([keys[0]] + w)[j] {
          if i == 0 {
            assert w[j - 1] in t;
          }
        }
      }
    }
  }

  lemma {:induction false} PutTidy(s: Store, k: Uid, e: Entry)
    requires Tidy(s)
    ensures Tidy(Put(s, k, e)) && |Put(s, k, e).keys| == if k in s.recs then |s.keys| else |s.keys| + 1
  {
  }

  lemma {:induction false} RemoveTidy(s: Store, k: Uid)
    requires Tidy(s) && k in s.recs
    ensures Tidy(Remove(s, k)) && |Remove(s, k).keys| == |s.keys| - 1
  {
    WithoutDistinct(s.keys, k);
  }

  lemma {:induction false} PruneFromBounds(s: Store, ids: seq<Uid>, i: nat)
    requires Tidy(s)
    requires forall k :: k in s.recs ==> k in ids[if i <= |ids| then i else |ids|..] || !s.recs[k].acked
    ensures var t := PruneFrom(s, ids, i);
            && Tidy(t) && |t.keys| <= |s.keys|
            && (|t.keys| > RECEIPT_PRUNE_TO ==> forall k :: k in t.recs ==> !t.recs[k].acked)
            && (|s.keys| >= RECEIPT_PRUNE_TO ==> |t.keys| >= RECEIPT_PRUNE_TO)
    decreases |ids| - i
  {
    if i < |ids| && |s.keys| > RECEIPT_PRUNE_TO {
      assert ids[i..] == [ids[i]] + ids[i + 1..];
      if ids[i] in s.recs && s.recs[ids[i]].acked {
        RemoveTidy(s, ids[i]);
        PruneFromBounds(Remove(s, ids[i]), ids, i + 1);
      } else {
        PruneFromBounds(s, ids, i + 1);
      }
    }
  }

  lemma {:induction false} PruneTidy(s: Store)
    requires Tidy(s)
    ensures Tidy(Prune(s)) && |Prune(s).keys| <= |s.keys|
  {
    if |s.keys| >= RECEIPT_CAP {
      PruneBounds(s);
    }
  }

  /** A full store is cut to RECEIPT_PRUNE_TO records, or to its unacknowledged records if those are more. */
  lemma {:induction false} PruneBounds(s: Store)
    requires Tidy(s) && |s.keys| >= RECEIPT_CAP
    ensures var t := Prune(s);
            && Tidy(t)
            && RECEIPT_PRUNE_TO <= |t.keys| <= |s.keys|
            && (|t.keys| > RECEIPT_PRUNE_TO ==> forall k :: k in t.recs ==> !t.recs[k].acked)
  {
    assert s.keys[0..] == s.keys;
    PruneFromBounds(s, s.keys, 0);
  }

  // ------------------------------------------------------------------ what a message decides

  /**
   * An order is run exactly by an agent that is linked and free, that has never seen the job, that has room for one
   * more receipt and may do the work, and whose file takes the entry; then memory and file hold it as executing. An
   * order seen before is answered if it was the same and refused if it was not.
   */
  lemma {:induction false} OrderDecided(a: Agent, o: Order, admissible: bool, saved: bool)
    ensures var (b, r) := OnOrder(a, o, admissible, saved);
      var seen := o.id in a.cache.recs;
      var same := seen && a.cache.recs[o.id].order == o;
      && (r == Run <==>
            && !a.stopped && a.ready && !seen && a.busy.None? && |Prune(a.cache).keys| < 1000 && admissible && saved)
      && (r == Run ==>
            && b.busy == Some(o.id) && b.file == b.cache && !b.stopped
            && b.cache.recs == Prune(a.cache).recs[o.id := Entry(o, None, false)])
      && (r == Resend <==> !a.stopped && a.ready && same && a.cache.recs[o.id].outcome.Some?)
      && (r == Ignore <==> a.stopped || (a.ready && same && a.cache.recs[o.id].outcome.None?))
      && (r == Resend || r == Ignore ==> b == a)
      && (a.stopped || !a.ready || seen ==> b == a)
      && (b.stopped && !a.stopped ==> r == Close && !saved)
  {}

  /** A finished execution frees the agent and is in its file, or the agent has stopped; an acknowledgement is for the
      receipt of that very lease. */
  lemma {:induction false} DoneDecided(a: Agent, outcome: Outcome, id: Uid, lease: Uid, saved: bool)
    requires a.busy.Some? && a.busy.value in a.cache.recs
    ensures var b, k := OnDone(a, outcome, saved), a.busy.value;
      && b.busy.None?
      && b.cache.recs == a.cache.recs[k := Entry(a.cache.recs[k].order, Some(outcome), a.cache.recs[k].acked)]
      && (saved ==> b.file == b.cache && b.stopped == a.stopped) && (!saved ==> b.file == a.file && b.stopped)
    ensures var b := OnAck(a, id, lease, saved);
      if !a.stopped && a.ready && id in a.cache.recs && a.cache.recs[id].order.lease == lease then
        && b.cache.recs == a.cache.recs[id := Entry(a.cache.recs[id].order, a.cache.recs[id].outcome, true)]
        && (saved ==> b.file == b.cache) && (!saved ==> b.file == a.file && b.stopped)
      else b == a
  {}

  /**
   * A store of a thousand receipts is cut to eight hundred, as far as acknowledged ones can go; a smaller one stays.
   */
  lemma {:induction false} PruneDecided(s: Store)
    requires Tidy(s)
    ensures |s.keys| < 1000 ==> Prune(s) == s
    ensures |s.keys| >= 1000 ==>
      |Prune(s).keys| >= 800 && (|Prune(s).keys| > 800 ==> forall k :: k in Prune(s).recs ==> !Prune(s).recs[k].acked)
    ensures forall k :: k in s.recs && !s.recs[k].acked ==> k in Prune(s).recs
    ensures forall k :: k in Prune(s).recs ==> k in s.recs && Prune(s).recs[k] == s.recs[k]
  {
    if |s.keys| >= 1000 { PruneBounds(s); }
    PruneShrinks(s);
    forall k ensures k in s.recs && !s.recs[k].acked ==> k in Prune(s).recs { assert Shrinks(s, Prune(s), k); }
    forall k | k in Prune(s).recs ensures k in s.recs && Prune(s).recs[k] == s.recs[k] {
      assert Shrinks(s, Prune(s), k);
    }
  }

  /**
   * An agent starts, idle and not linked, unless its file holds more than a thousand receipts or cannot be written;
   * what was executing is then of unknown outcome and not acknowledged more than before. A stopped agent reports
   * nothing.
   */
  lemma {:induction false} StartDecided(a: Agent, saved: bool, id: Uid)
    ensures |a.file.keys| > 1000 || !saved ==> Boot(a, saved) == a
    ensures |a.file.keys| <= 1000 && saved ==>
      var b := Boot(a, saved);
      && b.up && b.busy.None? && !b.ready && !b.stopped && b.file == b.cache
      && (id in b.cache.recs ==>
            && id in a.file.recs
            && b.cache.recs[id] == Entry(a.file.recs[id].order,
                 if a.file.recs[id].outcome.Some? then a.file.recs[id].outcome
                 else Some(Outcome(Unknown, Name("{\"error\":\"executor restarted before a durable result\"}"), true)),
                 a.file.recs[id].acked))
    ensures Reports(a, id) ==> a.up && !a.stopped && id in a.cache.recs && a.cache.recs[id].outcome.Some?
  {
    var r := Reload(a.file);
    PruneShrinks(r);
    assert Shrinks(r, Prune(r), id);
  }
}
