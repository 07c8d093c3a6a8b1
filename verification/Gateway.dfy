/** Connections that share one ledger and one pool. */
module Gateway {
  // runtime/hermit/gateway/server.js has one ledger and one slab pool for all connections; each connection has an
  // account of its own. Whatever one of them receives, the others neither see it nor notice it, and every slab the pool
  // has lent is held by exactly one of them.

  import opened Common
  import L = LedgerModel
  import LedgerSafety
  import T = LedgerTheorems
  import V = LedgerViews
  import RamLedger
  import R = Reassembly
  import opened SlabPool
  import opened WsModel
  import opened WsTheorems
  import opened WebSocketReceiver

  // ------------------------------------------------------------------ one connection, while another is served

  /** The buffers of a connection: its header scratch and those of its parts. */
  ghost function Memory(r: Receiver): set<array<Byte>>
    reads r.store
  {
    R.Bufs(r.store.text.Keys) + {r.hdr}
  }

  ghost predicate Disjoint(s: set<array<Byte>>, t: set<array<Byte>>) { s !! t }

  /** What a sound connection says about the ledger and the pool. */
  lemma {:induction false} Known(r: Receiver)
    requires r.Good()
    ensures r.store.Valid() && r.Held() == r.store.text.Keys
    ensures L.Valid(r.store.ledger.State()) && r.store.pool.Valid() && r.store.pool.Clean()
    ensures R.Accounted(V.LeasesOf(r.store.ledger.State(), r.store.key), r.store.text.Keys)
    ensures Disjoint(Memory(r), Buffers(r.store.pool.idle)) && r.store.Reach() <= Memory(r) + Buffers(r.store.pool.idle)
    ensures R.Slabs(r.store.text.Keys) <= r.store.pool.out
  {
    hide L.Valid, Pool.Valid, Pool.Clean, R.Accounted, V.LeasesOf, Valid, Keeps, HeldBy;
    var out, idle := r.store.pool.out, Buffers(r.store.pool.idle);
    forall p | p in r.store.text ensures p.buf !in idle && (p.pooled ==> p.buf in out) { assert R.Lent(out, idle, p); }
  }

  /** The ledger and the pool have changed, but nothing that this storage has from them. */
  twostate lemma {:induction false} StorageStays(st: R.Storage)
    requires old(st.Valid()) && unchanged(st) && forall p :: p in st.text ==> unchanged(p.buf)
    requires L.Valid(st.ledger.State()) && st.pool.Valid() && st.pool.Clean()
    requires R.Accounted(V.LeasesOf(st.ledger.State(), st.key), st.text.Keys)
    requires forall p :: p in st.text ==>
      p.buf !in Buffers(st.pool.idle) && (p.buf in st.pool.out <==> p.buf in old(st.pool.out))
    ensures st.Valid()
  {
    hide L.Valid, Pool.Valid, Pool.Clean, R.Accounted, V.LeasesOf, AllZero;
    var held := st.text.Keys;
    forall p | p in held ensures R.Lent(st.pool.out, Buffers(st.pool.idle), p) {
      assert R.Lent(old(st.pool.out), old(Buffers(st.pool.idle)), p);
    }
    forall p | p in held ensures R.Blank(p) && st.Holds(p) { assert old(R.Blank(p)) && old(st.Holds(p)); }
  }

  /** None of this connection's objects was written to. */
  twostate predicate Still(q: Receiver)
    reads q, q.store, q.hdr, R.Bufs(q.store.text.Keys)
  {
    unchanged(q) && unchanged(q.store) && unchanged(q.hdr) && forall p :: p in q.store.text ==> unchanged(p.buf)
  }

  /** So the connection is as sound as it was, and where it was. */
  twostate lemma {:induction false} ReceiverStays(r: Receiver)
    requires old(r.Good()) && Still(r)
    requires L.Valid(r.store.ledger.State()) && r.store.pool.Valid() && r.store.pool.Clean()
    requires R.Accounted(V.LeasesOf(r.store.ledger.State(), r.store.key), r.store.text.Keys)
    requires Disjoint(Memory(r), Buffers(r.store.pool.idle))
    requires forall p :: p in r.store.text ==> (p.buf in r.store.pool.out <==> p.buf in old(r.store.pool.out))
    ensures r.Good() && r.Held() == old(r.Held()) && r.State() == old(r.State())
  {
    hide L.Valid, Pool.Valid, Pool.Clean, R.Accounted, V.LeasesOf, Valid, Keeps, HeldBy, Joined, Receiver.State,
        R.Storage.Valid;
    forall p | p in r.store.text ensures p.buf in Memory(r) {}
    StorageStays(r.store);
    assert r.Shape({}) && r.State() == old(r.State());
  }

  /** A connection whose socket is gone. */
  function Gone(rx: Rx): Rx { Rx([], None, None, if Stopped(rx.status) then rx.status else Halted, rx.events) }

  /** What comes to a connection: a chunk, a request to close, the end of its socket. */
  datatype Turn = Chunk(who: nat, bytes: seq<Byte>) | Closes(who: nat) | Dies(who: nat)

  function Takes(z: Limits, rx: Rx, t: Turn): Rx {
    match t
    case Chunk(_, bytes) => Receive(z, rx, bytes)
    case Closes(_) => CloseLocally(rx)
    case Dies(_) => Gone(rx)
  }

  /** Where a connection gets to by its own turns, as if there were no others. */
  function Alone(z: Limits, rx: Rx, turns: seq<Turn>, who: nat): Rx {
    if turns == [] then rx
    else
      var n := |turns| - 1;
      var before := Alone(z, rx, turns[..n], who);
      if turns[n].who == who then Takes(z, before, turns[n]) else before
  }

  /** The bytes that came to a connection. */
  function BytesOf(turns: seq<Turn>, who: nat): seq<Byte> {
    if turns == [] then []
    else
      var n := |turns| - 1;
      BytesOf(turns[..n], who) + if turns[n].Chunk? && turns[n].who == who then turns[n].bytes else []
  }

  /** A connection that is only ever sent chunks is where the byte-by-byte meaning of their bytes puts it. */
  lemma {:induction false} AloneReceives(z: Limits, rx: Rx, turns: seq<Turn>, who: nat)
    requires forall t :: t in turns && t.who == who ==> t.Chunk?
    ensures Alone(z, rx, turns, who) == Receive(z, rx, BytesOf(turns, who))
    decreases |turns|
  {
    if turns != [] {
      var n := |turns| - 1;
      AloneReceives(z, rx, turns[..n], who);
      assert turns[n] in turns;
      if turns[n].who == who {
        ReceiveAppend(z, rx, BytesOf(turns[..n], who), turns[n].bytes);
      } else {
        assert BytesOf(turns[..n], who) + [] == BytesOf(turns[..n], who);
      }
    }
  }

  lemma {:induction false} AloneNone(z: Limits, rx: Rx, turns: seq<Turn>, who: nat)
    requires turns == []
    ensures Alone(z, rx, turns, who) == rx
  {}

  lemma {:induction false} AloneNext(z: Limits, rx: Rx, turns: seq<Turn>, k: nat, who: nat)
    requires k < |turns|
    ensures var before := Alone(z, rx, turns[..k], who);
      Alone(z, rx, turns[..k + 1], who) == if turns[k].who == who then Takes(z, before, turns[k]) else before
  {
    assert turns[..k + 1][..k] == turns[..k];
  }

  lemma {:induction false} SeenStops(want: Rx, got: Rx)
    requires Seen(want, got)
    ensures Stopped(got.status) <==> Stopped(want.status)
  {}

  lemma {:induction false} SeenSelf(rx: Rx)
    ensures Seen(rx, rx)
  {}

  /** What can be seen of a connection decides what can be seen of it after a turn. */
  lemma {:induction false} SeenTakes(z: Limits, want: Rx, got: Rx, t: Turn, next: Rx)
    requires Seen(want, got) && Seen(Takes(z, got, t), next)
    ensures Seen(Takes(z, want, t), next)
  {
    if Stopped(want.status) && t.Chunk? {
      StoppedStays(z, want, t.bytes);
      StoppedStays(z, got, t.bytes);
    }
  }

  lemma {:induction false} StaysStopped(z: Limits, rx: Rx, t: Turn)
    requires Stopped(rx.status)
    ensures Stopped(Takes(z, rx, t).status)
  {
    if t.Chunk? { StoppedStays(z, rx, t.bytes); }
  }

  // ------------------------------------------------------------------ all of them

  class Server {
    const ledger: RamLedger.Controller
    const pool: Pool
    const limits: Limits
    var conns: seq<Receiver>

    ghost function Stores(): set<R.Storage>
      reads this
    {
      set r | r in conns :: r.store
    }

    /** The buffers of all connections. */
    ghost function AllMemory(): set<array<Byte>>
      reads this, Stores()
    {
      set r, b | r in conns && b in Memory(r) :: b
    }

    /** Every buffer that somebody holds or the pool keeps. */
    ghost function Everything(): set<array<Byte>>
      reads this, Stores(), pool
    {
      AllMemory() + Buffers(pool.idle)
    }

    /** All of it was there before or is new. */
    twostate predicate NothingElse()
      reads this, Stores(), pool
    {
      forall b :: b in Everything() ==> b in old(Everything()) || fresh(b)
    }

    /** A connection on this ledger and this pool, with the limits of the server. */
    ghost predicate Belongs(r: Receiver) { r.store.ledger == ledger && r.store.pool == pool && r.limits == limits }

    /** A sound connection of this server. */
    ghost predicate Serves(r: Receiver)
      reads r, r.store, r.hdr, ledger, pool, Buffers(pool.idle), R.Bufs(r.store.text.Keys)
    {
      Belongs(r) && r.Good()
    }

    /** Two connections have nothing in common but the ledger and the pool. */
    ghost predicate Strangers(r: Receiver, q: Receiver)
      reads r.store, q.store
    {
      r != q && r.store != q.store && r.store.key != q.store.key && Disjoint(Memory(r), Memory(q))
    }

    /** The slab is one of the connection's. */
    ghost predicate Holds(r: Receiver, b: array<Byte>)
      reads r.store
    {
      b in R.Slabs(r.store.text.Keys)
    }

    ghost predicate Held(b: array<Byte>)
      reads this, Stores()
    {
      exists i :: 0 <= i < |conns| && Holds(conns[i], b)
    }

    ghost predicate Shared()
      reads this, ledger, pool, Buffers(pool.idle)
    {
      && limits.maxFragments > 0 && limits.maxMessage + 125 <= L.MAX_SAFE
      && L.Valid(ledger.State()) && pool.Valid() && pool.Clean() && R.Sized(pool.classes)
    }

    /**
     * Every connection is sound, no two have anything in common, the pool keeps only clean slabs, and each slab it has
     * lent is held by one of them.
     */
    ghost predicate Valid()
      reads *
    {
      && Shared()
      && (forall i :: 0 <= i < |conns| ==> Serves(conns[i]))
      && (forall i, j :: 0 <= i < |conns| && 0 <= j < |conns| && i != j ==> Strangers(conns[i], conns[j]))
      && (forall b :: b in pool.out ==> Held(b))
    }

    constructor (limits: Limits, globalBytes: nat, tenantBytes: nat, classes: seq<nat>, maxIdleBytes: nat)
      requires limits.maxFragments > 0 && limits.maxMessage + 125 <= L.MAX_SAFE && R.Sized(classes)
      ensures Valid() && conns == [] && this.limits == limits
    {
      this.limits, conns := limits, [];
      ledger := new RamLedger.Controller(globalBytes, tenantBytes);
      pool := new Pool(classes, maxIdleBytes);
      T.FreshValid(globalBytes, tenantBytes);
    }

    // ---------------------------------------------------------------- what an event of one leaves of another

    /**
     * What the event of `r` did: `r` is sound, and has nothing now but what it had, what nobody had, and new buffers.
     */
    twostate predicate Acted(r: Receiver)
      reads r, r.store, r.hdr, r.store.ledger, r.store.pool, Buffers(r.store.pool.idle), R.Bufs(r.store.text.Keys)
    {
      && r.Good() && r.store.Outer() == old(r.store.Outer())
      && forall b :: b in r.store.Reach() ==> b in old(r.store.Reach()) || fresh(b)
    }

    /** Whatever the one has now, the other had none of it and has none of it. */
    twostate lemma {:induction false} Untouched(new i: nat, new j: nat)
      requires old(Valid()) && conns == old(conns) && i < |conns| && j < |conns| && i != j
      requires Acted(conns[i]) && Still(conns[j])
      ensures Disjoint(Memory(conns[j]), Buffers(pool.idle)) && Disjoint(Memory(conns[i]), Memory(conns[j]))
    {
      hide L.Valid, Pool.Valid, Pool.Clean, R.Accounted, Receiver.Good, Receiver.Held, R.Slabs, R.Storage.Valid, Shared,
          Held;
      var r, q := conns[i], conns[j];
      assert old(Serves(r) && Serves(q) && Strangers(r, q));
      KnownBefore(r);
      KnownBefore(q);
      forall b | b in Memory(q) ensures b !in r.store.Reach() && b != r.hdr { assert b in old(Memory(q)); }
    }

    /** The accounts of others, and what is lent to others. */
    twostate lemma {:induction false} OthersSame(r: Receiver)
      requires Belongs(r) && r.store.Outer() == old(r.store.Outer())
      ensures ledger.State().sessions - {r.store.key} == old(ledger.State()).sessions - {r.store.key}
      ensures pool.out - R.Slabs(r.store.text.Keys) == old(pool.out) - R.Slabs(old(r.store.text.Keys))
    {
      hide V.LeasesOf, R.OtherLeases, R.Slabs;
    }

    /** The connection is where it was. */
    twostate predicate Unmoved(q: Receiver)
      reads q, q.store, q.hdr, q.store.ledger, q.store.pool, Buffers(q.store.pool.idle), R.Bufs(q.store.text.Keys)
    {
      old(q.Good()) && q.Good() && q.Held() == old(q.Held()) && q.State() == old(q.State())
    }

    /** Another connection is as it was. */
    twostate lemma {:induction false} Bystander(new i: nat, new j: nat)
      requires old(Valid()) && conns == old(conns) && i < |conns| && j < |conns| && i != j
      requires Acted(conns[i]) && Still(conns[j])
      ensures Serves(conns[j]) && Strangers(conns[i], conns[j])
      ensures conns[j].Held() == old(conns[j].Held()) && conns[j].State() == old(conns[j].State())
    {
      hide L.Valid, Pool.Valid, Pool.Clean, R.Accounted, Receiver.Good, Receiver.State, Receiver.Held, R.Slabs,
          R.Storage.Outer, R.Storage.Reach, V.LeasesOf, R.Storage.Valid, Disjoint, Shared, Held;
      var r, q := conns[i], conns[j];
      assert old(Serves(r) && Serves(q) && Strangers(r, q));
      Known(r);
      KnownBefore(q);
      OthersSame(r);
      OthersLeases(old(ledger.State()), ledger.State(), r.store.key, q.store.key);
      Untouched(i, j);
      assert Memory(q) == old(Memory(q));
      forall p | p in q.store.text ensures p.buf in pool.out <==> p.buf in old(pool.out) {
        NotTheirs(i, j, p);
        SameWithout(old(pool.out), pool.out, old(r.store.text.Keys), r.store.text.Keys, p.buf);
      }
      ReceiverStays(q);
    }

    twostate lemma {:induction false} NotTheirs(new i: nat, new j: nat, new p: R.Part)
      requires conns == old(conns) && i < |conns| && j < |conns| && p in conns[j].store.text && Still(conns[j])
      requires Disjoint(Memory(conns[i]), Memory(conns[j])) && old(Disjoint(Memory(conns[i]), Memory(conns[j])))
      ensures p.buf !in R.Bufs(conns[i].store.text.Keys) && p.buf !in R.Bufs(old(conns[i].store.text.Keys))
    {
      assert p.buf in Memory(conns[j]) && p.buf in old(Memory(conns[j]));
    }

    /** No object of any other connection was written to. */
    twostate predicate Rest(new i: nat)
      reads *
    {
      conns == old(conns) && forall j :: 0 <= j < |old(conns)| && j != i ==> Still(old(conns)[j])
    }

    /** All other connections are where they were. */
    twostate predicate Others(new i: nat)
      reads *
    {
      conns == old(conns) && forall j :: 0 <= j < |old(conns)| && j != i ==> Unmoved(old(conns)[j])
    }

    /** A slab that is lent is still held, or is held by the one that acted. */
    twostate lemma {:induction false} HeldStill(new i: nat, new b: array<Byte>)
      requires old(Valid()) && Rest(i) && i < |conns| && Acted(conns[i])
      requires b in pool.out
      ensures Held(b)
    {
      hide Shared, R.Slabs, R.Storage.Outer, R.Storage.Reach, Receiver.Good, Strangers;
      var r := conns[i];
      assert Belongs(r) by { assert old(Serves(r)); }
      OthersSame(r);
      if b in R.Slabs(r.store.text.Keys) {
        assert Holds(conns[i], b);
      } else {
        assert b in pool.out - R.Slabs(r.store.text.Keys);
        assert old(Held(b));
        var k :| 0 <= k < |conns| && old(Holds(conns[k], b));
        assert Holds(conns[k], b);
      }
    }

    /** One connection has had its event, and the others had none: all is well, and the others are where they were. */
    twostate lemma {:induction false} AfterEvent(new i: nat)
      requires old(Valid()) && Rest(i) && i < |conns| && Acted(conns[i])
      ensures Valid() && NothingElse() && Others(i)
    {
      hide L.Valid, Pool.Valid, Pool.Clean, R.Accounted, Receiver.Good, R.Storage.Outer, R.Storage.Reach, Held,
          Disjoint, Memory, NothingElse;
      assert old(Serves(conns[i])) && Serves(conns[i]);
      Known(conns[i]);
      assert Shared();
      forall j | 0 <= j < |conns| && j != i
        ensures Serves(conns[j]) && Strangers(conns[i], conns[j]) && Strangers(conns[j], conns[i]) && Unmoved(conns[j])
      {
        Bystander(i, j);
        Symmetric(conns[i], conns[j]);
      }
      forall j, k | 0 <= j < |conns| && 0 <= k < |conns| && j != k ensures Strangers(conns[j], conns[k]) {
        assert old(Strangers(conns[j], conns[k]));
      }
      forall b | b in pool.out ensures Held(b) { HeldStill(i, b); }
      NoMore(i);
    }

    twostate lemma {:induction false} NoMore(new i: nat)
      requires old(Valid()) && Rest(i) && i < |conns| && Acted(conns[i])
      ensures NothingElse()
    {
      hide L.Valid, Pool.Valid, Pool.Clean, R.Accounted, Receiver.Good, R.Storage.Outer, Held, Disjoint, Strangers,
          Shared,
          Buffers;
      var r := conns[i];
      assert old(Serves(r));
      forall b | b in Everything() ensures b in old(Everything()) || fresh(b) {
        if b in Buffers(pool.idle) || b in Memory(r) {
          assert b in r.store.Reach() || b == r.hdr;
          assert b in old(r.store.Reach()) ==> b in old(Memory(r)) || b in old(Buffers(pool.idle));
          assert r.hdr in old(Memory(r));
        } else {
          var q :| q in conns && b in Memory(q);
          assert Still(q) && b in old(Memory(q));
        }
      }
    }

    lemma {:induction false} Symmetric(r: Receiver, q: Receiver)
      requires Strangers(r, q)
      ensures Strangers(q, r)
    {}

    // ---------------------------------------------------------------- the events of a connection

    /** What one connection may write to is none of another's. */
    lemma {:induction false} OutOfReach(i: nat, j: nat)
      requires Valid() && i < |conns| && j < |conns| && i != j
      ensures conns[j] != conns[i] && conns[j].store != conns[i].store
      ensures Disjoint(Memory(conns[j]), conns[i].store.Reach() + {conns[i].hdr})
    {
      hide L.Valid, Pool.Valid, Pool.Clean, R.Accounted, Receiver.Good, Receiver.Held, R.Storage.Valid, Shared, Held;
      assert Serves(conns[i]) && Serves(conns[j]) && Strangers(conns[i], conns[j]);
      Known(conns[i]);
      Known(conns[j]);
    }

    /** A chunk from the socket of one connection. */
    method OnData(i: nat, bytes: seq<Byte>) returns (refused: Option<nat>, late: bool, ghost at: nat)
      requires Valid() && i < |conns|
      modifies conns[i], conns[i].hdr, conns[i].store`text, ledger, pool, conns[i].store.Reach()
      ensures Valid() && conns == old(conns) && NothingElse() && at <= |bytes|
      ensures Noted(refused.Some? || late, old(R.TabOf(ledger.State())), R.TabOf(ledger.State()))
      ensures refused.None? ==> Seen(Receive(limits, old(conns[i].State()), bytes), conns[i].State())
      ensures refused.Some? ==>
        Seen(Fail(Receive(limits, old(conns[i].State()), bytes[..at]), refused.value), conns[i].State())
      ensures Others(i)
    {
      hide Receiver.Good, Receiver.State, R.Storage.Reach, R.Storage.Outer, Shared, Held, Strangers, Receive, Fail,
          Disjoint, Noted, Seen;
      var r := conns[i];
      assert Serves(r);
      forall j | 0 <= j < |conns| && j != i ensures Far(r, conns[j]) { OutOfReach(i, j); FarIs(r, conns[j]); }
      StateReady(r);
      ReachIs(r.store);
      ghost var reach, rx := R.Bufs(r.store.text.Keys) + Buffers(pool.idle), r.State();
      var chunk := Received(bytes);
      assert chunk !in reach && r.Good() && r.store.Reach() == reach && r.State() == rx;
      refused, late, at := r.OnData(chunk);
      AfterEvent(i);
    }

    /** `terminate`: the socket is gone, and everything the connection had goes back at once. */
    method Destroy(i: nat)
      requires Valid() && i < |conns|
      modifies conns[i], conns[i].store`text, ledger, pool, conns[i].store.Reach()
      ensures Valid() && conns == old(conns) && NothingElse() && conns[i].State() == Gone(old(conns[i].State()))
      ensures R.TabOf(ledger.State()) == old(R.TabOf(ledger.State()))
      ensures conns[i].store.text == map[] && pool.out == old(pool.out - R.Slabs(conns[i].Held()))
      ensures forall p :: p in old(conns[i].Held()) ==> R.Wiped(p)
      ensures Others(i)
    {
      hide Receiver.Good, Receiver.State, R.Storage.Reach, R.Storage.Outer, Shared, Held, Strangers, Disjoint, R.Wiped,
          R.Slabs;
      var r := conns[i];
      assert Serves(r);
      forall j | 0 <= j < |conns| && j != i ensures Far(r, conns[j]) { OutOfReach(i, j); FarIs(r, conns[j]); }
      StateReady(r);
      r.Destroy();
      AfterEvent(i);
    }

    /** `close`: the connection ends what it is receiving and ignores other frames. */
    method Close(i: nat)
      requires Valid() && i < |conns|
      modifies conns[i]
      ensures Valid() && conns == old(conns) && NothingElse() && conns[i].State() == CloseLocally(old(conns[i].State()))
      ensures ledger.State() == old(ledger.State())
      ensures Others(i)
    {
      hide Receiver.Good, Receiver.State, R.Storage.Reach, R.Storage.Outer, Shared, Held, Strangers, Disjoint;
      var r := conns[i];
      assert Serves(r);
      forall j | 0 <= j < |conns| && j != i ensures Far(r, conns[j]) { OutOfReach(i, j); FarIs(r, conns[j]); }
      r.Close();
      AfterEvent(i);
    }

    ghost predicate Far(r: Receiver, q: Receiver)
      reads r.store, q.store, r.store.pool
    {
      && q != r && q.store != r.store && q.hdr != r.hdr && q.hdr !in r.store.Reach()
      && forall p :: p in q.store.text ==> p.buf != r.hdr && p.buf !in r.store.Reach()
    }

    lemma {:induction false} FarIs(r: Receiver, q: Receiver)
      requires q != r && q.store != r.store && Disjoint(Memory(q), r.store.Reach() + {r.hdr})
      ensures Far(r, q)
    {
      assert q.hdr in Memory(q);
      forall p | p in q.store.text ensures p.buf != r.hdr && p.buf !in r.store.Reach() { assert p.buf in Memory(q); }
    }

    // ---------------------------------------------------------------- the ledger, for other ends

    /** The leases that back a connection's parts are in this ledger. */
    ghost predicate Backs(l: L.Ledger, r: Receiver)
      reads r.store
    {
      R.Accounted(V.LeasesOf(l, r.store.key), r.store.text.Keys)
    }

    /** The ledger alone has changed, and still has every lease that backs a part. */
    twostate lemma {:induction false} AfterLedger()
      requires old(Valid()) && conns == old(conns) && Stands()
      requires L.Valid(ledger.State()) && forall j :: 0 <= j < |conns| ==> Backs(ledger.State(), conns[j])
      ensures Valid() && forall j :: 0 <= j < |conns| ==> Unmoved(conns[j])
    {
      hide L.Valid, Pool.Valid, Pool.Clean, R.Accounted, Receiver.Good, Disjoint, Memory, R.Slabs;
      assert pool.Clean() == old(pool.Clean()) && pool.Valid() == old(pool.Valid());
      assert old(Shared()) && Shared();
      forall j | 0 <= j < |conns| ensures Serves(conns[j]) && Unmoved(conns[j]) {
        assert old(Serves(conns[j])) && Backs(ledger.State(), conns[j]);
        KnownBefore(conns[j]);
        ReceiverStays(conns[j]);
      }
      forall j, k | 0 <= j < |conns| && 0 <= k < |conns| && j != k ensures Strangers(conns[j], conns[k]) {
        assert old(Strangers(conns[j], conns[k]));
      }
      forall b | b in pool.out ensures Held(b) {
        assert old(Held(b));
        var k :| 0 <= k < |conns| && old(Holds(conns[k], b));
        assert Holds(conns[k], b);
      }
    }

    /** Neither the pool nor a connection was written to. */
    twostate predicate Stands()
      reads *
    {
      && unchanged(pool) && (forall b :: b in Buffers(pool.idle) ==> unchanged(b))
      && forall j :: 0 <= j < |conns| ==> conns[j] in old(conns) && Still(conns[j])
    }

    /** Other uses of the ledger: by other accounts, in other buckets, or closing the account of a connection. */
    predicate Beside(l: L.Ledger, key: Name, op: T.Op) { V.Elsewhere(l, key, L.Reassembly, op) || op == T.DoClose(key) }

    method Account(op: T.Op)
      requires Valid() && forall j :: 0 <= j < |conns| ==> Beside(ledger.State(), conns[j].store.key, op)
      modifies ledger
      ensures Valid() && conns == old(conns) && ledger.State() == T.Do(old(ledger.State()), op)
      ensures forall j :: 0 <= j < |conns| ==> Unmoved(conns[j])
    {
      hide L.Valid, Pool.Valid, Pool.Clean, R.Accounted, Receiver.Good, Disjoint, Memory, R.Slabs, Held, Strangers;
      ghost var l := ledger.State();
      T.DoKeeps(l, op);
      forall j | 0 <= j < |conns| ensures Backs(T.Do(l, op), conns[j]) {
        assert Serves(conns[j]);
        Known(conns[j]);
        BackedBeside(l, conns[j].store.key, conns[j].store.text.Keys, op);
      }
      Carry(ledger, op);
      AfterLedger();
    }

    /** The connection is at the beginning. */
    ghost predicate Fresh(r: Receiver)
      requires r.Good()
      reads r, r.store, r.hdr, r.store.ledger, r.store.pool, Buffers(r.store.pool.idle), R.Bufs(r.store.text.Keys)
    {
      r.State() == START
    }

    /**
     * A connection comes: its account is admitted before anything else is made for it. Its name is drawn at random, so
     * it is nobody else's.
     */
    method Connect(key: Name, tenant: Name, bytes: int, caps: map<L.Bucket, nat>) returns (refused: Option<L.Scope>)
      requires Valid() && forall j :: 0 <= j < |conns| ==> conns[j].store.key != key
      modifies this`conns, ledger
      ensures Valid() && (ledger.State(), refused) == L.Admit(old(ledger.State()), key, tenant, bytes, caps)
      ensures refused.Some? ==> conns == old(conns)
      ensures refused.None? ==>
        exists r: Receiver :: conns == old(conns) + [r] && r.store.key == key && r.Good() && Fresh(r)
      ensures old(conns) <= conns && forall j :: 0 <= j < |old(conns)| ==> Unmoved(conns[j])
    {
      hide L.Valid, Pool.Valid, Pool.Clean, R.Accounted, Receiver.Good, Disjoint, R.Slabs, Held, Strangers, L.Admit,
          Receiver.State, R.Storage.Valid;
      ghost var l := ledger.State();
      NewAccount(l, key, tenant, bytes, caps);
      forall j | 0 <= j < |conns| ensures Backs(L.Admit(l, key, tenant, bytes, caps).0, conns[j]) {
        assert Serves(conns[j]);
        Known(conns[j]);
        R.BooksElsewhere(l, conns[j].store.key, conns[j].store.text.Keys, T.DoAdmit(key, tenant, bytes, caps));
      }
      refused := ledger.Admit(key, tenant, bytes, caps);
      AfterLedger();
      if refused.None? { Seat(key); }
    }

    /** An account without leases gets its connection. */
    method Seat(key: Name)
      requires Valid() && forall j :: 0 <= j < |conns| ==> conns[j].store.key != key
      requires V.LeasesOf(ledger.State(), key) == map[]
      modifies this`conns
      ensures Valid()
      ensures exists r: Receiver :: conns == old(conns) + [r] && r.store.key == key && r.Good() && Fresh(r)
    {
      hide L.Valid, Pool.Valid, Pool.Clean, Receiver.Good, Disjoint, R.Slabs, Held, Strangers, Receiver.State;
      assert R.Stock(pool, {}) && R.Books(ledger.State(), key, {});
      var store := new R.Storage(ledger, key, pool);
      var r := new Receiver(limits, store);
      Known(r);
      label Made:
      conns := conns + [r];
      assert Still@Made(r);
      ReceiverStays@Made(r);
      assert Stranger(r) && Stood();
      Newcomer(r);
    }

    /** Made after everything that was there before. */
    twostate predicate Stranger(new r: Receiver)
      reads r.store
    {
      fresh(r) && fresh(r.store) && fresh(r.hdr) && r.store.text == map[]
    }

    twostate lemma {:induction false} Unlike(q: Receiver, new r: Receiver)
      requires Still(q) && Stranger(r) && q.store.key != r.store.key
      ensures Strangers(q, r) && Strangers(r, q)
    {
      forall b | b in Memory(q) ensures b != r.hdr {
        assert b in old(Memory(q));
        var held := old(Memory(q));
        assert b in held;
      }
    }

    /** With a new connection all is well. */
    twostate lemma {:induction false} Newcomer(new r: Receiver)
      requires old(Valid()) && conns == old(conns) + [r] && Belongs(r) && r.Good() && Stranger(r)
      requires forall j :: 0 <= j < |old(conns)| ==> conns[j].store.key != r.store.key
      requires Stood()
      ensures Valid()
    {
      hide L.Valid, Pool.Valid, Pool.Clean, R.Accounted, Receiver.Good, Disjoint, R.Slabs;
      assert old(Shared()) && Shared();
      var n := |old(conns)|;
      forall j | 0 <= j < |conns| ensures Serves(conns[j]) {
        if j < n {
          assert old(Serves(conns[j])) && Still(conns[j]);
          KnownBefore(conns[j]);
          ReceiverStays(conns[j]);
        }
      }
      forall j | 0 <= j < n ensures Strangers(conns[j], r) && Strangers(r, conns[j]) {
        assert Still(conns[j]);
        Unlike(conns[j], r);
      }
      forall j, k | 0 <= j < |conns| && 0 <= k < |conns| && j != k ensures Strangers(conns[j], conns[k]) {
        if j < n && k < n { assert Still(conns[j]) && Still(conns[k]) && old(Strangers(conns[j], conns[k])); }
      }
      forall b | b in pool.out ensures Held(b) {
        assert old(Held(b));
        var k :| 0 <= k < n && old(Holds(conns[k], b));
        assert Still(conns[k]) && Holds(conns[k], b);
      }
    }

    /** Nothing that was there before was written to. */
    twostate predicate Stood()
      reads *
    {
      && unchanged(pool) && unchanged(ledger) && (forall b :: b in Buffers(pool.idle) ==> unchanged(b))
      && forall r :: r in old(conns) ==> Still(r)
    }

    // ---------------------------------------------------------------- any number of connections, in any order

    ghost function Where(i: nat): Rx
      requires Valid() && i < |conns|
      reads *
    {
      StateReady(conns[i]);
      conns[i].State()
    }

    lemma {:induction false} InEverything(i: nat)
      requires Valid() && i < |conns|
      ensures conns[i].store.Reach() + {conns[i].hdr} <= Everything() && conns[i] in conns && conns[i].store in Stores()
    {
      hide Receiver.Good, Shared, Held, Strangers;
      var r := conns[i];
      assert Serves(r) && r in conns;
      forall b | b in r.store.Reach() + {r.hdr} ensures b in Everything() {
        assert b in Memory(r) || b in Buffers(pool.idle);
      }
    }

    /**
     * One turn: the connection it is for takes it, or is refused storage and stops; no other moves. A connection that
     * has stopped may be refused storage for what it does not heed any more, too.
     */
    method Step(t: Turn) returns (refused: bool, late: bool)
      requires Valid() && t.who < |conns|
      modifies conns, Stores(), ledger, pool, Everything()
      ensures Valid() && conns == old(conns)
      ensures NothingElse()
      ensures forall j :: 0 <= j < |conns| && j != t.who ==> Where(j) == old(Where(j))
      ensures if refused then Stopped(Where(t.who).status) else Seen(Takes(limits, old(Where(t.who)), t), Where(t.who))
      ensures Noted(refused || late, old(R.TabOf(ledger.State())), R.TabOf(ledger.State()))
    {
      hide Receiver.Good, Receiver.State, R.Storage.Reach, Shared, Held, Strangers, Receive, Everything, NothingElse;
      refused, late := false, false;
      NotedNone(R.TabOf(ledger.State()));
      InEverything(t.who);
      StateReady(conns[t.who]);
      match t {
        case Chunk(i, bytes) =>
          var code;
          ghost var at;
          code, late, at := OnData(i, bytes);
          refused := code.Some?;
        case Closes(i) => Close(i);
        case Dies(i) => Destroy(i);
      }
    }

    /**
     * Whatever comes to whom, in whatever order: all stays sound, and a connection that was never refused storage is
     * where its own turns alone would have taken it, as far as that can be seen. One that was refused has stopped.
     */
    method Serve(turns: seq<Turn>) returns (refused: set<nat>, late: bool)
      requires Valid() && forall t :: t in turns ==> t.who < |conns|
      modifies conns, Stores(), ledger, pool, Everything()
      ensures Valid() && conns == old(conns)
      ensures forall i :: 0 <= i < |conns| ==>
        if i in refused then Stopped(Where(i).status) else Seen(Alone(limits, old(Where(i)), turns, i), Where(i))
      ensures Noted(refused != {} || late, old(R.TabOf(ledger.State())), R.TabOf(ledger.State()))
    {
      hide Valid, Where, Everything, Alone, Takes, Stopped, Noted, Seen;
      refused, late := {}, false;
      assert turns[..0] == [];
      NotedNone(R.TabOf(ledger.State()));
      forall i | 0 <= i < |conns| ensures Seen(Alone(limits, Where(i), turns[..0], i), Where(i)) {
        AloneNone(limits, Where(i), turns[..0], i);
        SeenSelf(Where(i));
      }
      for k := 0 to |turns|
        invariant Valid() && conns == old(conns) && NothingElse()
        invariant Noted(refused != {} || late, old(R.TabOf(ledger.State())), R.TabOf(ledger.State()))
        invariant forall i :: 0 <= i < |conns| ==>
          if i in refused then Stopped(Where(i).status) else Seen(Alone(limits, old(Where(i)), turns[..k], i), Where(i))
      {
        var t := turns[k];
        ghost var was := Where(t.who);
        ghost var spent := R.TabOf(ledger.State());
        label Before:
        var no, more := Step(t);
        NotedAfter(refused != {} || late, no || more, old(R.TabOf(ledger.State())), spent, R.TabOf(ledger.State()));
        ghost var already := refused;
        if no { refused := refused + {t.who}; }
        late := late || more;
        forall i | 0 <= i < |conns|
          ensures if i in refused then Stopped(Where(i).status)
                  else Seen(Alone(limits, old(Where(i)), turns[..k + 1], i), Where(i))
        {
          AloneNext(limits, old(Where(i)), turns, k, i);
          assert i != t.who ==> Where(i) == old@Before(Where(i));
          assert i == t.who ==> was == old@Before(Where(i));
          if i == t.who && !no {
            if i in already {
              StaysStopped(limits, was, t);
              SeenStops(Takes(limits, was, t), Where(i));
            } else {
              SeenTakes(limits, Alone(limits, old(Where(i)), turns[..k], i), was, t, Where(i));
            }
          }
        }
        assert NothingElse@Before() && NothingElse();
      }
      assert turns[..|turns|] == turns;
    }

    /**
     * Every slab that the pool has lent is held, by one connection only; nothing is left in those it keeps; and each
     * account has one reassembly lease for each part that its connection has stored, within the limits on a message.
     */
    lemma {:induction false} AllBalanced()
      requires Valid()
      ensures forall b :: b in pool.out <==> exists i :: 0 <= i < |conns| && Holds(conns[i], b)
      ensures forall i, j, b :: 0 <= i < |conns| && 0 <= j < |conns| && Holds(conns[i], b) && Holds(conns[j], b) ==>
          i == j
      ensures pool.Clean()
      ensures forall i :: 0 <= i < |conns| ==>
        && |V.Kind(ledger.State(), conns[i].store.key, L.Reassembly)| == LiveParts(Where(i))
        && LiveParts(Where(i)) <= limits.maxFragments + 1 && FragBytes(Where(i).frag) <= limits.maxMessage
    {
      hide L.Valid, Pool.Valid, Pool.Clean, Receiver.Good, V.Kind, LiveParts, Receiver.State, Receiver.Held;
      forall i | 0 <= i < |conns|
        ensures |V.Kind(ledger.State(), conns[i].store.key, L.Reassembly)| == LiveParts(Where(i))
        ensures LiveParts(Where(i)) <= limits.maxFragments + 1 && FragBytes(Where(i).frag) <= limits.maxMessage
        ensures R.Slabs(conns[i].store.text.Keys) <= pool.out
      {
        assert Serves(conns[i]);
        Known(conns[i]);
        SoundOf(conns[i]);
        WithinLimits(conns[i]);
        conns[i].Balanced();
      }
      forall i, j, b | 0 <= i < |conns| && 0 <= j < |conns| && Holds(conns[i], b) && Holds(conns[j], b) ensures i == j {
        assert b in Memory(conns[i]) && b in Memory(conns[j]);
        assert i != j ==> Disjoint(Memory(conns[i]), Memory(conns[j])) by {
          assert i != j ==> Strangers(conns[i], conns[j]);
        }
      }
      forall b ensures b in pool.out <==> exists i :: 0 <= i < |conns| && Holds(conns[i], b) {
        if b in pool.out { assert Held(b); }
      }
    }
  }

  method Carry(ledger: RamLedger.Controller, op: T.Op)
    modifies ledger
    ensures ledger.State() == T.Do(old(ledger.State()), op)
  {
    match op {
      case DoAdmit(key, tenant, bytes, caps) => var refused := ledger.Admit(key, tenant, bytes, caps);
      case DoAcquire(key, bucket, capacity, physical) => var got := ledger.Acquire(key, bucket, capacity, physical);
      case DoActivate(key, id, used) => var refused := ledger.Activate(key, id, used);
      case DoSetUsed(key, id, used) => var refused := ledger.SetUsed(key, id, used);
      case DoRetain(key, id) => var refused := ledger.Retain(key, id);
      case DoRelease(key, id) => var last := ledger.Release(key, id);
      case DoClose(key) => ledger.Close(key);
    }
  }

  /** The chunk a socket hands over is a buffer of its own. */
  method Received(bytes: seq<Byte>) returns (chunk: array<Byte>)
    ensures fresh(chunk) && chunk[..] == bytes
  {
    chunk := new Byte[|bytes|](k requires 0 <= k < |bytes| => bytes[k]);
    assert forall k :: 0 <= k < |bytes| ==> chunk[k] == bytes[k];
  }

  /** A new account has no leases. */
  lemma {:induction false} NewAccount(
    l: L.Ledger, key: Name, tenant: Name, bytes: int, caps: map<L.Bucket, nat>)
    requires L.Valid(l)
    ensures var (next, refused) := L.Admit(l, key, tenant, bytes, caps);
      L.Valid(next) && (refused.None? ==> V.LeasesOf(next, key) == map[])
  {
    LedgerSafety.AdmitKeeps(l, key, tenant, bytes, caps);
  }

  /** Other uses of the ledger leave the leases of the parts, but for their state. */
  lemma {:induction false} BackedBeside(l: L.Ledger, key: Name, held: set<R.Part>, op: T.Op)
    requires L.Valid(l) && R.Accounted(V.LeasesOf(l, key), held)
    requires V.Elsewhere(l, key, L.Reassembly, op) || op == T.DoClose(key)
    ensures R.Accounted(V.LeasesOf(T.Do(l, op), key), held)
  {
    if op == T.DoClose(key) {
      BackedClosed(l, key, held);
    } else {
      R.BooksElsewhere(l, key, held, op);
    }
  }

  lemma {:induction false} BackedClosed(l: L.Ledger, key: Name, held: set<R.Part>)
    requires R.Accounted(V.LeasesOf(l, key), held)
    ensures R.Accounted(V.LeasesOf(L.Close(l, key), key), held)
  {
    hide L.Close;
    V.CloseLeases(l, key);
    var leases, next := V.LeasesOf(l, key), V.LeasesOf(L.Close(l, key), key);
    forall p | p in held ensures R.Backed(next, p) { assert R.Backed(leases, p); }
    forall id | id in next && next[id].bucket == L.Reassembly ensures R.Named(held, id) {
      assert id in leases && leases[id].bucket == L.Reassembly;
    }
  }

  lemma {:induction false} ReachIs(st: R.Storage)
    ensures st.Reach() == R.Bufs(st.text.Keys) + Buffers(st.pool.idle)
  {}

  lemma {:induction false} WithinLimits(r: Receiver)
    requires r.Good() && r.Plain() && (r.body.Some? ==> r.body.value in r.store.text)
    ensures LiveParts(r.State()) <= r.limits.maxFragments + 1 && FragBytes(r.State().frag) <= r.limits.maxMessage
  {
    hide Keeps, HeldBy, Joined, R.Storage.Valid, Parse;
  }

  lemma {:induction false} SoundOf(r: Receiver)
    requires r.Good()
    ensures r.Sound({})
  {
    hide Keeps, HeldBy, Joined, Valid, R.Storage.Valid;
  }

  lemma {:induction false} StateReady(r: Receiver)
    requires r.Good()
    ensures r.Plain() && (r.body.Some? ==> r.body.value in r.store.text)
    ensures r.State().status == r.status && r.State().events == r.events
  {
    hide Keeps, HeldBy, Joined, Valid, R.Storage.Valid;
  }

  lemma {:induction false} OthersLeases(l: L.Ledger, next: L.Ledger, key: Name, other: Name)
    requires next.sessions - {key} == l.sessions - {key} && other != key
    ensures V.LeasesOf(next, other) == V.LeasesOf(l, other)
  {
    assert other in next.sessions <==> other in next.sessions - {key};
    assert other in l.sessions <==> other in l.sessions - {key};
    if other in l.sessions { assert next.sessions[other] == (next.sessions - {key})[other] == l.sessions[other]; }
  }

  lemma {:induction false} SameWithout(
    out: set<array<Byte>>, now: set<array<Byte>>, held: set<R.Part>, next: set<R.Part>, b: array<Byte>)
    requires now - R.Slabs(next) == out - R.Slabs(held) && b !in R.Bufs(held) && b !in R.Bufs(next)
    ensures b in now <==> b in out
  {
    assert b !in R.Slabs(held) && b !in R.Slabs(next);
    assert b in now <==> b in now - R.Slabs(next);
  }

  twostate lemma {:induction false} KnownBefore(r: Receiver)
    requires old(r.Good())
    ensures old(r.store.Valid()) && old(r.Held() == r.store.text.Keys)
    ensures R.Accounted(V.LeasesOf(old(r.store.ledger.State()), r.store.key), old(r.store.text.Keys))
    ensures Disjoint(old(Memory(r)), old(Buffers(r.store.pool.idle)))
    ensures old(r.store.Reach()) <= old(Memory(r)) + old(Buffers(r.store.pool.idle))
    ensures R.Slabs(old(r.store.text.Keys)) <= old(r.store.pool.out)
  {
    hide L.Valid, Pool.Valid, Pool.Clean, R.Accounted, V.LeasesOf, Valid, Keeps, HeldBy;
    forall p | p in old(r.store.text)
      ensures p.buf !in old(Buffers(r.store.pool.idle)) && (p.pooled ==> p.buf in old(r.store.pool.out))
    {
      assert R.Lent(old(r.store.pool.out), old(Buffers(r.store.pool.idle)), p);
    }
  }
}
