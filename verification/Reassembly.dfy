/** Storage for what a connection reassembles: rented, charged and returned once. */
module Reassembly {
  // `_rent` and `_releasePart` of runtime/hermit/gateway/ws.js over the ledger and the slab pool. A part is a buffer
  // with the lease that pays for it. Whatever holds parts says which ones in a ghost argument; `Books` ties them to the
  // leases of the account, `Stock` to the buffers the pool has lent and to what lies in them.

  import opened Common
  import L = LedgerModel
  import LedgerSafety
  import LedgerTheorems
  import opened LedgerViews
  import RamLedger
  import opened SlabPool
  import WsModel

  /** A buffer, the bytes of it in use, its lease, and whether it is a slab of the pool. */
  datatype Part = Part(buf: array<Byte>, len: nat, lease: nat, pooled: bool)

  // ------------------------------------------------------------------ what is held

  /** The part's lease: one reference, for exactly its buffer and the bytes in use. */
  ghost predicate Backed(leases: map<nat, L.Lease>, p: Part) {
    && p.lease in leases
    && leases[p.lease].bucket == L.Reassembly && leases[p.lease].refs == 1
    && leases[p.lease].capacity == p.buf.Length && leases[p.lease].used == p.len
    && leases[p.lease].physical == !p.pooled
  }

  ghost predicate Named(held: set<Part>, id: nat) { exists p :: p in held && p.lease == id }

  /** The reassembly leases of the account are exactly those of the parts. */
  ghost predicate Accounted(leases: map<nat, L.Lease>, held: set<Part>) {
    && (forall p :: p in held ==> Backed(leases, p))
    && (forall id :: id in leases && leases[id].bucket == L.Reassembly ==> Named(held, id))
  }

  ghost predicate Apart(p: Part, q: Part) { p == q || (p.buf != q.buf && p.lease != q.lease) }

  /** A slab is lent by the pool, any other buffer is not, and the pool keeps neither. */
  ghost predicate Lent(out: set<array<Byte>>, idle: set<array<Byte>>, p: Part) {
    p.buf !in idle && (p.buf in out <==> p.pooled)
  }

  /** Beyond the bytes in use a slab is as it was rented. */
  ghost predicate Blank(p: Part)
    reads p.buf
  {
    p.len <= p.buf.Length && (p.pooled ==> AllZero(p.buf[p.len..]))
  }

  /** Nothing of what was written to a slab is left in it. */
  ghost predicate Wiped(p: Part)
    reads p.buf
  {
    p.pooled ==> AllZero(p.buf[..])
  }

  ghost function SlabOf(p: Part): set<array<Byte>> { if p.pooled then {p.buf} else {} }

  ghost function Slabs(held: set<Part>): set<array<Byte>> { set p | p in held && p.pooled :: p.buf }

  ghost function Bufs(held: set<Part>): set<array<Byte>> { set p | p in held :: p.buf }

  ghost predicate Separate(out: set<array<Byte>>, idle: set<array<Byte>>, held: set<Part>) {
    && (forall p, q :: p in held && q in held ==> Apart(p, q))
    && (forall p :: p in held ==> Lent(out, idle, p))
  }

  /** The ledger's side: sound, and with exactly these parts. */
  ghost predicate Books(l: L.Ledger, key: Name, held: set<Part>) { L.Valid(l) && Accounted(LeasesOf(l, key), held) }

  /** The pool's side: clean, and with these slabs among those it has lent. */
  ghost predicate Stock(pool: Pool, held: set<Part>)
    reads pool, Buffers(pool.idle), Bufs(held)
  {
    && pool.Valid() && pool.Clean() && Separate(pool.out, Buffers(pool.idle), held)
    && forall p :: p in held ==> Blank(p)
  }

  // ------------------------------------------------------------------ what belongs to others

  /** The slabs lent to others, the accounts of others, and the other leases of this account. */
  datatype Outside = Outside(slabs: set<array<Byte>>, accounts: map<Name, L.Account>, leases: map<nat, L.Lease>)

  function OtherLeases(leases: map<nat, L.Lease>): map<nat, L.Lease> {
    map id | id in leases && leases[id].bucket != L.Reassembly :: leases[id]
  }

  /** The ledger's part of it. */
  function Elses(l: L.Ledger, key: Name): Outside { Outside({}, l.sessions - {key}, OtherLeases(LeasesOf(l, key))) }

  lemma {:induction false} SameOthers(leases: map<nat, L.Lease>, id: nat, l: L.Lease)
    requires l.bucket == L.Reassembly && (id in leases ==> leases[id].bucket == L.Reassembly)
    ensures OtherLeases(leases[id := l]) == OtherLeases(leases) == OtherLeases(leases - {id})
  {}

  lemma {:induction false} ElsesRent(l: L.Ledger, key: Name, capacity: nat, physical: bool)
    requires L.Valid(l) && L.AcquireCheck(l, key, L.Reassembly, capacity) == None
    ensures Elses(L.Activate(L.Acquire(l, key, L.Reassembly, capacity, physical).0, key, l.generation + 1, 0).0, key)
         == Elses(l, key)
  {
    LedgerSafety.AcquireIs(l, key, L.Reassembly, capacity, physical);
    AcquireLeases(l, key, L.Reassembly, capacity, 0, physical);
    SameOthers(LeasesOf(l, key), l.generation + 1, Charged(l.generation + 1, L.Reassembly, capacity, 0, physical));
  }

  lemma {:induction false} ElsesRefused(l: L.Ledger, key: Name, scope: L.Scope)
    ensures Elses(L.Refused(l, scope), key) == Elses(l, key)
  {}

  lemma {:induction false} ElsesUsed(l: L.Ledger, key: Name, id: nat, n: nat)
    requires L.Alive(l, key, id) && l.sessions[key].leases[id].bucket == L.Reassembly
    ensures Elses(L.SetUsed(l, key, id, n).0, key) == Elses(l, key)
  {
    SameOthers(LeasesOf(l, key), id, LeasesOf(l, key)[id].(used := n));
  }

  lemma {:induction false} ElsesRelease(l: L.Ledger, key: Name, id: nat)
    requires L.Alive(l, key, id) && l.sessions[key].leases[id].bucket == L.Reassembly
    requires l.sessions[key].leases[id].refs == 1
    ensures Elses(L.Release(l, key, id).0, key) == Elses(l, key)
  {
    ReleaseLeases(l, key, id);
    SameOthers(LeasesOf(l, key), id, LeasesOf(l, key)[id]);
  }

  lemma {:induction false} SlabsMore(out: set<array<Byte>>, held: set<Part>, p: Part)
    requires p.buf !in out
    ensures out + SlabOf(p) - Slabs(held + {p}) == out - Slabs(held)
  {
    forall b | b in Slabs(held) ensures b in Slabs(held + {p}) {
      var q :| q in held && q.pooled && q.buf == b;
      assert q in held + {p};
    }
    assert p.pooled ==> p in held + {p} && p.buf in Slabs(held + {p});
  }

  lemma {:induction false} SlabsLess(out: set<array<Byte>>, held: set<Part>, p: Part)
    requires p in held && forall q :: q in held ==> Apart(p, q)
    ensures out - SlabOf(p) - Slabs(held - {p}) == out - Slabs(held)
  {
    forall b | b in Slabs(held) ensures b in Slabs(held - {p}) + SlabOf(p) {
      var q :| q in held && q.pooled && q.buf == b;
      assert q != p ==> q in held - {p};
    }
    assert p.pooled ==> p.buf in Slabs(held);
  }

  lemma {:induction false} SlabsSame(held: set<Part>, p: Part, q: Part)
    requires p in held && q.buf == p.buf && q.pooled == p.pooled
    ensures Slabs(held - {p} + {q}) == Slabs(held)
  {
    forall b | b in Slabs(held) ensures b in Slabs(held - {p} + {q}) {
      var r :| r in held && r.pooled && r.buf == b;
      if r == p { assert q in held - {p} + {q}; } else { assert r in held - {p} + {q}; }
    }
    assert p.pooled ==> p.buf in Slabs(held);
  }

  // ------------------------------------------------------------------ what the ledger does to the parts

  function Rented(p: Part): L.Lease { Charged(p.lease, L.Reassembly, p.buf.Length, 0, !p.pooled) }

  lemma {:induction false} AccountedMore(leases: map<nat, L.Lease>, held: set<Part>, p: Part)
    requires Accounted(leases, held) && p.lease !in leases && p.len == 0
    ensures Accounted(leases[p.lease := Rented(p)], held + {p})
  {
    var next := leases[p.lease := Rented(p)];
    forall q | q in held + {p} ensures Backed(next, q) { assert q != p ==> Backed(leases, q); }
    forall id | id in next && next[id].bucket == L.Reassembly ensures Named(held + {p}, id) {
      if id == p.lease {
        assert p in held + {p};
      } else {
        var q :| q in held && q.lease == id;
        assert q in held + {p};
      }
    }
  }

  lemma {:induction false} AccountedLess(leases: map<nat, L.Lease>, held: set<Part>, p: Part)
    requires Accounted(leases, held) && p in held && forall q :: q in held ==> Apart(p, q)
    ensures Accounted(leases - {p.lease}, held - {p})
  {
    forall q | q in held - {p} ensures Backed(leases - {p.lease}, q) { assert Backed(leases, q) && Apart(p, q); }
    forall id | id in leases - {p.lease} && leases[id].bucket == L.Reassembly ensures Named(held - {p}, id) {
      var q :| q in held && q.lease == id;
      assert q in held - {p};
    }
  }

  lemma {:induction false} AccountedUsed(leases: map<nat, L.Lease>, held: set<Part>, p: Part, n: nat)
    requires Accounted(leases, held) && p in held && forall q :: q in held ==> Apart(p, q)
    ensures Backed(leases, p)
    ensures Accounted(leases[p.lease := leases[p.lease].(used := n)], held - {p} + {p.(len := n)})
  {
    var next, now := leases[p.lease := leases[p.lease].(used := n)], held - {p} + {p.(len := n)};
    forall q | q in now ensures Backed(next, q) {
      if q != p.(len := n) { assert Backed(leases, q) && Apart(p, q); }
    }
    forall id | id in next && next[id].bucket == L.Reassembly ensures Named(now, id) {
      var q :| q in held && q.lease == id;
      if q == p { assert p.(len := n) in now; } else { assert q in now; }
    }
  }

  // ------------------------------------------------------------------ the ledger's side of each operation

  lemma {:induction false} BooksRent(l: L.Ledger, key: Name, held: set<Part>, p: Part)
    requires Books(l, key, held) && L.AcquireCheck(l, key, L.Reassembly, p.buf.Length) == None
    requires p.lease == l.generation + 1 && p.len == 0
    ensures var got := L.Acquire(l, key, L.Reassembly, p.buf.Length, !p.pooled);
      && got.1 == Ok(p.lease) && L.Activate(got.0, key, p.lease, 0).1 == None
      && Books(L.Activate(got.0, key, p.lease, 0).0, key, held + {p})
      && TabOf(L.Activate(got.0, key, p.lease, 0).0) == Tab(l.rejects, p.lease)
  {
    hide L.Valid;
    var got := L.Acquire(l, key, L.Reassembly, p.buf.Length, !p.pooled);
    LedgerSafety.AcquireKeeps(l, key, L.Reassembly, p.buf.Length, !p.pooled);
    LedgerSafety.ActivateKeeps(got.0, key, p.lease, 0);
    AcquireLeases(l, key, L.Reassembly, p.buf.Length, 0, !p.pooled);
    AccountedMore(LeasesOf(l, key), held, p);
  }

  lemma {:induction false} BooksRefused(l: L.Ledger, key: Name, held: set<Part>, capacity: nat, physical: bool)
    requires Books(l, key, held) && L.AcquireCheck(l, key, L.Reassembly, capacity).Some?
    ensures var got := L.Acquire(l, key, L.Reassembly, capacity, physical);
      var scope := L.AcquireCheck(l, key, L.Reassembly, capacity).value;
      got == (L.Refused(l, scope), Err(scope)) && Books(got.0, key, held)
  {
    LedgerSafety.AcquireIs(l, key, L.Reassembly, capacity, physical);
    LedgerSafety.AcquireKeeps(l, key, L.Reassembly, capacity, physical);
  }

  lemma {:induction false} BooksUsed(l: L.Ledger, key: Name, held: set<Part>, p: Part, n: nat)
    requires Books(l, key, held) && p in held && n <= p.buf.Length && forall q :: q in held ==> Apart(p, q)
    ensures var (after, stale) := L.SetUsed(l, key, p.lease, n);
      stale == None && Books(after, key, held - {p} + {p.(len := n)}) && TabOf(after) == TabOf(l)
  {
    hide L.Valid;
    AccountedUsed(LeasesOf(l, key), held, p, n);
    LedgerSafety.SetUsedKeeps(l, key, p.lease, n);
  }

  lemma {:induction false} BooksRelease(l: L.Ledger, key: Name, held: set<Part>, p: Part)
    requires Books(l, key, held) && p in held && forall q :: q in held ==> Apart(p, q)
    ensures var (after, last) := L.Release(l, key, p.lease);
      last && Books(after, key, held - {p}) && TabOf(after) == TabOf(l)
  {
    hide L.Valid;
    assert Backed(LeasesOf(l, key), p);
    ReleaseLeases(l, key, p.lease);
    LedgerSafety.ReleaseKeeps(l, key, p.lease);
    AccountedLess(LeasesOf(l, key), held, p);
  }

  /** What is done on other accounts, or in other buckets of this one, is no business of the parts. */
  lemma {:induction false} BooksElsewhere(l: L.Ledger, key: Name, held: set<Part>, op: LedgerTheorems.Op)
    requires Books(l, key, held) && Elsewhere(l, key, L.Reassembly, op)
    ensures Books(LedgerTheorems.Do(l, op), key, held)
  {
    LedgerTheorems.DoKeeps(l, op);
    ElsewhereKeeps(l, key, L.Reassembly, op);
    SameKind(LeasesOf(l, key), LeasesOf(LedgerTheorems.Do(l, op), key), held);
  }

  lemma {:induction false} SameKind(leases: map<nat, L.Lease>, next: map<nat, L.Lease>, held: set<Part>)
    requires Accounted(leases, held) && OfKind(next, L.Reassembly) == OfKind(leases, L.Reassembly)
    ensures Accounted(next, held)
  {
    forall p | p in held ensures Backed(next, p) {
      assert Backed(leases, p);
      assert p.lease in OfKind(next, L.Reassembly);
    }
    forall id | id in next && next[id].bucket == L.Reassembly ensures Named(held, id) {
      assert id in OfKind(leases, L.Reassembly);
    }
  }

  lemma {:induction false} NewLease(l: L.Ledger, key: Name, held: set<Part>)
    requires Books(l, key, held)
    ensures forall p :: p in held ==> p.lease != l.generation + 1
  {
    forall p | p in held ensures p.lease != l.generation + 1 {
      assert Backed(LeasesOf(l, key), p) && L.SessionOk(l, key);
      assert L.LeaseOk(l.generation, l.sessions[key], p.lease);
    }
  }

  // ------------------------------------------------------------------ the pool's side

  /** The bytes a buffer for `n` has: those of its class, or just `n`. */
  predicate CapacityFor(classes: seq<nat>, n: nat, capacity: nat, pooled: bool) {
    if pooled then capacity > 0 && IsClassFor(classes, n, capacity) else capacity == n && IsClassFor(classes, n, 0)
  }

  lemma {:induction false} OneCapacity(classes: seq<nat>, n: nat, c: nat, p: bool, d: nat, q: bool)
    requires CapacityFor(classes, n, c, p) && CapacityFor(classes, n, d, q)
    ensures c == d && p == q && n <= c
  {}

  lemma {:induction false} SeparateMore(
    out: set<array<Byte>>, idle: set<array<Byte>>, held: set<Part>, p: Part, out': set<array<Byte>>,
    idle': set<array<Byte>>)
    requires Separate(out, idle, held) && p.buf !in Bufs(held) && forall q :: q in held ==> q.lease != p.lease
    requires out' == out + (if p.pooled then {p.buf} else {}) && p.buf !in out && idle' <= idle && p.buf !in idle'
    ensures Separate(out', idle', held + {p})
  {
    forall q, r | q in held + {p} && r in held + {p} ensures Apart(q, r) {
      assert q in held && r in held ==> Apart(q, r);
      assert q in held ==> q.buf in Bufs(held);
      assert r in held ==> r.buf in Bufs(held);
    }
    forall q | q in held + {p} ensures Lent(out', idle', q) {
      if q != p { assert Lent(out, idle, q) && q.buf in Bufs(held); }
    }
  }

  /** The slab, or a buffer of just the size when no class is large enough. */
  method Obtain(pool: Pool, n: nat, id: nat, ghost held: set<Part>) returns (p: Part)
    requires Stock(pool, held) && forall q :: q in held ==> q.lease != id
    modifies pool
    ensures p.len == 0 && p.lease == id && CapacityFor(pool.classes, n, p.buf.Length, p.pooled)
    ensures Stock(pool, held + {p}) && p.buf !in Bufs(held) && (p.buf in old(Buffers(pool.idle)) || fresh(p.buf))
    ensures p.buf !in old(pool.out) && pool.out == old(pool.out) + SlabOf(p)
    ensures Buffers(pool.idle) <= old(Buffers(pool.idle))
  {
    ghost var out, idle := pool.out, Buffers(pool.idle);
    var slab := pool.Rent(n);
    if slab == null {
      var buf := new Byte[n];
      p := Part(buf, 0, id, false);
    } else {
      p := Part(slab, 0, id, true);
      assert slab[0..] == slab[..];
      assert forall q :: q in held ==> Lent(out, idle, q);
    }
    SeparateMore(out, idle, held, p, pool.out, Buffers(pool.idle));
  }

  method Copy(buf: array<Byte>, at: nat, data: seq<Byte>)
    requires at + |data| <= buf.Length
    modifies buf
    ensures buf[..at] == old(buf[..at]) && buf[at..at + |data|] == data && buf[at + |data|..] == old(buf[at + |data|..])
  {
    for i := 0 to |data|
      invariant buf[..at] == old(buf[..at]) && buf[at..at + i] == data[..i] && buf[at + i..] == old(buf[at + i..])
    {
      ghost var rest := buf[at + i..];
      buf[at + i] := data[i];
      assert buf[at..at + i + 1] == buf[at..at + i] + [buf[at + i]];
      assert buf[at + i + 1..] == rest[1..] && data[..i + 1] == data[..i] + [data[i]];
      assert old(buf[at + i + 1..]) == old(buf[at + i..])[1..];
    }
    assert data[..|data|] == data;
  }

  lemma {:induction false} BlankTail(s: seq<Byte>, n: nat, k: nat)
    requires n <= k <= |s|
    ensures AllZero(s[n..]) ==> AllZero(s[k..])
  {
    if AllZero(s[n..]) {
      forall i | 0 <= i < |s| - k ensures s[k..][i] == 0 { assert s[k..][i] == s[n..][i + k - n]; }
    }
  }

  lemma {:induction false} SeparateUsed(out: set<array<Byte>>, idle: set<array<Byte>>, held: set<Part>, p: Part, n: nat)
    requires Separate(out, idle, held) && p in held
    ensures Separate(out, idle, held - {p} + {p.(len := n)})
  {
    var now := held - {p} + {p.(len := n)};
    forall q, r | q in now && r in now ensures Apart(q, r) {
      assert q in held && r in held ==> Apart(q, r);
      assert q in held ==> Apart(p, q);
      assert r in held ==> Apart(p, r);
    }
    forall q | q in now ensures Lent(out, idle, q) { assert Lent(out, idle, p) && (q in held ==> Lent(out, idle, q)); }
  }

  lemma {:induction false} SeparateLess(out: set<array<Byte>>, idle: set<array<Byte>>, held: set<Part>, p: Part)
    requires Separate(out, idle, held) && p in held
    ensures Separate(out - {p.buf}, idle, held - {p}) && Separate(out - {p.buf}, idle + {p.buf}, held - {p})
    ensures !p.pooled ==> Separate(out, idle, held - {p})
  {
    forall q | q in held - {p} ensures Lent(out - {p.buf}, idle + {p.buf}, q) {
      assert Lent(out, idle, q) && Apart(p, q);
    }
    forall q | q in held - {p} ensures Lent(out - {p.buf}, idle, q) { assert Lent(out, idle, q) && Apart(p, q); }
    forall q, r | q in held - {p} && r in held - {p} ensures Apart(q, r) { assert q in held && r in held; }
  }

  /** `data` behind the bytes in use of one part: nobody else's buffer changes. */
  method Fill(pool: Pool, p: Part, data: seq<Byte>, ghost held: set<Part>)
    requires Stock(pool, held) && p in held && p.len + |data| <= p.buf.Length
    modifies p.buf
    ensures var n := p.len + |data|;
      Stock(pool, held - {p} + {p.(len := n)}) && p.buf[..n] == old(p.buf[..p.len]) + data
  {
    ghost var n := p.len + |data|;
    ghost var q, was := p.(len := n), p.buf[..];
    assert Blank(p) && Lent(pool.out, Buffers(pool.idle), p);
    Copy(p.buf, p.len, data);
    assert p.buf[..n] == p.buf[..p.len] + p.buf[p.len..n] && p.buf[n..] == was[n..];
    BlankTail(was, p.len, n);
    SeparateUsed(pool.out, Buffers(pool.idle), held, p, n);
    forall r | r in held - {p} + {q} ensures Blank(r) { if r != q { assert Blank(r) && Apart(p, r); } }
  }

  lemma {:induction false} WholeZero(s: seq<Byte>, n: nat)
    requires n <= |s| && AllZero(s[..n]) && AllZero(s[n..])
    ensures AllZero(s)
  {
    forall i | 0 <= i < |s| ensures s[i] == 0 { assert i < n ==> s[..n][i] == 0; assert i >= n ==> s[n..][i - n] == 0; }
  }

  /** A slab goes back, erased over the bytes in use, which is all that was ever written to it. */
  method HandBack(pool: Pool, p: Part, ghost held: set<Part>)
    requires Stock(pool, held) && p in held
    modifies pool, p.buf
    ensures Stock(pool, held - {p}) && Wiped(p) && pool.out == old(pool.out) - SlabOf(p)
    ensures Buffers(pool.idle) == old(Buffers(pool.idle))
      + if old(pool.idleBytes) + p.buf.Length <= pool.maxIdleBytes then SlabOf(p) else {}
  {
    ghost var out, idle, was := pool.out, Buffers(pool.idle), p.buf[..];
    assert Blank(p) && Lent(out, idle, p);
    SeparateLess(out, idle, held, p);
    if p.pooled {
      var ok := pool.GiveBack(p.buf, Some(p.len));
      assert p.buf[p.len..] == was[p.len..];
      WholeZero(p.buf[..], p.len);
    }
    forall r | r in held - {p} ensures Blank(r) { assert Blank(r) && Apart(p, r); }
  }

  // ------------------------------------------------------------------ renting, filling and returning

  /** Sizes are safe integers. */
  predicate Sized(classes: seq<nat>) { forall c :: c in classes ==> c <= L.MAX_SAFE }

  function Count(r: L.Rejects): nat { r.overall + r.tenant + r.session + r.bucket + r.closed }

  /** What a ledger records of refusals, and the last generation it gave. */
  datatype Tab = Tab(rejects: L.Rejects, generation: nat)

  function TabOf(l: L.Ledger): Tab { Tab(l.rejects, l.generation) }

  /** One refusal was counted, or the ledger's generations are used up. */
  predicate Denied(before: Tab, now: Tab) {
    && before.generation <= now.generation && Count(before.rejects) <= Count(now.rejects)
    && (Count(now.rejects) == Count(before.rejects) + 1 || now.generation + 1 >= L.MAX_SAFE)
  }

  /** Nothing was refused, and generations only grow. */
  predicate Given(before: Tab, now: Tab) { now.rejects == before.rejects && before.generation <= now.generation }

  lemma {:induction false} DeniedIs(l: L.Ledger, key: Name, capacity: nat)
    requires L.AcquireCheck(l, key, L.Reassembly, capacity).Some? && capacity <= L.MAX_SAFE
    ensures Denied(TabOf(l), TabOf(L.Refused(l, L.AcquireCheck(l, key, L.Reassembly, capacity).value)))
  {}

  /** The close code for a refusal while a frame begins to be assembled. */
  function Code(scope: L.Scope): nat { if scope == L.NoGeneration || scope == L.BadExtent then 1011 else 1013 }

  lemma {:induction false} StockSorted(pool: Pool, held: set<Part>)
    requires Stock(pool, held)
    ensures Sorted(pool.classes)
  {}

  lemma {:induction false} ClassCapacity(classes: seq<nat>, n: nat, cls: nat)
    requires IsClassFor(classes, n, cls)
    ensures CapacityFor(classes, n, if cls != 0 then cls else n, cls != 0) && (cls != 0 ==> n <= cls && cls in classes)
  {}

  lemma {:induction false} SoundBooks(l: L.Ledger, key: Name, held: set<Part>)
    requires Books(l, key, held)
    ensures L.Valid(l)
    ensures forall p :: p in held ==> L.Alive(l, key, p.lease) && l.sessions[key].leases[p.lease].refs == 1
                                      && l.sessions[key].leases[p.lease].bucket == L.Reassembly
  {
    forall p | p in held ensures Backed(LeasesOf(l, key), p) {}
  }

  lemma {:induction false} AcquiredNext(l: L.Ledger, key: Name, capacity: nat, physical: bool)
    requires L.AcquireCheck(l, key, L.Reassembly, capacity) == None
    ensures L.Acquire(l, key, L.Reassembly, capacity, physical).1 == Ok(l.generation + 1)
  {}

  ghost function Members(parts: seq<Part>): set<Part> { set p | p in parts }

  /** No part twice. */
  predicate Different(parts: seq<Part>) { forall i, j :: 0 <= i < j < |parts| ==> parts[i] != parts[j] }

  /** The capacity is reserved before the buffer is obtained. */
  method Reserve(ledger: RamLedger.Controller, key: Name, pool: Pool, n: nat, ghost held: set<Part>)
    returns (r: Result<Part, L.Scope>)
    requires Books(ledger.State(), key, held) && Stock(pool, held) && n <= L.MAX_SAFE && Sized(pool.classes)
    modifies ledger, pool
    ensures Books(ledger.State(), key, if r.Ok? then held + {r.value} else held)
    ensures Stock(pool, if r.Ok? then held + {r.value} else held)
    ensures r.Err? ==>
      Denied(old(TabOf(ledger.State())), TabOf(ledger.State())) && pool.out == old(pool.out)
          && pool.idle == old(pool.idle)
    ensures r.Ok? ==>
      && r.value.len == 0 && n <= r.value.buf.Length && r.value.buf !in Bufs(held)
      && Given(old(TabOf(ledger.State())), TabOf(ledger.State()))
      && (r.value.buf in old(Buffers(pool.idle)) || fresh(r.value.buf))
      && r.value.buf !in old(pool.out) && pool.out == old(pool.out) + SlabOf(r.value)
      && Buffers(pool.idle) <= old(Buffers(pool.idle))
    ensures Elses(ledger.State(), key) == old(Elses(ledger.State(), key))
  {
    hide Books, Pool.Valid, Pool.Clean, Separate, L.Acquire, L.Activate, L.AcquireCheck, L.Refused, IsClassFor,
        CapacityFor, Denied, Elses;
    ghost var l := ledger.State();
    StockSorted(pool, held);
    var cls := pool.ClassFor(n);
    var size: nat := if cls != 0 then cls else n;
    ClassCapacity(pool.classes, n, cls);
    var got := ledger.Acquire(key, L.Reassembly, size, cls == 0);
    if L.AcquireCheck(l, key, L.Reassembly, size).Some? {
      BooksRefused(l, key, held, size, cls == 0);
      DeniedIs(l, key, size);
      ElsesRefused(l, key, L.AcquireCheck(l, key, L.Reassembly, size).value);
    } else {
      SoundBooks(l, key, held);
      ElsesRent(l, key, size, cls == 0);
      AcquiredNext(l, key, size, cls == 0);
    }
    if got.Err? { return Err(got.error); }
    NewLease(l, key, held);
    var p := Obtain(pool, n, got.value, held);
    OneCapacity(pool.classes, n, size, cls != 0, p.buf.Length, p.pooled);
    BooksRent(l, key, held, p);
    var stale := ledger.Activate(key, got.value, 0);
    r := Ok(p);
  }

  /** `unmask` */
  method UnmaskInPlace(a: array<Byte>, lo: nat, n: nat, mask: WsModel.Mask)
    requires lo + n <= a.Length
    modifies a
    ensures a[..lo] == old(a[..lo]) && a[lo + n..] == old(a[lo + n..])
    ensures a[lo..lo + n] == WsModel.Unmask(old(a[lo..lo + n]), mask)
  {
    for i := 0 to n
      invariant a[..lo] == old(a[..lo]) && a[lo + i..] == old(a[lo + i..])
      invariant forall k :: 0 <= k < i ==> a[lo + k] == WsModel.Xor(old(a[lo + k]), mask[k % 4])
    {
      assert a[lo + i] == a[lo + i..][0] == old(a[lo + i..])[0];
      ghost var rest := a[lo + i..];
      a[lo + i] := WsModel.Xor(a[lo + i], mask[i % 4]);
      assert a[lo + i + 1..] == rest[1..];
    }
    ghost var got, want := a[lo..lo + n], WsModel.Unmask(old(a[lo..lo + n]), mask);
    forall k | 0 <= k < n ensures got[k] == want[k] {
      assert got[k] == a[lo + k];
      assert old(a[lo..lo + n])[k] == old(a[lo + k]);
    }
  }

  /** The account and the pool of one connection, and the parts it has from them. */
  class Storage {
    const ledger: RamLedger.Controller
    const key: Name
    const pool: Pool
    /** The parts that are held, and the bytes in each. */
    ghost var text: map<Part, seq<Byte>>

    ghost predicate Holds(p: Part)
      reads this, p.buf
    {
      p in text ==> p.len <= p.buf.Length && p.buf[..p.len] == text[p]
    }

    /**
     * The account's reassembly leases are exactly those of the parts, their slabs are lent, and no idle slab is
     * dirty.
     */
    ghost predicate Valid()
      reads this, ledger, pool, Buffers(pool.idle), Bufs(text.Keys)
    {
      && Books(ledger.State(), key, text.Keys) && Stock(pool, text.Keys) && Sized(pool.classes)
      && forall p :: p in text ==> Holds(p)
    }

    ghost function Spent(): Tab
      reads ledger
    {
      TabOf(ledger.State())
    }

    /** Every buffer that can be written to on the way: those of the parts, and those that nobody holds. */
    ghost function Reach(): set<array<Byte>>
      reads this, pool
    {
      Bufs(text.Keys) + Buffers(pool.idle)
    }

    /** What no operation here touches: slabs lent to others, other accounts, other leases of this account. */
    ghost function Outer(): Outside
      reads this, ledger, pool
    {
      Elses(ledger.State(), key).(slabs := pool.out - Slabs(text.Keys))
    }

    lemma {:induction false} Reached(p: Part)
      requires p in text
      ensures p.buf in Reach()
    {}

    constructor (ledger: RamLedger.Controller, key: Name, pool: Pool)
      requires Books(ledger.State(), key, {}) && Stock(pool, {}) && Sized(pool.classes)
      ensures this.ledger == ledger && this.key == key && this.pool == pool && text == map[] && Valid()
    {
      this.ledger, this.key, this.pool, text := ledger, key, pool, map[];
      new;
      assert text.Keys == {};
    }

    /**
     * `_rent`: the capacity is reserved before the buffer is obtained. A refusal leaves one count in the ledger and
     * nothing else.
     */
    method Rent(n: nat) returns (r: Result<Part, L.Scope>)
      requires Valid() && n <= L.MAX_SAFE
      modifies `text, ledger, pool
      ensures Valid()
      ensures r.Err? ==> text == old(text) && pool.out == old(pool.out) && pool.idle == old(pool.idle)
      ensures r.Err? ==> Denied(old(Spent()), Spent())
      ensures r.Ok? ==>
        && r.value !in old(text) && text == old(text)[r.value := []]
        && r.value.len == 0 && n <= r.value.buf.Length && Given(old(Spent()), Spent())
        && pool.out == old(pool.out) + SlabOf(r.value) && r.value.buf !in old(pool.out)
      ensures Outer() == old(Outer())
      ensures forall b :: b in Reach() ==> b in old(Reach()) || fresh(b)
    {
      hide Books, Pool.Valid, Pool.Clean, Separate, Denied, Elses;
      ghost var held := text.Keys;
      r := Reserve(ledger, key, pool, n, held);
      if r.Ok? {
        NewPart(held, r.value);
        text := text[r.value := []];
        assert text.Keys == held + {r.value};
        SlabsMore(old(pool.out), held, r.value);
      }
    }

    /** `data` behind the bytes in use, which the lease then records. */
    method Append(p: Part, data: seq<Byte>) returns (q: Part)
      requires Valid() && p in text && p.len + |data| <= p.buf.Length
      modifies `text, ledger, p.buf
      ensures Valid() && q == p.(len := p.len + |data|)
      ensures text == (old(text) - {p})[q := old(text)[p] + data] && (q == p || q !in old(text))
      ensures Spent() == old(Spent()) && Outer() == old(Outer()) && Reach() == old(Reach())
    {
      hide Books, L.SetUsed, Pool.Valid, Pool.Clean, Separate, Blank, Sized, Elses, Slabs;
      q := p.(len := p.len + |data|);
      ghost var held := text.Keys;
      AllApart(pool, held, p);
      SoundBooks(ledger.State(), key, held);
      ElsesUsed(ledger.State(), key, p.lease, q.len);
      SlabsSame(held, p, q);
      BooksUsed(ledger.State(), key, held, p, q.len);
      Fill(pool, p, data, held);
      ghost var now := held - {p} + {q};
      var stale := ledger.SetUsed(key, p.lease, q.len);
      assert Stock(pool, now) && Books(ledger.State(), key, now);
      text := (text - {p})[q := text[p] + data];
      assert text.Keys == now;
      SameBufs(held, p, q);
      assert Stock(pool, now) && Books(ledger.State(), key, now);
      forall r | r in now ensures Holds(r) { assert r != q ==> old(Holds(r)) && Apart(p, r); }
    }

    /** Copies parts, one behind the other, behind what is in use of another one. */
    method Collect(p: Part, parts: seq<Part>) returns (q: Part)
      requires Valid() && p in text && p !in parts && AllIn(text, parts)
      requires p.len + |Contents(text, parts)| <= p.buf.Length
      modifies `text, ledger, p.buf
      ensures Valid() && q == p.(len := p.len + |Contents(old(text), parts)|)
      ensures text == (old(text) - {p})[q := old(text)[p] + Contents(old(text), parts)] && (q == p || q !in old(text))
      ensures Spent() == old(Spent()) && Outer() == old(Outer()) && Reach() == old(Reach())
    {
      hide Books, Stock, Sized, Contents, Elses, Slabs;
      ghost var was := text;
      q := p;
      NoContents(was, parts, p);
      for i := 0 to |parts|
        invariant Valid() && q == p.(len := p.len + |Contents(was, parts[..i])|)
        invariant text == (was - {p})[q := was[p] + Contents(was, parts[..i])] && (q == p || q !in was)
        invariant Spent() == old(Spent()) && Outer() == old(Outer()) && Reach() == old(Reach())
      {
        MoreContents(was, parts, i);
        var data := Read(parts[i]);
        ghost var before := text;
        q := Append(q, data);
        Grown(was, before, p, q, parts, i, data);
      }
      assert parts[..|parts|] == parts;
    }

    /**
     * `_releasePart`: a slab goes back to the pool with nothing left in it, and on its shelf when there is room; the
     * lease goes with its one reference.
     */
    method Release(p: Part)
      requires Valid() && p in text
      modifies `text, ledger, pool, p.buf
      ensures Valid() && text == old(text) - {p}
      ensures Wiped(p) && pool.out == old(pool.out) - SlabOf(p)
      ensures Buffers(pool.idle) == old(Buffers(pool.idle))
        + if old(pool.idleBytes) + p.buf.Length <= pool.maxIdleBytes then SlabOf(p) else {}
      ensures Spent() == old(Spent()) && Outer() == old(Outer()) && Reach() <= old(Reach())
    {
      hide Books, L.Release, Pool.Valid, Pool.Clean, Separate, Blank, Sized, Elses, Slabs, AllZero;
      ghost var held := text.Keys;
      AllApart(pool, held, p);
      SoundBooks(ledger.State(), key, held);
      ElsesRelease(ledger.State(), key, p.lease);
      SlabsLess(pool.out, held, p);
      BooksRelease(ledger.State(), key, held, p);
      ghost var now := held - {p};
      HandBack(pool, p, held);
      var last := ledger.Release(key, p.lease);
      assert Stock(pool, now) && Books(ledger.State(), key, now);
      text := text - {p};
      assert text.Keys == now;
      assert Stock(pool, now) && Books(ledger.State(), key, now);
      forall r | r in now ensures Holds(r) { assert old(Holds(r)) && Apart(p, r); }
    }

    /** All of a list go back, each of them wiped. */
    method ReleaseAll(parts: seq<Part>)
      requires Valid() && (forall p :: p in parts ==> p in text) && Different(parts)
      modifies `text, ledger, pool, Bufs(Members(parts))
      ensures Valid() && text == old(text) - Members(parts) && (forall p :: p in parts ==> Wiped(p))
      ensures Spent() == old(Spent()) && Outer() == old(Outer()) && Reach() <= old(Reach())
    {
      hide Books, Stock, Sized, Different, Elses, Slabs, SlabOf, AllZero;
      assert text - (Members(parts[..0])) == text;
      PartsApart(pool, text.Keys, parts);
      for i := 0 to |parts|
        invariant Valid() && text == old(text) - Members(parts[..i])
        invariant forall k :: 0 <= k < i ==> Wiped(parts[k])
        invariant Spent() == old(Spent()) && Outer() == old(Outer()) && Reach() <= old(Reach())
      {
        LaterPart(parts, i);
        assert parts[i].buf in Bufs(Members(parts));
        Release(parts[i]);
        OneMore(parts, i);
      }
      assert parts[..|parts|] == parts;
    }

    /** The bytes in use are unmasked where they lie. */
    method Unmask(p: Part, mask: WsModel.Mask)
      requires Valid() && p in text
      modifies `text, p.buf
      ensures Valid() && text == old(text)[p := WsModel.Unmask(old(text)[p], mask)]
      ensures Outer() == old(Outer()) && Reach() == old(Reach())
    {
      hide Books, Pool.Valid, Pool.Clean, Separate, Sized;
      ghost var held, was := text.Keys, p.buf[..];
      AllApart(pool, held, p);
      assert Holds(p) && Blank(p) && Lent(pool.out, Buffers(pool.idle), p) by { LentOne(pool, held, p); }
      UnmaskInPlace(p.buf, 0, p.len, mask);
      assert p.buf[p.len..] == was[p.len..] && p.buf[0..p.len] == p.buf[..p.len];
      forall q | q in held ensures Blank(q) { assert Blank(q) && Apart(p, q); }
      text := text[p := WsModel.Unmask(text[p], mask)];
      assert text.Keys == held;
    }

    method Read(p: Part) returns (bytes: seq<Byte>)
      requires Valid() && p in text
      ensures bytes == text[p] && |bytes| == p.len
    {
      assert Holds(p);
      bytes := p.buf[..p.len];
    }
  }

  predicate AllIn(text: map<Part, seq<Byte>>, parts: seq<Part>) { forall p :: p in parts ==> p in text }

  /** What is in the parts, one behind the other. */
  ghost function Contents(text: map<Part, seq<Byte>>, parts: seq<Part>): seq<Byte>
    requires AllIn(text, parts)
  {
    if parts == [] then [] else Contents(text, parts[..|parts| - 1]) + text[parts[|parts| - 1]]
  }

  lemma {:induction false} NoContents(text: map<Part, seq<Byte>>, parts: seq<Part>, p: Part)
    requires p in text && AllIn(text, parts)
    ensures Contents(text, parts[..0]) == [] && (text - {p})[p := text[p] + []] == text
  {
    assert text[p] + [] == text[p];
  }

  lemma {:induction false} MoreContents(text: map<Part, seq<Byte>>, parts: seq<Part>, i: nat)
    requires AllIn(text, parts) && i < |parts|
    ensures AllIn(text, parts[..i + 1]) && AllIn(text, parts[..i]) && parts[i] in text
    ensures Contents(text, parts[..i + 1]) == Contents(text, parts[..i]) + text[parts[i]]
    ensures |Contents(text, parts[..i + 1])| <= |Contents(text, parts)|
    decreases |parts|
  {
    assert parts[..i + 1][..i] == parts[..i];
    if i + 1 < |parts| {
      var init := parts[..|parts| - 1];
      MoreContents(text, init, i);
      assert init[..i + 1] == parts[..i + 1];
    } else {
      assert parts[..i + 1] == parts;
    }
  }

  lemma {:induction false} Grown(
    was: map<Part, seq<Byte>>, before: map<Part, seq<Byte>>, p: Part, q: Part, parts: seq<Part>, i: nat,
    data: seq<Byte>)
    requires p in was && p !in parts && AllIn(was, parts) && i < |parts| && data == was[parts[i]]
    requires var done := Contents(was, parts[..i]);
      before == (was - {p})[p.(len := p.len + |done|) := was[p] + done]
      && q == p.(len := p.len + |done| + |data|)
      && (p.(len := p.len + |done|) == p || p.(len := p.len + |done|) !in was)
      && (q == p.(len := p.len + |done|) || q !in before)
    ensures var more := Contents(was, parts[..i + 1]); var mid := p.(len := p.len + |Contents(was, parts[..i])|);
      && (before - {mid})[q := before[mid] + data] == (was - {p})[q := was[p] + more]
      && q == p.(len := p.len + |more|) && (q == p || q !in was)
  {
    MoreContents(was, parts, i);
    var done := Contents(was, parts[..i]);
    assert was[p] + done + data == was[p] + (done + data);
  }

  lemma {:induction false} LentOne(pool: Pool, held: set<Part>, p: Part)
    requires Stock(pool, held) && p in held
    ensures Blank(p) && Lent(pool.out, Buffers(pool.idle), p)
  {}

  lemma {:induction false} PartsApart(pool: Pool, held: set<Part>, parts: seq<Part>)
    requires Stock(pool, held) && (forall p :: p in parts ==> p in held) && Different(parts)
    ensures forall i, k :: 0 <= i < k < |parts| ==> parts[i].buf != parts[k].buf
  {
    forall i, k | 0 <= i < k < |parts| ensures parts[i].buf != parts[k].buf {
      assert parts[i] in parts && parts[k] in parts && Apart(parts[i], parts[k]);
    }
  }

  lemma {:induction false} LaterPart(parts: seq<Part>, i: nat)
    requires Different(parts) && i < |parts|
    ensures parts[i] !in parts[..i]
  {}

  lemma {:induction false} OneMore(parts: seq<Part>, i: nat)
    requires i < |parts|
    ensures Members(parts[..i + 1]) == Members(parts[..i]) + {parts[i]}
  {
    assert parts[..i + 1] == parts[..i] + [parts[i]];
  }

  /** A new part, empty and then filled, is a new part with its bytes. */
  lemma {:induction false} Refilled(text: map<Part, seq<Byte>>, p: Part, q: Part, data: seq<Byte>)
    requires p !in text && (q == p || q !in text[p := []])
    ensures (text[p := []] - {p})[q := [] + data] == text[q := data] && q !in text
    ensures text[q := data].Keys == text.Keys + {q}
  {
    assert [] + data == data;
  }

  lemma {:induction false} OneHeldMore(held: set<Part>, also: set<Part>, keys: set<Part>, q: Part)
    requires also !! held && keys == held + also && q !in keys
    ensures also + {q} !! held && keys + {q} == held + (also + {q})
  {}

  lemma {:induction false} HeldLess(held: set<Part>, rest: set<Part>, gone: set<Part>, also: set<Part>, keys: set<Part>)
    requires held == gone + rest && gone !! rest && also !! held && keys == held + also
    ensures also !! rest && keys - gone == rest + also
  {}

  lemma {:induction false} NewPart(held: set<Part>, p: Part)
    requires p.buf !in Bufs(held)
    ensures p !in held
  {}

  lemma {:induction false} AllApart(pool: Pool, held: set<Part>, p: Part)
    requires Stock(pool, held) && p in held
    ensures forall q :: q in held ==> Apart(p, q)
  {}

  lemma {:induction false} SameBufs(held: set<Part>, p: Part, q: Part)
    requires p in held && q.buf == p.buf
    ensures Bufs(held - {p} + {q}) == Bufs(held)
  {
    forall b | b in Bufs(held) ensures b in Bufs(held - {p} + {q}) {
      var r :| r in held && r.buf == b;
      if r == p { assert q in held - {p} + {q}; } else { assert r in held - {p} + {q}; }
    }
  }
}
