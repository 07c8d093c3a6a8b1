/** The bounded pool of receive buffers, over real arrays, and what a new holder can read. */
module SlabPool {
  // runtime/hermit/ram/ledger.js. Its buffers are lent out one holder at a time; what a new holder can read of an
  // earlier one is exactly what was left beyond the extent that the earlier one declared.

  import opened Common
  import opened Sums

  // ------------------------------------------------------------------ size classes

  predicate Sorted(s: seq<nat>) { forall i, j :: 0 <= i < j < |s| ==> s[i] <= s[j] }

  function Insert(c: nat, s: seq<nat>): (r: seq<nat>)
    requires Sorted(s)
    ensures Sorted(r)
    ensures forall d :: d in r <==> d == c || d in s
  {
    if s == [] || c <= s[0] then [c] + s
    else
      var rest := Insert(c, s[1..]);
      assert forall k :: 0 <= k < |rest| ==> rest[k] in rest;
      [s[0]] + rest
  }

  /** The classes in increasing order. */
  function Sort(s: seq<nat>): (r: seq<nat>)
    ensures Sorted(r)
    ensures forall d :: d in r <==> d in s
  {
    if s == [] then [] else Insert(s[0], Sort(s[1..]))
  }

  /** The smallest class that is large enough; 0 when there is none, and for an empty buffer of an empty class. */
  predicate IsClassFor(classes: seq<nat>, min: nat, c: nat) {
    if c == 0 then (forall d :: d in classes ==> d < min) || (min == 0 && 0 in classes)
    else c in classes && c >= min && forall d :: d in classes && d >= min ==> c <= d
  }

  // ------------------------------------------------------------------ shelves

  type Shelf = map<nat, seq<array<Byte>>>

  predicate AllZero(s: seq<Byte>) { forall i :: 0 <= i < |s| ==> s[i] == 0 }

  /** The bytes of `n` buffers of size `c`. */
  function Held(c: nat, n: nat): nat { if n == 0 then 0 else c + Held(c, n - 1) }

  function Sizes(idle: Shelf): map<nat, nat> { map c | c in idle :: Held(c, |idle[c]|) }

  ghost function ShelfBytes(idle: Shelf): nat { Sum(Sizes(idle)) }

  /** Every idle buffer has its shelf's size, and nobody holds it. */
  ghost predicate OnShelf(idle: Shelf, out: set<array<Byte>>, c: nat, i: nat) {
    c in idle && i < |idle[c]| ==> idle[c][i].Length == c && idle[c][i] !in out
  }

  ghost predicate OnePlace(idle: Shelf, c: nat, i: nat, d: nat, j: nat) {
    c in idle && d in idle && i < |idle[c]| && j < |idle[d]| && idle[c][i] == idle[d][j] ==> c == d && i == j
  }

  ghost predicate Shelved(idle: Shelf, out: set<array<Byte>>) {
    && (forall c: nat, i: nat :: OnShelf(idle, out, c, i))
    && (forall c: nat, i: nat, d: nat, j: nat :: OnePlace(idle, c, i, d, j))
  }

  ghost predicate At(idle: Shelf, b: array<Byte>, c: nat, i: nat) { c in idle && i < |idle[c]| && idle[c][i] == b }

  ghost function Buffers(idle: Shelf): set<array<Byte>> {
    set c, i: nat | c in idle && i < |idle[c]| :: idle[c][i]
  }

  lemma {:induction false} BufferAt(idle: Shelf, b: array<Byte>)
    ensures b in Buffers(idle) <==> exists c: nat, i: nat :: At(idle, b, c, i)
  {
    if b in Buffers(idle) {
      var c, i: nat :| c in idle && i < |idle[c]| && idle[c][i] == b;
      assert At(idle, b, c, i);
    }
  }

  lemma {:induction false} ShelfReplaced(idle: Shelf, next: Shelf, c: nat, list: seq<array<Byte>>)
    requires c in idle && next == idle[c := list]
    ensures ShelfBytes(next) + Held(c, |idle[c]|) == ShelfBytes(idle) + Held(c, |list|)
  {
    SumReplace(Sizes(idle), c, Held(c, |list|));
    assert Sizes(idle)[c := Held(c, |list|)] == Sizes(next);
  }

  /** The last buffer of a shelf taken off it is in nobody else's hands and on no shelf any more. */
  lemma {:induction false} Popped(idle: Shelf, out: set<array<Byte>>, c: nat, next: Shelf, b: array<Byte>)
    requires Shelved(idle, out) && c in idle && |idle[c]| > 0
    requires b == idle[c][|idle[c]| - 1] && next == idle[c := idle[c][..|idle[c]| - 1]]
    ensures Shelved(next, out + {b}) && Buffers(next) == Buffers(idle) - {b}
    ensures b !in out && b.Length == c && ShelfBytes(next) + c == ShelfBytes(idle)
  {
    var last := |idle[c]| - 1;
    assert OnShelf(idle, out, c, last);
    forall d: nat, i: nat ensures OnShelf(next, out + {b}, d, i) {
      assert OnShelf(idle, out, d, i) && OnePlace(idle, d, i, c, last);
    }
    forall d: nat, i: nat, e: nat, j: nat ensures OnePlace(next, d, i, e, j) { assert OnePlace(idle, d, i, e, j); }
    forall x ensures x in Buffers(next) <==> x in Buffers(idle) && x != b {
      BufferAt(idle, x);
      BufferAt(next, x);
      if x in Buffers(next) {
        var d: nat, i: nat :| At(next, x, d, i);
        assert At(idle, x, d, i) && OnePlace(idle, d, i, c, last);
      }
      if x in Buffers(idle) && x != b {
        var d: nat, i: nat :| At(idle, x, d, i);
        assert At(next, x, d, i);
      }
    }
    ShelfReplaced(idle, next, c, next[c]);
  }

  lemma {:induction false} Pushed(idle: Shelf, out: set<array<Byte>>, b: array<Byte>, next: Shelf)
    requires Shelved(idle, out) && b in out && b.Length in idle
    requires next == idle[b.Length := idle[b.Length] + [b]]
    ensures Shelved(next, out - {b}) && Buffers(next) == Buffers(idle) + {b}
    ensures ShelfBytes(next) == ShelfBytes(idle) + b.Length
  {
    var c: nat := b.Length;
    forall d: nat, i: nat ensures OnShelf(next, out - {b}, d, i) { assert OnShelf(idle, out, d, i); }
    forall d: nat, i: nat, e: nat, j: nat ensures OnePlace(next, d, i, e, j) {
      assert OnePlace(idle, d, i, e, j) && OnShelf(idle, out, d, i) && OnShelf(idle, out, e, j);
    }
    forall x ensures x in Buffers(next) <==> x in Buffers(idle) || x == b {
      BufferAt(idle, x);
      BufferAt(next, x);
      if x in Buffers(next) && x != b {
        var d: nat, i: nat :| At(next, x, d, i);
        assert At(idle, x, d, i);
      }
      if x in Buffers(idle) {
        var d: nat, i: nat :| At(idle, x, d, i);
        assert At(next, x, d, i);
      }
      assert At(next, b, c, |idle[c]|);
    }
    ShelfReplaced(idle, next, c, next[c]);
  }

  lemma {:induction false} LentFresh(idle: Shelf, out: set<array<Byte>>, b: array<Byte>)
    requires Shelved(idle, out) && b !in Buffers(idle)
    ensures Shelved(idle, out + {b})
  {
    forall d: nat, i: nat ensures OnShelf(idle, out + {b}, d, i) {
      assert OnShelf(idle, out, d, i);
      if d in idle && i < |idle[d]| { assert idle[d][i] in Buffers(idle); }
    }
  }

  lemma {:induction false} HeldElsewhere(idle: Shelf, out: set<array<Byte>>, b: array<Byte>)
    requires Shelved(idle, out) && b in out
    ensures b !in Buffers(idle)
    ensures Shelved(idle, out - {b})
  {
    forall c: nat, i: nat ensures !At(idle, b, c, i) { assert OnShelf(idle, out, c, i); }
    BufferAt(idle, b);
    forall d: nat, i: nat ensures OnShelf(idle, out - {b}, d, i) { assert OnShelf(idle, out, d, i); }
  }

  // ------------------------------------------------------------------ the pool

  class Pool {
    const classes: seq<nat>
    const maxIdleBytes: nat
    var idle: Shelf
    var idleBytes: int
    var out: set<array<Byte>>
    var doubleReturn: nat
    var foreignReturn: nat

    ghost predicate Valid()
      reads this
    {
      && Sorted(classes)
      && idle.Keys == (set c | c in classes)
      && Shelved(idle, out)
      && (forall b :: b in out ==> b.Length in idle)
      && idleBytes == ShelfBytes(idle)
      && 0 <= idleBytes <= maxIdleBytes
    }

    /** Nothing of an earlier holder is left in any idle buffer. */
    ghost predicate Clean()
      reads this, Buffers(idle)
    {
      forall b :: b in Buffers(idle) ==> AllZero(b[..])
    }

    constructor (classes: seq<nat>, maxIdleBytes: nat)
      ensures Valid() && Clean() && Buffers(idle) == {} && out == {} && this.maxIdleBytes == maxIdleBytes
      ensures forall c :: c in this.classes <==> c in classes
    {
      var sorted := Sort(classes);
      this.classes := sorted;
      this.maxIdleBytes := maxIdleBytes;
      idle := map c | c in sorted :: [];
      idleBytes, out, doubleReturn, foreignReturn := 0, {}, 0, 0;
      new;
      SumZero(Sizes(idle));
    }

    method ClassFor(min: nat) returns (c: nat)
      requires Sorted(classes)
      ensures IsClassFor(classes, min, c) && (c > 0 ==> c in classes)
    {
      for k := 0 to |classes|
        invariant forall j :: 0 <= j < k ==> classes[j] < min
      {
        if classes[k] >= min { return classes[k]; }
      }
      c := 0;
    }

    /** The top buffer of a shelf, or a new one when the shelf is empty. */
    method Take(c: nat) returns (buf: array<Byte>)
      requires Valid() && c in idle
      modifies this
      ensures Valid() && buf.Length == c
      ensures buf !in old(out) && out == old(out) + {buf}
      ensures buf !in Buffers(idle) && Buffers(idle) == old(Buffers(idle)) - {buf}
      ensures buf in old(Buffers(idle)) || (fresh(buf) && AllZero(buf[..]))
    {
      var list := idle[c];
      if |list| > 0 {
        buf := list[|list| - 1];
        ghost var was := idle;
        idle := idle[c := list[..|list| - 1]];
        Popped(was, out, c, idle, buf);
        BufferAt(was, buf);
        assert At(was, buf, c, |list| - 1);
        idleBytes := idleBytes - c;
      } else {
        buf := new Byte[c](_ => 0);
        LentFresh(idle, out, buf);
      }
      out := out + {buf};
    }

    /** A buffer nobody holds, of the smallest class that is large enough. */
    method Rent(min: nat) returns (buf: array?<Byte>)
      requires Valid()
      modifies this
      ensures Valid()
      ensures buf == null ==> IsClassFor(classes, min, 0) && idle == old(idle) && out == old(out)
      ensures buf != null ==>
        && buf.Length > 0 && IsClassFor(classes, min, buf.Length)
        && buf !in old(out) && out == old(out) + {buf}
        && buf !in Buffers(idle) && Buffers(idle) == old(Buffers(idle)) - {buf}
        && (buf in old(Buffers(idle)) || fresh(buf))
      ensures old(Clean()) ==> Clean() && (buf != null ==> AllZero(buf[..]))
    {
      var c := ClassFor(min);
      if c == 0 { return null; }
      buf := Take(c);
    }

    /**
     * Taken back once, from the one who holds it. The declared extent is erased, so an idle buffer is clean if and
     * only if it already held nothing beyond that extent.
     */
    method GiveBack(buf: array<Byte>, used: Option<nat>) returns (ok: bool)
      requires Valid()
      modifies this, buf
      ensures Valid()
      ensures ok <==> buf in old(out)
      ensures !ok ==> idle == old(idle) && out == old(out) && idleBytes == old(idleBytes) && buf[..] == old(buf[..])
      ensures !ok ==> doubleReturn + foreignReturn == old(doubleReturn + foreignReturn) + 1
      ensures ok ==>
        var n := Extent(buf.Length, used);
        var kept := old(idleBytes) + buf.Length <= maxIdleBytes;
        && out == old(out) - {buf}
        && buf[n..] == old(buf[n..]) && AllZero(buf[..n])
        && Buffers(idle) == old(Buffers(idle)) + (if kept then {buf} else {})
        && (old(Clean()) ==> (Clean() <==> (kept ==> AllZero(old(buf[n..])))))
    {
      hide AllZero, Shelved, ShelfBytes, Sorted;
      if buf !in out {
        if buf.Length in classes { doubleReturn := doubleReturn + 1; } else { foreignReturn := foreignReturn + 1; }
        return false;
      }
      HeldElsewhere(idle, out, buf);
      ghost var lent, shelf := out, Buffers(idle);
      out := out - {buf};
      Erase(buf, Extent(buf.Length, used));
      forall b | b in shelf ensures b[..] == old(b[..]) { assert b != buf; }
      ok := true;
      if idleBytes + buf.Length <= maxIdleBytes {
        ghost var was := idle;
        idle := idle[buf.Length := idle[buf.Length] + [buf]];
        Pushed(was, lent, buf, idle);
        idleBytes := idleBytes + buf.Length;
      }
    }
  }

  /** `buf.fill(0, 0, n)` */
  method Erase(buf: array<Byte>, n: nat)
    requires n <= buf.Length
    modifies buf
    ensures AllZero(buf[..n]) && buf[n..] == old(buf[n..])
    ensures AllZero(buf[..]) <==> AllZero(old(buf[n..]))
  {
    for i := 0 to n
      invariant AllZero(buf[..i]) && buf[n..] == old(buf[n..])
    {
      buf[i] := 0;
    }
    assert buf[..] == buf[..n] + buf[n..];
    if AllZero(buf[n..]) { assert forall i :: n <= i < buf.Length ==> buf[..][i] == buf[n..][i - n]; }
    if AllZero(buf[..]) { assert forall i :: 0 <= i < buf.Length - n ==> buf[n..][i] == buf[..][n + i]; }
  }

  function Extent(length: nat, used: Option<nat>): (n: nat)
    ensures n <= length
  {
    if used.None? || used.value > length then length else used.value
  }
}
