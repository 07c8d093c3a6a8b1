/** The receive path of a WebSocket connection, over the ledger and the pool that its storage comes from. */
module WebSocketReceiver {
  // runtime/hermit/gateway/ws.js: header bytes are stitched in a scratch buffer, frames that are complete in a chunk
  // unmasked in place, frames that span chunks and kept fragments assembled in rented buffers. Unless the ledger
  // refuses a buffer it means the byte-by-byte fold, and after every chunk the leases, the slabs and the parts agree.

  import opened Common
  import L = LedgerModel
  import V = LedgerViews
  import Utf8
  import opened Reassembly
  import opened SlabPool
  import opened WsModel
  import opened WsTheorems

  /** A message whose last fragment has not come: its kept fragments, and their bytes together. */
  datatype Kept = Kept(op: nat, parts: seq<Part>, bytes: nat)

  function PartsOf(frag: Option<Kept>): seq<Part> { if frag.Some? then frag.value.parts else [] }

  ghost function Own(p: Option<Part>): set<Part> { if p.Some? then {p.value} else {} }

  /** The parts a receiver holds: the frame being assembled and the kept fragments. */
  ghost function HeldBy(body: Option<Part>, frag: Option<Kept>): set<Part> {
    Own(body) + Members(PartsOf(frag))
  }

  /** The kept fragments, each once, and what is in them. */
  ghost predicate Keeps(frag: Option<Kept>, text: map<Part, seq<Byte>>, texts: seq<seq<Byte>>) {
    frag.Some? ==>
      && |texts| == |frag.value.parts| && Different(frag.value.parts) && frag.value.bytes == |Joined(texts)|
      && forall i :: 0 <= i < |texts| ==> KeepsAt(frag.value.parts, text, texts, i)
  }

  ghost predicate KeepsAt(parts: seq<Part>, text: map<Part, seq<Byte>>, texts: seq<seq<Byte>>, i: nat)
    requires i < |parts| && i < |texts|
  {
    parts[i] in text && text[parts[i]] == texts[i]
  }

  /** What the limits look at. */
  ghost predicate Counted(frag: Option<Kept>, rx: Option<Frag>) {
    && (frag.Some? <==> rx.Some?)
    && (frag.Some? ==> |frag.value.parts| == |rx.value.parts| && frag.value.bytes == FragBytes(rx))
  }

  /**
   * Nothing was refused and nothing counted; or one refusal was counted, or the ledger's generations are used up, and
   * the connection is closed for want of memory.
   */
  predicate Settled(refused: Option<nat>, before: Tab, now: Tab) {
    if refused.None? then Given(before, now)
    else Denied(before, now) && (refused.value == 1013 || refused.value == 1011)
  }

  lemma {:induction false} SettledAfter(refused: Option<nat>, before: Tab, mid: Tab, now: Tab)
    requires Given(before, mid) && Settled(refused, mid, now)
    ensures Settled(refused, before, now)
  {}

  /** Without a refusal the ledger counts none; after one it has counted it, or has no generation left to give. */
  predicate Noted(refused: bool, before: Tab, now: Tab) {
    && before.generation <= now.generation && Count(before.rejects) <= Count(now.rejects)
    && if refused then Count(before.rejects) < Count(now.rejects) || now.generation + 1 >= L.MAX_SAFE
       else now.rejects == before.rejects
  }

  lemma {:induction false} NotedNone(t: Tab)
    ensures Noted(false, t, t)
  {}

  lemma {:induction false} NotedAfter(some: bool, refused: bool, before: Tab, mid: Tab, now: Tab)
    requires Noted(some, before, mid) && Noted(refused, mid, now)
    ensures Noted(some || refused, before, now)
  {}

  lemma {:induction false} SettledNoted(refused: Option<nat>, before: Tab, now: Tab)
    requires Settled(refused, before, now)
    ensures Noted(refused.Some?, before, now)
  {}

  /**
   * What can be seen of a receiver: where it is, and once it has failed or the peer has closed, its verdict and what it
   * had delivered.
   */
  predicate Seen(want: Rx, got: Rx) {
    && got.status == want.status && got.events == want.events
    && (!Stopped(want.status) ==> got == want)
  }

  class Receiver {
    const limits: Limits
    const store: Storage
    const hdr: array<Byte>
    var hdrFill: nat
    var body: Option<Part>
    var head: Head
    var frag: Option<Kept>
    ghost var texts: seq<seq<Byte>>
    var status: Status
    var events: seq<Event>
    var gone: bool

    ghost predicate Plain()
      reads this
    {
      && hdr.Length == 14 && hdrFill <= 14 && limits.maxFragments > 0 && limits.maxMessage + 125 <= L.MAX_SAFE
      && (frag.Some? ==> |texts| == |frag.value.parts| && frag.value.bytes == |Joined(texts)|)
    }

    ghost function Held(): set<Part>
      reads this
    {
      HeldBy(body, frag)
    }

    /** The storage holds exactly the parts of this receiver and those in the hands of its caller. */
    ghost predicate Shape(also: set<Part>)
      reads this, store
    {
      && Plain() && Keeps(frag, store.text, texts)
      && (body.Some? ==> body.value in store.text && |store.text[body.value]| == body.value.len
                         && body.value.len <= head.len <= body.value.buf.Length && body.value !in PartsOf(frag))
      && also !! Held() && store.text.Keys == Held() + also
    }

    ghost predicate Sound(also: set<Part>)
      reads this, store, store.ledger, store.pool, Buffers(store.pool.idle), Bufs(store.text.Keys)
    {
      Shape(also) && store.Valid() && hdr !in store.Reach()
    }

    ghost function Spec(): Option<Frag>
      reads this
    {
      if frag.Some? then Some(Frag(frag.value.op, texts)) else None
    }

    ghost function Raw(): Option<Body>
      reads this, store
      requires body.Some? ==> body.value in store.text
    {
      if body.Some? then Some(Body(head, store.text[body.value])) else None
    }

    ghost function State(): Rx
      reads this, store, hdr
      requires Plain() && (body.Some? ==> body.value in store.text)
    {
      Rx(hdr[..hdrFill], Raw(), Spec(), status, events)
    }

    /** What was received took effect, unless storage for it was refused. */
    ghost predicate Heard(before: Rx, bytes: seq<Byte>, refused: Option<nat>)
      reads this, store, hdr
      requires Plain() && (body.Some? ==> body.value in store.text)
    {
      State() == if refused.None? then Receive(limits, before, bytes) else Fail(before, refused.value)
    }

    /** Between two events. */
    ghost predicate Good()
      reads this, store, hdr, store.ledger, store.pool, Buffers(store.pool.idle), Bufs(store.text.Keys)
    {
      Sound({}) && Valid(limits, State()) && (gone ==> Stopped(status))
    }

    constructor (limits: Limits, store: Storage)
      requires limits.maxFragments > 0 && limits.maxMessage + 125 <= L.MAX_SAFE && store.Valid() && store.text == map[]
      ensures this.limits == limits && this.store == store && Good() && State() == START && fresh(hdr)
    {
      this.limits, this.store := limits, store;
      StartValid(limits);
      hide Books, Pool.Valid, Pool.Clean, Separate, Sized, Valid, Joined, Different;
      hdr := new Byte[14](_ => 0);
      hdrFill, body, head, frag, texts := 0, None, Head(false, 0, 0, [0, 0, 0, 0], 0), None, [];
      status, events, gone := Open, [], false;
      new;
      assert State() == START;
    }

    // ---------------------------------------------------------------- giving storage back

    method DropBody(ghost also: set<Part>)
      requires Sound(also)
      modifies `body, store`text, store.ledger, store.pool, store.Reach()
      ensures Sound(also) && body.None? && (old(body).Some? ==> Wiped(old(body).value))
      ensures store.Spent() == old(store.Spent()) && store.Reach() <= old(store.Reach())
      ensures store.Outer() == old(store.Outer())
    {
      hide Joined, Different, Books, Stock, Sized, HeldBy, Keeps, Buffers, Bufs, Wiped;
      HeldSplit(body, frag);
      if body.Some? {
        var p := body.value;
        store.Reached(p);
        HeldLess(Held(), HeldBy(None, frag), {p}, also, store.text.Keys);
        body := None;
        store.Release(p);
        KeepsWithout(frag, old(store.text), texts, {p});
      }
    }

    method DropFrag(ghost also: set<Part>)
      requires Sound(also) && body.None?
      modifies `frag, store`text, store.ledger, store.pool, Bufs(Members(PartsOf(frag)))
      ensures forall p :: p in PartsOf(old(frag)) ==> Wiped(p)
      ensures Sound(also) && frag.None? && body.None? && (forall p :: p in also ==> store.text[p] == old(store.text)[p])
      ensures store.Spent() == old(store.Spent()) && store.Reach() <= old(store.Reach())
      ensures store.Outer() == old(store.Outer())
    {
      hide Joined, Books, Stock, Sized, HeldBy, KeepsAt, Buffers, Bufs, Wiped;
      HeldSplit(body, frag);
      HeldSplit(None, None);
      if frag.Some? {
        var parts := frag.value.parts;
        HeldLess(Held(), {}, Held(), also, store.text.Keys);
        frag := None;
        store.ReleaseAll(parts);
      }
    }

    lemma {:induction false} FragReached(also: set<Part>)
      requires Sound(also)
      ensures Bufs(Members(PartsOf(frag))) <= store.Reach()
      ensures body.Some? ==> body.value.buf !in Bufs(Members(PartsOf(frag)))
    {
      hide Joined, Different, Books, Sized, Pool.Valid, Pool.Clean;
      HeldSplit(body, frag);
      forall p | p in PartsOf(frag) ensures p.buf in store.Reach() { assert p in store.text; }
      if body.Some? { FragApart(store.pool, store.text.Keys, body.value, PartsOf(frag)); }
    }

    /** `_dropReceiveState`: every part goes back, with nothing of what was received left in its slab. */
    method DropAll(ghost also: set<Part>)
      requires Sound(also)
      modifies `hdrFill, `body, `frag, store`text, store.ledger, store.pool, store.Reach()
      ensures Sound(also) && hdrFill == 0 && body.None? && frag.None?
      ensures forall p :: p in old(Held()) ==> Wiped(p)
      ensures store.Spent() == old(store.Spent()) && store.Reach() <= old(store.Reach())
      ensures store.Outer() == old(store.Outer())
    {
      hide Joined, Different, Books, Stock, Sized, HeldBy, Keeps, Buffers, Bufs, Wiped;
      HeldSplit(body, frag);
      FragReached(also);
      ghost var was := body;
      hdrFill := 0;
      DropBody(also);
      FragReached(also);
      DropFrag(also);
      assert was.Some? ==> Wiped(was.value);
    }

    /** The receive state is dropped, after the closing handshake has been begun when it had not. */
    method FailWith(code: nat, ghost also: set<Part>)
      requires Sound(also)
      modifies `hdrFill, `body, `frag, `status, store`text, store.ledger, store.pool, store.Reach()
      ensures Sound(also) && body.None? && frag.None? && State() == Fail(old(State()), code)
      ensures forall p :: p in old(Held()) ==> Wiped(p)
      ensures store.Spent() == old(store.Spent()) && store.Reach() <= old(store.Reach())
      ensures store.Outer() == old(store.Outer())
    {
      hide Joined, Different, Books, Stock, Sized, HeldBy, Keeps, Own, Buffers, Bufs, Wiped;
      ghost var before := State();
      status := if status == Open then Failed(code) else Halted;
      DropAll(also);
      assert hdr[..0] == [] && status == Fail(before, code).status && events == before.events;
    }

    /** The storage behind a payload, when it has some, is given back. */
    method Done(owned: Option<Part>, ghost also: set<Part>)
      requires Sound(Own(owned) + also) && body.None? && (owned.Some? ==> owned.value !in also)
      modifies store`text, store.ledger, store.pool, store.Reach()
      ensures Sound(also) && store.text == old(store.text) - Own(owned) && State() == old(State())
      ensures owned.Some? ==> Wiped(owned.value)
      ensures store.Spent() == old(store.Spent()) && store.Reach() <= old(store.Reach())
      ensures store.Outer() == old(store.Outer())
    {
      hide Joined, Different, Books, Stock, Sized, HeldBy, Keeps, Wiped;
      HeldSplit(body, frag);
      if owned.Some? {
        ghost var text := store.text;
        OwnedApart(Own(owned), also, Held(), text.Keys);
        store.Reached(owned.value);
        store.Release(owned.value);
        KeepsWithout(frag, text, texts, {owned.value});
      } else {
        assert store.text - {} == store.text;
      }
    }

    // ---------------------------------------------------------------- frames and messages

    method Deliver(op: nat, bytes: seq<Byte>, ghost also: set<Part>)
      requires Sound(also) && hdrFill == 0 && body.None? && frag.None?
      modifies `hdrFill, `body, `head, `frag, `texts, `status, `events, store`text, store.ledger, store.pool,
          store.Reach()
      ensures Sound(also) && body.None? && State() == Message(old(State()), op, bytes)
      ensures store.Spent() == old(store.Spent()) && store.Reach() <= old(store.Reach())
      ensures store.Outer() == old(store.Outer())
    {
      hide Joined, Different, Books, Stock, Sized, HeldBy, Keeps, Own;
      if op == BIN {
        events := events + [Binary(bytes)];
      } else if Utf8.WellFormed(bytes) {
        events := events + [Text(bytes)];
      } else {
        FailWith(1007, also);
      }
    }

    method PeerCloses(payload: seq<Byte>)
      requires Sound({}) && hdrFill == 0 && body.None?
      modifies `hdrFill, `body, `head, `frag, `texts, `status, `events, store`text, store.ledger, store.pool,
          store.Reach()
      ensures Sound({}) && body.None? && State() == OnClose(old(State()), payload)
      ensures store.Spent() == old(store.Spent()) && store.Reach() <= old(store.Reach())
      ensures store.Outer() == old(store.Outer())
    {
      hide Joined, Different, Books, Stock, Sized, HeldBy, Keeps, Own;
      if payload == [] {
        status := Ended(1005, []);
      } else if |payload| == 1 || !ValidCloseCode(U16(payload[0], payload[1])) {
        FailWith(1002, {});
      } else if !Utf8.WellFormed(payload[2..]) {
        FailWith(1007, {});
      } else {
        status := Ended(U16(payload[0], payload[1]), payload[2..]);
      }
    }

    /** A rented buffer with `data` in it. */
    method RentFilled(n: nat, data: seq<Byte>, ghost also: set<Part>) returns (r: Result<Part, L.Scope>)
      requires Sound(also) && body.None? && |data| <= n <= L.MAX_SAFE
      modifies store`text, store.ledger, store.pool, store.Reach()
      ensures r.Err? ==>
        Sound(also) && store.text == old(store.text) && Denied(old(store.Spent()), store.Spent())
      ensures r.Ok? ==>
        && r.value !in old(store.text) && store.text == old(store.text)[r.value := data] && Sound(also + {r.value})
        && r.value.len == |data| && n <= r.value.buf.Length && Given(old(store.Spent()), store.Spent())
      ensures store.Outer() == old(store.Outer())
      ensures forall b :: b in store.Reach() ==> b in old(store.Reach()) || fresh(b)
    {
      hide Joined, Different, Books, Stock, Sized, Denied, HeldBy, Keeps, Own;
      r := store.Rent(n);
      if r.Ok? {
        var p := r.value;
        var q := store.Append(p, data);
        Refilled(old(store.text), p, q, data);
        OneHeldMore(Held(), also, old(store.text).Keys, q);
        assert hdr !in store.Reach();
        KeepsSame(frag, old(store.text), store.text, texts);
        r := Ok(q);
      }
    }

    /** A fragment that is not the last outlives its event, so it needs storage of its own. */
    method KeepFragment(op: nat, payload: seq<Byte>, owned: Option<Part>) returns (refused: Option<nat>)
      requires Sound(Own(owned)) && hdrFill == 0 && body.None? && |payload| < L.MAX_SAFE
      requires owned.Some? ==> store.text[owned.value] == payload && owned.value.len == |payload|
      modifies `hdrFill, `body, `head, `frag, `texts, `status, `events, store`text, store.ledger, store.pool,
          store.Reach()
      ensures Sound({}) && body.None? && Settled(refused, old(store.Spent()), store.Spent())
      ensures store.Outer() == old(store.Outer())
      ensures State() == if refused.None? then Keep(old(State()), op, payload) else Fail(old(State()), refused.value)
      ensures forall b :: b in store.Reach() ==> b in old(store.Reach()) || fresh(b)
    {
      hide Different, Joined, Books, Stock, Sized, Denied, HeldBy, Keeps, Keep;
      var part;
      if owned.Some? {
        part := owned.value;
      } else {
        var r := RentFilled(if |payload| == 0 then 1 else |payload|, payload, {});
        if r.Err? {
          FailWith(1013, {});
          return Some(1013);
        }
        part := r.value;
      }
      AddPart(op, payload, part);
      refused := None;
    }

    /** A part in hand becomes the next kept fragment. */
    method AddPart(op: nat, payload: seq<Byte>, part: Part)
      requires Sound({part}) && body.None? && store.text[part] == payload && part.len == |payload|
      modifies `frag, `texts
      ensures Sound({}) && State() == Keep(old(State()), op, payload)
    {
      hide Books, Stock, Sized, HeldBy, Keeps, Joined, Different;
      HeldMore(frag, op, part, part.len);
      NoneKept(op, store.text);
      HeldSplit(body, frag);
      var f := if frag.Some? then frag.value else Kept(op, [], 0);
      ghost var was := if frag.Some? then texts else [];
      KeepsMore(f, store.text, was, part, payload);
      frag := Some(Kept(f.op, f.parts + [part], f.bytes + part.len));
      texts := was + [payload];
    }

    /** Copies the kept fragments, one behind the other, into the buffer of the whole message. */
    method Gather(part: Part, ghost also: set<Part>) returns (q: Part)
      requires Sound(also + {part}) && body.None? && frag.Some? && part !in also
      requires store.text[part] == [] && part.len == 0 && frag.value.bytes <= part.buf.Length
      modifies store`text, store.ledger, store.pool, store.Reach()
      ensures Sound(also + {q}) && q !in also && q == part.(len := frag.value.bytes)
      ensures store.text[q] == Joined(texts) && SameIn(also, old(store.text), store.text)
      ensures store.Spent() == old(store.Spent()) && store.Reach() == old(store.Reach())
      ensures store.Outer() == old(store.Outer())
    {
      hide Different, Books, Stock, Sized, HeldBy, Keeps, Joined, Contents, AllIn, SameIn;
      ghost var text := store.text;
      store.Reached(part);
      KeptContents(frag, text, texts);
      HeldSplit(body, frag);
      q := store.Collect(part, frag.value.parts);
      assert [] + Joined(texts) == Joined(texts);
      Replaced(Held(), also, text, part, q, Joined(texts));
      KeepsReplaced(frag, text, texts, part, q, Joined(texts));
    }

    /** One more piece in a part that the caller holds. */
    method Extended(p: Part, data: seq<Byte>, ghost also: set<Part>) returns (q: Part)
      requires Sound(also + {p}) && body.None? && p !in also && p.len + |data| <= p.buf.Length
      modifies store`text, store.ledger, store.pool, store.Reach()
      ensures Sound(also + {q}) && q !in also && q == p.(len := p.len + |data|)
      ensures store.text[q] == old(store.text)[p] + data && SameIn(also, old(store.text), store.text)
      ensures store.Spent() == old(store.Spent()) && store.Reach() == old(store.Reach())
      ensures store.Outer() == old(store.Outer())
    {
      hide Different, Books, Stock, Sized, HeldBy, Keeps, Joined, SameIn;
      ghost var text := store.text;
      store.Reached(p);
      HeldSplit(body, frag);
      q := store.Append(p, data);
      Replaced(Held(), also, text, p, q, text[p] + data);
      KeepsReplaced(frag, text, texts, p, q, text[p] + data);
    }

    /** The last fragment: the message is put together once, in storage reserved for the whole of it. */
    method Finale(payload: seq<Byte>, owned: Option<Part>) returns (refused: Option<nat>)
      requires Sound(Own(owned)) && hdrFill == 0 && body.None? && frag.Some?
      requires owned.Some? ==> store.text[owned.value] == payload
      requires frag.value.bytes + |payload| <= L.MAX_SAFE
      modifies `hdrFill, `body, `head, `frag, `texts, `status, `events, store`text, store.ledger, store.pool,
          store.Reach()
      ensures Sound({}) && body.None? && Settled(refused, old(store.Spent()), store.Spent())
      ensures store.Outer() == old(store.Outer())
      ensures State() == if refused.Some? then Fail(old(State()), refused.value)
                         else Message(old(State()).(frag := None), old(frag.value.op), Joined(old(texts)) + payload)
      ensures forall b :: b in store.Reach() ==> b in old(store.Reach()) || fresh(b)
    {
      hide Different, Books, Stock, Sized, HeldBy, Keeps, Joined, Denied, Message, Fail;
      var r := Empty(frag.value.bytes + |payload|, Own(owned));
      if r.Err? {
        Done(owned, {});
        FailWith(1013, {});
        refused := Some(1013);
      } else {
        Build(r.value, payload, owned);
        refused := None;
      }
    }

    /** The message put together in the buffer that was rented for it. */
    method Build(part: Part, payload: seq<Byte>, owned: Option<Part>)
      requires Sound(Own(owned) + {part}) && hdrFill == 0 && body.None? && frag.Some? && part !in Own(owned)
      requires store.text[part] == [] && part.len == 0 && frag.value.bytes + |payload| <= part.buf.Length
      modifies `hdrFill, `body, `head, `frag, `texts, `status, `events, store`text, store.ledger, store.pool,
          store.Reach()
      ensures Sound({}) && body.None?
      ensures State() == Message(old(State()).(frag := None), old(frag.value.op), Joined(old(texts)) + payload)
      ensures store.Spent() == old(store.Spent()) && store.Reach() <= old(store.Reach())
      ensures store.Outer() == old(store.Outer())
    {
      hide Different, Books, Stock, Sized, HeldBy, Keeps, Joined, Message;
      ghost var rx, all := State().(frag := None), Joined(texts) + payload;
      var op := frag.value.op;
      var q := Gather(part, Own(owned));
      q := Extended(q, payload, Own(owned));
      assert store.text[q] == all && State().(frag := None) == rx;
      Tidy(owned, q);
      Conclude(op, q);
    }

    /** The fragments are given back, and the storage behind the last one. */
    method Tidy(owned: Option<Part>, q: Part)
      requires Sound(Own(owned) + {q}) && body.None? && q !in Own(owned)
      modifies `frag, store`text, store.ledger, store.pool, store.Reach()
      ensures Sound({q}) && body.None? && frag.None? && store.text[q] == old(store.text)[q]
      ensures State() == old(State()).(frag := None)
      ensures store.Spent() == old(store.Spent()) && store.Reach() <= old(store.Reach())
      ensures store.Outer() == old(store.Outer())
    {
      hide Different, Books, Stock, Sized, HeldBy, Keeps, Joined, Wiped;
      FragReached(Own(owned) + {q});
      ghost var rx, bytes := State().(frag := None), store.text[q];
      DropFrag(Own(owned) + {q});
      assert State() == rx && store.text[q] == bytes;
      Done(owned, {q});
    }

    /** The whole message is delivered, and its buffer given back. */
    method Conclude(op: nat, q: Part)
      requires Sound({q}) && hdrFill == 0 && body.None? && frag.None?
      modifies `hdrFill, `body, `head, `frag, `texts, `status, `events, store`text, store.ledger, store.pool,
          store.Reach()
      ensures Sound({}) && body.None? && State() == Message(old(State()), op, old(store.text)[q])
      ensures store.Spent() == old(store.Spent()) && store.Reach() <= old(store.Reach())
      ensures store.Outer() == old(store.Outer())
    {
      hide Different, Books, Stock, Sized, HeldBy, Keeps, Joined, Message;
      var bytes := store.Read(q);
      Deliver(op, bytes, {q});
      assert {q} == Own(Some(q)) + {};
      Done(Some(q), {});
    }

    /** An empty rented buffer. */
    method Empty(n: nat, ghost also: set<Part>) returns (r: Result<Part, L.Scope>)
      requires Sound(also) && body.None? && n <= L.MAX_SAFE
      modifies store`text, store.ledger, store.pool
      ensures r.Err? ==>
        Sound(also) && store.text == old(store.text) && Denied(old(store.Spent()), store.Spent())
      ensures r.Ok? ==>
        && r.value !in old(store.text) && store.text == old(store.text)[r.value := []] && Sound(also + {r.value})
        && r.value.len == 0 && n <= r.value.buf.Length && Given(old(store.Spent()), store.Spent())
      ensures store.Outer() == old(store.Outer())
      ensures forall b :: b in store.Reach() ==> b in old(store.Reach()) || fresh(b)
    {
      hide Joined, Different, Books, Stock, Sized, Denied, HeldBy, Keeps, Own;
      r := store.Rent(n);
      if r.Ok? {
        KeepsSame(frag, old(store.text), store.text, texts);
        OneHeldMore(Held(), also, old(store.text).Keys, r.value);
        assert store.text.Keys == old(store.text).Keys + {r.value};
        assert hdr !in store.Reach();
      }
    }

    /**
     * `_frame`: one complete frame; `owned` is the storage behind its payload, unless that lies in the socket's
     * chunk.
     */
    method OnFrame(op: nat, fin: bool, payload: seq<Byte>, owned: Option<Part>) returns (refused: Option<nat>)
      requires Sound(Own(owned)) && hdrFill == 0 && body.None?
      requires owned.Some? ==> store.text[owned.value] == payload && owned.value.len == |payload|
      requires FragOk(limits, Spec()) && Fits(limits, Spec(), op, |payload|)
      modifies `hdrFill, `body, `head, `frag, `texts, `status, `events, store`text, store.ledger, store.pool,
          store.Reach()
      ensures Sound({}) && body.None? && Settled(refused, old(store.Spent()), store.Spent())
      ensures store.Outer() == old(store.Outer())
      ensures forall b :: b in store.Reach() ==> b in old(store.Reach()) || fresh(b)
      ensures State() == if refused.None? then Frame(old(State()), op, fin, payload)
          else Fail(old(State()), refused.value)
    {
      hide Different, Books, Stock, Sized, HeldBy, Keeps, Joined, Denied, Message, Keep, Fail, OnClose;
      refused := None;
      assert Own(owned) == Own(owned) + {};
      if status == Closing && op != CLOSE {
        Done(owned, {});
      } else if op == TEXT || op == BIN || op == CONT {
        refused := DataFrame(op, fin, payload, owned);
      } else {
        Done(owned, {});
        ControlFrame(op, payload);
      }
    }

    method ControlFrame(op: nat, payload: seq<Byte>)
      requires Sound({}) && hdrFill == 0 && body.None? && op != TEXT && op != BIN && op != CONT
      modifies `hdrFill, `body, `head, `frag, `texts, `status, `events, store`text, store.ledger, store.pool,
          store.Reach()
      ensures Sound({}) && body.None? && store.Spent() == old(store.Spent()) && store.Reach() <= old(store.Reach())
      ensures store.Outer() == old(store.Outer())
      ensures State() ==
        if op == PING then Emit(old(State()), Ping(payload)) else if op == PONG then Emit(old(State()), Pong(payload))
        else if op == CLOSE then OnClose(old(State()), payload) else Fail(old(State()), 1002)
    {
      hide Different, Books, Stock, Sized, HeldBy, Keeps, Joined, Fail, OnClose;
      if op == PING {
        events := events + [Ping(payload)];
      } else if op == PONG {
        events := events + [Pong(payload)];
      } else if op == CLOSE {
        PeerCloses(payload);
      } else {
        FailWith(1002, {});
      }
    }

    /** A frame of a message, or out of place. */
    method DataFrame(op: nat, fin: bool, payload: seq<Byte>, owned: Option<Part>) returns (refused: Option<nat>)
      requires Sound(Own(owned)) && hdrFill == 0 && body.None? && (op == TEXT || op == BIN || op == CONT)
          && status != Closing
      requires owned.Some? ==> store.text[owned.value] == payload && owned.value.len == |payload|
      requires FragOk(limits, Spec()) && Fits(limits, Spec(), op, |payload|)
      modifies `hdrFill, `body, `head, `frag, `texts, `status, `events, store`text, store.ledger, store.pool,
          store.Reach()
      ensures Sound({}) && body.None? && Settled(refused, old(store.Spent()), store.Spent())
      ensures store.Outer() == old(store.Outer())
      ensures forall b :: b in store.Reach() ==> b in old(store.Reach()) || fresh(b)
      ensures State() == if refused.None? then Frame(old(State()), op, fin, payload)
          else Fail(old(State()), refused.value)
    {
      hide Different, Books, Stock, Sized, HeldBy, Keeps, Joined, Denied, Message, Keep, Fail, Frame, Fits, FragOk;
      DataIs(State(), op, fin, payload);
      FitsSafe(limits, Spec(), op, |payload|);
      refused := None;
      assert Own(owned) == Own(owned) + {};
      if frag.Some? != (op == CONT) {
        Done(owned, {});
        FailWith(1002, {});
      } else if !fin {
        refused := KeepFragment(if op == CONT then 0 else op, payload, owned);
      } else if op == CONT {
        refused := Finale(payload, owned);
      } else {
        Deliver(op, payload, Own(owned));
        Done(owned, {});
      }
    }

    // ---------------------------------------------------------------- headers

    /** The limits, once the length is known, and the head when its mask has arrived. */
    static method ReadLimited(
      limits: Limits, frag: Option<Kept>, h: array<Byte>, at: nat, avail: nat, len: nat, hl: nat,
      ghost rx: Option<Frag>)
      returns (p: Parsed)
      requires at + avail <= h.Length && 2 <= hl && 2 <= avail && Counted(frag, rx)
      ensures p == Limited(limits, h[at..at + avail], rx, len, hl)
    {
      ghost var s := h[at..at + avail];
      assert s[0] == h[at];
      var fin, op := h[at] >= 128, h[at] % 16;
      var control := op >= 8;
      if control && (len > 125 || !fin) { return Bad(1002); }
      if !control && (if frag.Some? then frag.value.bytes else 0) + len > limits.maxMessage { return Bad(1009); }
      if !control && frag.Some? && |frag.value.parts| >= limits.maxFragments { return Bad(1009); }
      if avail < hl + 4 { return More; }
      assert s[hl] == h[at + hl] && s[hl + 1] == h[at + hl + 1];
      assert s[hl + 2] == h[at + hl + 2] && s[hl + 3] == h[at + hl + 3];
      assert s[hl..hl + 4] == [s[hl], s[hl + 1], s[hl + 2], s[hl + 3]] == h[at + hl..at + hl + 4];
      p := Whole(Head(fin, op, len, h[at + hl..at + hl + 4], hl + 4));
    }

    /** The header of a frame, read from a buffer that may hold more than it. */
    static method ReadHead(
      limits: Limits, frag: Option<Kept>, h: array<Byte>, at: nat, avail: nat, ghost rx: Option<Frag>)
      returns (p: Parsed)
      requires at + avail <= h.Length && Counted(frag, rx)
      ensures p == Parse(limits, h[at..at + avail], rx)
    {
      hide Limited, U16, U32;
      ghost var s := h[at..at + avail];
      if avail < 2 { return More; }
      var b0, b1 := h[at], h[at + 1];
      assert b0 == s[0] && b1 == s[1];
      var len, hl := b1 % 128, 2;
      if b0 / 16 % 8 != 0 { return Bad(1002); }
      if b1 < 128 { return Bad(1002); }
      if len == 126 {
        if avail < 4 { return More; }
        len, hl := U16(h[at + 2], h[at + 3]), 4;
        assert h[at + 2] == s[2] && h[at + 3] == s[3];
        if len < 126 { return Bad(1002); }
      } else if len == 127 {
        if avail < 10 { return More; }
        var hi, lo := U32(h[at + 2], h[at + 3], h[at + 4], h[at + 5]), U32(h[at + 6], h[at + 7], h[at + 8], h[at + 9]);
        assert h[at + 2] == s[2] && h[at + 3] == s[3] && h[at + 4] == s[4] && h[at + 5] == s[5];
        assert h[at + 6] == s[6] && h[at + 7] == s[7] && h[at + 8] == s[8] && h[at + 9] == s[9];
        if hi != 0 || lo > 0x7fffffff { return Bad(1009); }
        len, hl := lo, 10;
        if len < 65536 { return Bad(1002); }
      }
      p := ReadLimited(limits, frag, h, at, avail, len, hl, rx);
    }

    method Stitch(chunk: array<Byte>, off: nat, take: nat)
      requires Plain() && off + take <= chunk.Length && hdrFill + take <= 14 && chunk != hdr
      modifies hdr
      ensures hdr[..hdrFill] == old(hdr[..hdrFill]) && hdr[hdrFill..hdrFill + take] == chunk[off..off + take]
    {
      for i := 0 to take
        invariant hdr[..hdrFill] == old(hdr[..hdrFill]) && hdr[hdrFill..hdrFill + i] == chunk[off..off + i]
      {
        hdr[hdrFill + i] := chunk[off + i];
        assert chunk[off..off + i + 1] == chunk[off..off + i] + [chunk[off + i]];
        assert hdr[hdrFill..hdrFill + i + 1] == hdr[hdrFill..hdrFill + i] + [hdr[hdrFill + i]];
      }
    }

    /** As many bytes as the scratch has room for are stitched to the header begun in an earlier chunk. */
    method Extend(chunk: array<Byte>, off: nat) returns (take: nat)
      requires Plain() && hdrFill < 14 && off < chunk.Length && chunk != hdr
      modifies hdr
      ensures hdr[..hdrFill] == old(hdr[..hdrFill])
      ensures 0 < take <= chunk.Length - off && (take == chunk.Length - off || hdrFill + take == 14)
          && hdrFill + take <= 14
      ensures hdr[hdrFill..hdrFill + take] == chunk[off..off + take]
      ensures hdr[0..0 + (hdrFill + take)] == hdr[..hdrFill] + chunk[off..off + take]
    {
      take := if 14 - hdrFill < chunk.Length - off then 14 - hdrFill else chunk.Length - off;
      Stitch(chunk, off, take);
      assert hdr[0..0 + (hdrFill + take)] == hdr[..hdrFill] + hdr[hdrFill..hdrFill + take];
    }

    /** Looks at the header, in the chunk itself or stitched to what came before. */
    method Peek(chunk: array<Byte>, off: nat) returns (p: Parsed, take: nat)
      requires Plain() && body.None? && hdrFill < 14 && off < chunk.Length && chunk != hdr
      modifies hdr
      ensures hdr[..hdrFill] == old(hdr[..hdrFill])
      ensures 0 < take <= chunk.Length - off && (take == chunk.Length - off || hdrFill + take == 14)
      ensures p == Parse(limits, hdr[..hdrFill] + chunk[off..off + take], Spec())
      ensures hdrFill > 0 ==> hdrFill + take <= 14 && hdr[hdrFill..hdrFill + take] == chunk[off..off + take]
    {
      hide Parse, Joined;
      if hdrFill > 0 {
        take := Extend(chunk, off);
        p := ReadHead(limits, frag, hdr, 0, hdrFill + take, Spec());
      } else {
        take := chunk.Length - off;
        assert hdr[..0] + chunk[off..off + take] == chunk[off..off + take];
        p := ReadHead(limits, frag, chunk, off, take, Spec());
      }
    }

    /** An undecided header is kept in the scratch. */
    method Stash(chunk: array<Byte>, off: nat)
      requires Plain() && body.None? && off < chunk.Length && hdrFill + (chunk.Length - off) < 14 && chunk != hdr
      requires hdrFill > 0 ==> hdr[hdrFill..hdrFill + (chunk.Length - off)] == chunk[off..]
      modifies `hdrFill, hdr
      ensures Plain() && hdr[..hdrFill] == old(hdr[..hdrFill]) + chunk[off..]
    {
      var take := chunk.Length - off;
      ghost var was := hdr[..hdrFill];
      if hdrFill == 0 { Stitch(chunk, off, take); }
      assert hdr[..hdrFill + take] == hdr[..hdrFill] + hdr[hdrFill..hdrFill + take];
      assert chunk[off..off + take] == chunk[off..];
      hdrFill := hdrFill + take;
    }

    // ---------------------------------------------------------------- chunks

    /** The assembled frame is unmasked where it lies and handed on with its storage. */
    method Finish() returns (refused: Option<nat>)
      requires Sound({}) && body.Some? && body.value.len == head.len && hdrFill == 0
      requires FragOk(limits, Spec()) && Fits(limits, Spec(), head.op, head.len)
      modifies `hdrFill, `body, `head, `frag, `texts, `status, `events, store`text, store.ledger, store.pool,
          store.Reach()
      ensures Sound({}) && body.None?
      ensures Settled(refused, old(store.Spent()), store.Spent())
      ensures store.Outer() == old(store.Outer())
      ensures forall b :: b in store.Reach() ==> b in old(store.Reach()) || fresh(b)
      ensures State() ==
        if refused.None? then Complete(old(State()), old(head), old(State()).body.value.raw)
            else Fail(old(State()), refused.value)
    {
      hide Different, Books, Stock, Sized, Keeps, HeldBy, Joined, Denied, Frame, FragOk, Fits;
      ghost var rx := State();
      assert hdr[..0] == [];
      var p := TakeBody();
      assert State() == rx.(hdr := [], body := None);
      var payload := store.Read(p);
      refused := OnFrame(head.op, head.fin, payload, Some(p));
    }

    /** The frame being assembled is in the hands of the caller. */
    method Detach() returns (p: Part)
      requires Sound({}) && body.Some?
      modifies `body
      ensures Sound({p}) && body.None? && p in store.text && p == old(body).value && p.len == |store.text[p]|
      ensures State() == old(State()).(body := None)
    {
      hide Different, Books, Stock, Sized, HeldBy, Keeps, Joined;
      p := body.value;
      HeldSplit(body, frag);
      HeldLess(Held(), HeldBy(None, frag), {p}, {}, store.text.Keys);
      body := None;
    }

    /** The assembled frame, unmasked where it lies, is nobody's any more but the caller's. */
    method TakeBody() returns (p: Part)
      requires Sound({}) && body.Some? && body.value.len == head.len && hdrFill == 0
      modifies `body, store`text, body.value.buf
      ensures Sound(Own(Some(p))) && body.None? && p in store.text && p.len == head.len
      ensures State() == old(State()).(body := None)
      ensures store.text[p] == Unmask(old(State()).body.value.raw, head.mask)
      ensures store.Reach() == old(store.Reach()) && store.Outer() == old(store.Outer())
    {
      hide Different, Books, Stock, Sized, HeldBy, Keeps, Joined;
      p := Detach();
      store.Reached(p);
      ghost var text := store.text;
      store.Unmask(p, head.mask);
      KeepsSame(frag, text, store.text, texts);
      assert store.text.Keys == text.Keys;
    }

    /** Continues a frame that spans chunks: one copy for each byte. */
    method Continue(chunk: array<Byte>, off: nat) returns (next: nat, refused: Option<nat>)
      requires Sound({}) && body.Some? && body.value.len < head.len && hdrFill == 0 && !Stopped(status)
      requires off < chunk.Length && chunk != hdr && chunk !in store.Reach()
      requires FragOk(limits, Spec()) && Fits(limits, Spec(), head.op, head.len)
      modifies `hdrFill, `body, `head, `frag, `texts, `status, `events, store`text, store.ledger, store.pool,
          store.Reach()
      ensures Sound({}) && off < next <= chunk.Length && Heard(old(State()), chunk[off..next], refused)
      ensures Settled(refused, old(store.Spent()), store.Spent())
      ensures store.Outer() == old(store.Outer())
      ensures forall b :: b in store.Reach() ==> b in old(store.Reach()) || fresh(b)
    {
      hide Different, Books, Stock, Sized, Keeps, HeldBy, Joined, Denied, Frame, Receive, FragOk, Fits;
      var p := body.value;
      var take := if head.len - p.len < chunk.Length - off then head.len - p.len else chunk.Length - off;
      next := off + take;
      ghost var before := State();
      assert hdr[..0] == [];
      FeedBody(limits, before, chunk[off..next]);
      Lengthen(chunk[off..next]);
      refused := None;
      if body.value.len == head.len { refused := Finish(); }
    }

    /** More of the frame that is being assembled. */
    method Lengthen(data: seq<Byte>)
      requires Sound({}) && body.Some? && body.value.len + |data| <= head.len
      modifies `body, `head, store`text, store.ledger, store.pool, store.Reach()
      ensures Sound({}) && body.Some? && body.value.len == old(body.value.len) + |data|
      ensures State() == old(State()).(body := Some(Body(head, old(State()).body.value.raw + data)))
          && head == old(head)
      ensures store.Spent() == old(store.Spent()) && store.Reach() == old(store.Reach())
      ensures store.Outer() == old(store.Outer())
    {
      hide Different, Books, Stock, Sized, HeldBy, Keeps, Joined;
      var p := Detach();
      assert {} + {p} == {p};
      var q := Extended(p, data, {});
      assert {} + {q} == {q};
      SetBody(q, head);
    }

    /** A payload that the chunk has whole is unmasked where it lies; nothing is copied. */
    method InPlace(h: Head, chunk: array<Byte>, off: nat) returns (refused: Option<nat>)
      requires Sound({}) && hdrFill == 0 && body.None? && FragOk(limits, Spec()) && Fits(limits, Spec(), h.op, h.len)
      requires off + h.len <= chunk.Length && chunk != hdr && chunk !in store.Reach()
      modifies `hdrFill, `body, `head, `frag, `texts, `status, `events, store`text, store.ledger, store.pool,
          store.Reach(), chunk
      ensures Sound({}) && body.None? && chunk[off + h.len..] == old(chunk[off + h.len..])
      ensures Settled(refused, old(store.Spent()), store.Spent())
      ensures store.Outer() == old(store.Outer())
      ensures forall b :: b in store.Reach() ==> b in old(store.Reach()) || fresh(b)
      ensures State() ==
        if refused.None? then Complete(old(State()), h, old(chunk[off..off + h.len]))
            else Fail(old(State()), refused.value)
    {
      hide Different, Books, Stock, Sized, Keeps, HeldBy, Joined, Denied, Frame, FragOk, Fits;
      assert hdr[..0] == [];
      Unmasked(chunk, off, h);
      var payload := chunk[off..off + h.len];
      assert Own(None) == {};
      refused := OnFrame(h.op, h.fin, payload, None);
    }

    /** The chunk's bytes are no part of what is stored. */
    method Unmasked(chunk: array<Byte>, off: nat, h: Head)
      requires Sound({}) && body.None? && off + h.len <= chunk.Length && chunk != hdr && chunk !in store.Reach()
      modifies chunk
      ensures Sound({}) && State() == old(State()) && store.Reach() == old(store.Reach())
          && store.Spent() == old(store.Spent()) && store.Outer() == old(store.Outer())
      ensures chunk[off..off + h.len] == Unmask(old(chunk[off..off + h.len]), h.mask)
      ensures chunk[off + h.len..] == old(chunk[off + h.len..])
    {
      hide Different, Books, Keeps, HeldBy, Joined, Pool.Valid, Pool.Clean, Separate;
      UnmaskInPlace(chunk, off, h.len, h.mask);
    }

    /** A payload that goes on in the next chunk gets a rented buffer of its size. */
    method Assemble(h: Head, chunk: array<Byte>, off: nat) returns (refused: Option<nat>)
      requires Sound({}) && hdrFill == 0 && body.None? && FragOk(limits, Spec()) && Fits(limits, Spec(), h.op, h.len)
      requires off <= chunk.Length && chunk.Length - off < h.len && chunk != hdr && chunk !in store.Reach()
      modifies `hdrFill, `body, `head, `frag, `texts, `status, `events, store`text, store.ledger, store.pool,
          store.Reach()
      ensures Sound({})
      ensures Settled(refused, old(store.Spent()), store.Spent())
      ensures store.Outer() == old(store.Outer())
      ensures forall b :: b in store.Reach() ==> b in old(store.Reach()) || fresh(b)
      ensures State() ==
        if refused.None? then old(State()).(body := Some(Body(h, chunk[off..]))) else Fail(old(State()), refused.value)
    {
      hide Different, Books, Stock, Sized, Keeps, HeldBy, Joined, Denied, FragOk;
      var r := RentFilled(h.len, chunk[off..], {});
      if r.Err? {
        FailWith(Code(r.error), {});
        refused := Some(Code(r.error));
      } else {
        SetBody(r.value, h);
        refused := None;
      }
    }

    method SetBody(p: Part, h: Head)
      requires Sound({p}) && body.None? && p.len == |store.text[p]| && p.len <= h.len <= p.buf.Length
      modifies `body, `head
      ensures Sound({}) && State() == old(State()).(body := Some(Body(h, store.text[p])))
    {
      hide Different, Books, Stock, Sized, Keeps, HeldBy, Joined;
      HeldSplit(None, frag);
      HeldSplit(Some(p), frag);
      head, body := h, Some(p);
    }

    method Payload(h: Head, chunk: array<Byte>, off: nat) returns (next: nat, refused: Option<nat>)
      requires Sound({}) && hdrFill == 0 && body.None? && !Stopped(status)
      requires FragOk(limits, Spec()) && Fits(limits, Spec(), h.op, h.len)
      requires off <= chunk.Length && chunk != hdr && chunk !in store.Reach()
      modifies `hdrFill, `body, `head, `frag, `texts, `status, `events, store`text, store.ledger, store.pool,
          store.Reach(), chunk
      ensures Sound({}) && off <= next <= chunk.Length && chunk[next..] == old(chunk[next..])
      ensures Settled(refused, old(store.Spent()), store.Spent())
      ensures store.Outer() == old(store.Outer())
      ensures forall b :: b in store.Reach() ==> b in old(store.Reach()) || fresh(b)
      ensures State() ==
        if refused.None? then Receive(limits, Headed(old(State()), h), old(chunk[..])[off..next])
        else Fail(old(State()), refused.value)
    {
      hide Different, Books, Stock, Sized, Keeps, HeldBy, Joined, Denied, Receive, Frame, FragOk, Fits;
      ghost var all := chunk[..];
      assert hdr[..0] == [];
      if chunk.Length - off >= h.len {
        next := off + h.len;
        assert all[off..next] == chunk[off..off + h.len];
        PayloadRun(limits, State(), h, all[off..next]);
        refused := InPlace(h, chunk, off);
      } else {
        next := chunk.Length;
        assert all[off..next] == chunk[off..];
        PayloadRun(limits, State(), h, all[off..next]);
        refused := Assemble(h, chunk, off);
      }
    }

    /** The frame whose header is complete `n` bytes on. */
    method OpenFrame(h: Head, chunk: array<Byte>, off: nat, n: nat) returns (next: nat, refused: Option<nat>)
      requires Sound({}) && body.None? && !Stopped(status) && FragOk(limits, Spec())
          && Fits(limits, Spec(), h.op, h.len)
      requires off + n <= chunk.Length && chunk != hdr && chunk !in store.Reach()
      requires Receive(limits, State(), chunk[off..off + n]) == Headed(State(), h)
      modifies `hdrFill, `body, `head, `frag, `texts, `status, `events, store`text, store.ledger, store.pool,
          store.Reach(), chunk
      ensures Sound({}) && off + n <= next <= chunk.Length && chunk[next..] == old(chunk[next..])
      ensures Settled(refused, old(store.Spent()), store.Spent())
      ensures store.Outer() == old(store.Outer())
      ensures forall b :: b in store.Reach() ==> b in old(store.Reach()) || fresh(b)
      ensures Heard(old(State()), old(chunk[..])[off..next], refused)
    {
      hide Different, Books, Stock, Sized, Keeps, HeldBy, Joined, Denied, Receive, Headed, FragOk, Fits;
      ghost var before, all := State(), chunk[..];
      assert all[off..off + n] == chunk[off..off + n];
      hdrFill := 0;
      assert hdr[..0] == [] && State() == before.(hdr := []);
      next, refused := Payload(h, chunk, off + n);
      RunOn(limits, before, h, all, off, n, next);
    }

    /** The header is bad, or needs the next chunk. */
    method NoFrame(p: Parsed, chunk: array<Byte>, off: nat)
      requires Sound({}) && body.None? && off < chunk.Length && chunk != hdr
      requires p.Bad? || (p == More && hdrFill + (chunk.Length - off) < 14)
      requires p == More && hdrFill > 0 ==> hdr[hdrFill..hdrFill + (chunk.Length - off)] == chunk[off..]
      modifies `hdrFill, `body, `frag, `status, hdr, store`text, store.ledger, store.pool, store.Reach()
      ensures Sound({}) && body.None?
      ensures State() == if p.Bad? then Fail(old(State()), p.code)
          else old(State()).(hdr := old(hdr[..hdrFill]) + chunk[off..])
      ensures store.Spent() == old(store.Spent()) && store.Reach() <= old(store.Reach())
      ensures store.Outer() == old(store.Outer())
    {
      hide Different, Books, Stock, Sized, Keeps, HeldBy, Joined;
      if p.Bad? { FailWith(p.code, {}); } else { Stash(chunk, off); }
    }

    /** Acts on what the header says: open its frame, fail, or wait for more. */
    method Act(p: Parsed, chunk: array<Byte>, off: nat) returns (next: nat, refused: Option<nat>)
      requires Sound({}) && body.None? && !Stopped(status) && FragOk(limits, Spec())
      requires off < chunk.Length && chunk != hdr && chunk !in store.Reach()
      requires Decides(limits, State(), chunk[off..], p) && (p.Whole? ==> Fits(limits, Spec(), p.head.op, p.head.len))
      requires p == More && hdrFill > 0 ==> hdr[hdrFill..hdrFill + (chunk.Length - off)] == chunk[off..]
      modifies `hdrFill, `body, `head, `frag, `texts, `status, `events, hdr, store`text, store.ledger, store.pool,
          store.Reach(), chunk
      ensures Sound({}) && off < next <= chunk.Length && chunk[next..] == old(chunk[next..])
      ensures Settled(refused, old(store.Spent()), store.Spent())
      ensures store.Outer() == old(store.Outer())
      ensures forall b :: b in store.Reach() ==> b in old(store.Reach()) || fresh(b)
      ensures Heard(old(State()), old(chunk[..])[off..next], refused)
    {
      hide Different, Books, Stock, Sized, Keeps, HeldBy, Joined, Denied, Receive, FragOk, Fits;
      if p.Whole? {
        ghost var n := p.head.size - hdrFill;
        assert chunk[off..][..n] == chunk[off..off + n];
        next, refused := OpenFrame(p.head, chunk, off, p.head.size - hdrFill);
      } else {
        next, refused := chunk.Length, None;
        assert chunk[..][off..next] == chunk[off..];
        NoFrame(p, chunk, off);
      }
    }

    /** A header, and its payload as far as the chunk goes. */
    method Begin(chunk: array<Byte>, off: nat) returns (next: nat, refused: Option<nat>)
      requires Sound({}) && body.None? && !Stopped(status) && FragOk(limits, Spec())
      requires Parse(limits, hdr[..hdrFill], Spec()) == More && hdrFill < 14
      requires off < chunk.Length && chunk != hdr && chunk !in store.Reach()
      modifies `hdrFill, `body, `head, `frag, `texts, `status, `events, hdr, store`text, store.ledger, store.pool,
          store.Reach(), chunk
      ensures Sound({}) && off < next <= chunk.Length && chunk[next..] == old(chunk[next..])
      ensures Settled(refused, old(store.Spent()), store.Spent())
      ensures store.Outer() == old(store.Outer())
      ensures forall b :: b in store.Reach() ==> b in old(store.Reach()) || fresh(b)
      ensures Heard(old(State()), old(chunk[..])[off..next], refused)
    {
      hide Different, Books, Stock, Sized, Keeps, HeldBy, Joined, Denied, Receive, FragOk, Fits, Parse, Decides;
      ghost var before, bytes := State(), chunk[off..];
      var p, take := Peek(chunk, off);
      assert Sound({}) && State() == before && chunk[off..] == bytes && chunk[off..off + take] == bytes[..take];
      HeaderRun(limits, before, bytes, take);
      if p.Whole? { HeadFits(limits, hdr[..hdrFill] + bytes[..take], Spec()); }
      assert p == More ==> take == |bytes| by {
        if hdrFill + take == 14 { FourteenDecide(limits, hdr[..hdrFill] + bytes[..take], Spec()); }
      }
      next, refused := Act(p, chunk, off);
    }

    /** The next frame of a chunk, or the next piece of one. */
    method Next(chunk: array<Byte>, off: nat) returns (next: nat, refused: Option<nat>)
      requires Good() && !Stopped(status) && off < chunk.Length && chunk != hdr && chunk !in store.Reach()
      modifies `hdrFill, `body, `head, `frag, `texts, `status, `events, hdr, store`text, store.ledger, store.pool,
          store.Reach(), chunk
      ensures Sound({}) && off < next <= chunk.Length && chunk[next..] == old(chunk[next..])
      ensures Settled(refused, old(store.Spent()), store.Spent())
      ensures store.Outer() == old(store.Outer())
      ensures forall b :: b in store.Reach() ==> b in old(store.Reach()) || fresh(b)
      ensures Heard(old(State()), old(chunk[..])[off..next], refused)
    {
      hide Different, Books, Stock, Sized, Keeps, HeldBy, Joined, Denied, Receive, FragOk, Fits, Parse;
      if body.Some? {
        next, refused := Continue(chunk, off);
        assert old(chunk[..])[off..next] == chunk[off..next];
      } else {
        next, refused := Begin(chunk, off);
      }
    }

    /**
     * A chunk as far as the connection heeds it. Whatever came before and however the stream is cut, the receiver is
     * afterwards where the byte-by-byte meaning of the stream puts it, up to the first failure or the peer's close.
     * When the ledger refuses a buffer, after `at` bytes, the connection fails there, and nothing it held is left.
     */
    method Heed(chunk: array<Byte>) returns (off: nat, refused: Option<nat>, ghost at: nat)
      requires Good() && !gone && chunk != hdr && chunk !in store.Reach()
      modifies `hdrFill, `body, `head, `frag, `texts, `status, `events, hdr, store`text, store.ledger, store.pool,
          store.Reach(), chunk
      ensures Good() && at <= chunk.Length && off <= chunk.Length
      ensures Settled(refused, old(store.Spent()), store.Spent())
      ensures store.Outer() == old(store.Outer())
      ensures forall b :: b in store.Reach() ==> b in old(store.Reach()) || fresh(b)
      ensures refused.None? ==> State() == Receive(limits, old(State()), old(chunk[..]))
      ensures refused.Some? ==> State() == Fail(Receive(limits, old(State()), old(chunk[..at])), refused.value)
      ensures !Stopped(status) ==> off == chunk.Length
    {
      hide Different, Books, Stock, Sized, Keeps, HeldBy, Joined, Denied, Receive, Fail, Valid, Stopped;
      refused, at, off := None, 0, 0;
      ghost var before, all := State(), chunk[..];
      ReceiveNone(limits, before, all);
      while off < chunk.Length && !Stopped(status) && refused.None?
        invariant Sound({}) && off <= chunk.Length && at <= chunk.Length && chunk != hdr && chunk !in store.Reach()
        invariant Settled(refused, old(store.Spent()), store.Spent())
        invariant store.Outer() == old(store.Outer())
        invariant forall b :: b in store.Reach() ==> b in old(store.Reach()) || fresh(b)
        invariant chunk[off..] == all[off..]
        invariant refused.None? ==> State() == Receive(limits, before, all[..off])
        invariant refused.Some? ==> State() == Fail(Receive(limits, before, all[..at]), refused.value)
        decreases chunk.Length - off
      {
        ReceiveKeeps(limits, before, all[..off]);
        at := off;
        ghost var rest := chunk[..];
        ghost var spent := store.Spent();
        off, refused := Next(chunk, off);
        SettledAfter(refused, old(store.Spent()), spent, store.Spent());
        SameRest(rest, chunk[..], all, at, off);
        Further(limits, before, all, at, off);
      }
      if refused.None? {
        ReceiveKeeps(limits, before, all[..off]);
        ReceiveRest(limits, before, all, off);
      } else {
        FailValid(limits, Receive(limits, before, all[..at]), refused.value);
        FailStops(Receive(limits, before, all[..at]), refused.value);
      }
      assert Valid(limits, State());
    }

    method Mark(s: Status)
      requires Sound({}) && Valid(limits, State().(status := s)) && (gone ==> Stopped(s))
      modifies `status
      ensures Good() && status == s && State() == old(State()).(status := s)
    {
      hide Different, Books, Stock, Sized, Keeps, HeldBy, Joined, Valid;
      ghost var rx := State();
      status := s;
      assert State() == rx.(status := s);
    }

    lemma {:induction false} AnyStatus(s: Status)
      requires Good()
      ensures Valid(limits, State().(status := s))
    {
      hide Different, Books, Stock, Sized, Keeps, HeldBy, Joined, Parse, FragOk, Fits;
    }

    /** The next frame, or the next piece of one, while the connection is closing; a failure leaves it closing. */
    method Ignored(chunk: array<Byte>, off: nat) returns (next: nat, refused: bool)
      requires Good() && status == Closing && off < chunk.Length && chunk != hdr && chunk !in store.Reach()
      modifies `hdrFill, `body, `head, `frag, `texts, `status, `events, hdr, store`text, store.ledger, store.pool,
          store.Reach(), chunk
      ensures Good() && status == Closing && events == old(events) && off < next <= chunk.Length
      ensures Noted(refused, old(store.Spent()), store.Spent())
      ensures store.Outer() == old(store.Outer())
      ensures forall b :: b in store.Reach() ==> b in old(store.Reach()) || fresh(b)
    {
      hide Different, Books, Stock, Sized, Keeps, HeldBy, Joined, Denied, Receive, Fail, Valid, Noted, Settled;
      ghost var rx, spent, all := State(), store.Spent(), chunk[..];
      var code;
      next, code := Next(chunk, off);
      ClosingIsSilent(limits, rx, all[off..next], code);
      SettledNoted(code, spent, store.Spent());
      refused := code.Some?;
      Mark(Closing);
    }

    /**
     * What comes after the first failure or the peer's close, from `off` on: until the socket is gone it is read as
     * in a closing handshake, each new failure dropping what there is. Nothing of it is delivered.
     */
    method Linger(chunk: array<Byte>, off: nat) returns (refused: bool)
      requires Good() && !gone && Stopped(status) && off <= chunk.Length && chunk != hdr && chunk !in store.Reach()
      modifies `hdrFill, `body, `head, `frag, `texts, `status, `events, hdr, store`text, store.ledger, store.pool,
          store.Reach(), chunk
      ensures Good() && Stopped(status) && Seen(old(State()), State())
      ensures Noted(refused, old(store.Spent()), store.Spent())
      ensures store.Outer() == old(store.Outer())
      ensures forall b :: b in store.Reach() ==> b in old(store.Reach()) || fresh(b)
    {
      hide Books, Stock, Sized, Keeps, HeldBy, Joined, Different, Valid, Noted;
      var verdict, i := status, off;
      ghost var told := events;
      refused := false;
      NotedNone(store.Spent());
      AnyStatus(Closing);
      Mark(Closing);
      while i < chunk.Length
        invariant Good() && status == Closing && events == told && i <= chunk.Length
        invariant chunk != hdr && chunk !in store.Reach()
        invariant Noted(refused, old(store.Spent()), store.Spent())
        invariant store.Outer() == old(store.Outer())
        invariant forall b :: b in store.Reach() ==> b in old(store.Reach()) || fresh(b)
        decreases chunk.Length - i
      {
        ghost var spent := store.Spent();
        var no;
        i, no := Ignored(chunk, i);
        NotedAfter(refused, no, old(store.Spent()), spent, store.Spent());
        refused := refused || no;
      }
      AnyStatus(verdict);
      Mark(verdict);
    }

    /**
     * `_onData`: one socket chunk. The receiver is where the byte-by-byte meaning of the stream puts it, as far as that
     * can be seen; after a first failure or the peer's close, that is its verdict and what it had delivered.
     */
    method OnData(chunk: array<Byte>) returns (refused: Option<nat>, late: bool, ghost at: nat)
      requires Good() && chunk != hdr && chunk !in store.Reach()
      modifies `hdrFill, `body, `head, `frag, `texts, `status, `events, hdr, store`text, store.ledger, store.pool,
          store.Reach(), chunk
      ensures Good() && at <= chunk.Length
      ensures Noted(refused.Some? || late, old(store.Spent()), store.Spent())
      ensures refused.Some? ==> refused.value == 1013 || refused.value == 1011
      ensures store.Outer() == old(store.Outer())
      ensures forall b :: b in store.Reach() ==> b in old(store.Reach()) || fresh(b)
      ensures refused.None? ==> Seen(Receive(limits, old(State()), old(chunk[..])), State())
      ensures refused.Some? ==>
        Seen(Fail(Receive(limits, old(State()), old(chunk[..at])), refused.value), State())
      ensures gone ==> State() == old(State())
    {
      hide Different, Books, Stock, Sized, Keeps, HeldBy, Joined, Denied, Receive, Fail, Valid, Noted;
      refused, late, at := None, false, 0;
      NotedNone(store.Spent());
      if Stopped(status) { StoppedStays(limits, State(), chunk[..]); }
      if gone { return; }
      var off: nat := 0;
      ghost var spent := store.Spent();
      if !Stopped(status) {
        off, refused, at := Heed(chunk);
        SettledNoted(refused, spent, store.Spent());
      }
      if Stopped(status) {
        ghost var mid := store.Spent();
        late := Linger(chunk, off);
        NotedAfter(refused.Some?, late, spent, mid, store.Spent());
      }
    }

    /** `close`: a frame that is being received goes on, other frames are ignored from now on. */
    method Close()
      requires Good()
      modifies `status
      ensures Good() && State() == CloseLocally(old(State()))
    {
      hide Different, Books, Stock, Sized, Keeps, HeldBy, Joined, FragOk, Fits, Parse;
      if status == Open { status := Closing; }
    }

    /** `_destroy`: the storage of the receiving side has no other consumer, so it returns at once. */
    method Destroy()
      requires Good()
      modifies `hdrFill, `body, `frag, `status, `gone, store`text, store.ledger, store.pool, store.Reach()
      ensures Good() && gone && store.text == map[] && store.Spent() == old(store.Spent())
      ensures store.Outer() == old(store.Outer()) && store.pool.out == old(store.pool.out - Slabs(Held()))
      ensures store.Reach() <= old(store.Reach())
      ensures forall p :: p in old(Held()) ==> Wiped(p)
      ensures State() == Rx([], None, None, if Stopped(old(status)) then old(status) else Halted, events)
    {
      hide Different, Books, Stock, Sized, Keeps, Joined, Own, Buffers, Bufs, Wiped;
      assert Held() == store.text.Keys;
      gone := true;
      if !Stopped(status) { status := Halted; }
      DropAll({});
      HeldSplit(None, None);
      assert hdr[..0] == [] && store.text.Keys == {} && Slabs({}) == {};
    }

    /**
     * The reference balance of the receiving side, after every chunk, every frame and every failure: the account has
     * exactly one reassembly lease for each stored part, with one reference, the capacity of its buffer and the bytes
     * in it. No two parts share a buffer or a lease, the slabs among the buffers are lent by the pool, and what the
     * pool keeps is all zero.
     */
    lemma {:induction false} Balanced()
      requires Sound({})
      ensures var leases := V.Kind(store.ledger.State(), store.key, L.Reassembly);
        && |leases| == |Held()| == LiveParts(State())
        && (forall id :: id in leases <==> exists p :: p in Held() && p.lease == id)
        && (forall p :: p in Held() ==> Backed(leases, p) && (p.pooled <==> p.buf in store.pool.out))
      ensures forall p, q :: p in Held() && q in Held() && p != q ==> p.buf != q.buf && p.lease != q.lease
      ensures store.pool.Clean()
    {
      hide V.OfKind, Different, Joined, Books, Pool.Valid, Pool.Clean, Sized, Separate, HeldBy, Valid;
      var held := store.text.Keys;
      LentParts(store.ledger.State(), store.key, store.pool, held);
      CountHeld(body, frag);
    }
  }

  /** Parts in hand, and nothing else of them was touched. */
  ghost predicate SameIn(also: set<Part>, text: map<Part, seq<Byte>>, next: map<Part, seq<Byte>>) {
    forall p :: p in also && p in text ==> p in next && next[p] == text[p]
  }

  /** A part in hand took the place of another. */
  lemma {:induction false} Replaced(
    held: set<Part>, also: set<Part>, text: map<Part, seq<Byte>>, p: Part, q: Part, bytes: seq<Byte>)
    requires also + {p} !! held && text.Keys == held + (also + {p}) && p !in also && (q == p || q !in text)
    ensures var next := (text - {p})[q := bytes];
      also + {q} !! held && next.Keys == held + (also + {q}) && q !in also && SameIn(also, text, next)
  {}

  lemma {:induction false} KeepsReplaced(
    frag: Option<Kept>, text: map<Part, seq<Byte>>, texts: seq<seq<Byte>>, p: Part, q: Part, bytes: seq<Byte>)
    requires Keeps(frag, text, texts) && p !in PartsOf(frag) && (q == p || q !in text)
    ensures Keeps(frag, (text - {p})[q := bytes], texts)
  {
    var next := (text - {p})[q := bytes];
    if frag.Some? {
      forall i | 0 <= i < |texts| ensures KeepsAt(frag.value.parts, next, texts, i) {
        assert KeepsAt(frag.value.parts, text, texts, i) && frag.value.parts[i] in PartsOf(frag);
      }
    }
  }

  /** The kept fragments hold what was kept. */
  lemma {:induction false} KeptContents(frag: Option<Kept>, text: map<Part, seq<Byte>>, texts: seq<seq<Byte>>)
    requires Keeps(frag, text, texts) && frag.Some?
    ensures AllIn(text, frag.value.parts) && Contents(text, frag.value.parts) == Joined(texts)
    ensures frag.value.bytes == |Joined(texts)|
  {
    var parts := frag.value.parts;
    forall p | p in parts ensures p in text {
      var i: nat :| i < |parts| && parts[i] == p;
      assert KeepsAt(parts, text, texts, i);
    }
    KeptJoined(parts, text, texts);
  }

  lemma {:induction false} KeptJoined(parts: seq<Part>, text: map<Part, seq<Byte>>, texts: seq<seq<Byte>>)
    requires AllIn(text, parts) && |parts| == |texts| && forall i :: 0 <= i < |texts| ==> KeepsAt(parts, text, texts, i)
    ensures Contents(text, parts) == Joined(texts)
    decreases |texts|
  {
    if texts != [] {
      var n := |texts| - 1;
      forall i | 0 <= i < n ensures KeepsAt(parts[..n], text, texts[..n], i) { assert KeepsAt(parts, text, texts, i); }
      KeptJoined(parts[..n], text, texts[..n]);
      assert KeepsAt(parts, text, texts, n);
    }
  }

  lemma {:induction false} OwnedApart(own: set<Part>, also: set<Part>, held: set<Part>, keys: set<Part>)
    requires own + also !! held && keys == held + (own + also) && own !! also
    ensures own <= keys && own !! held && also !! held && keys - own == held + also
  {}

  lemma {:induction false} FragApart(pool: Pool, held: set<Part>, p: Part, parts: seq<Part>)
    requires Stock(pool, held) && p in held && (forall q :: q in parts ==> q in held) && p !in parts
    ensures p.buf !in Bufs(Members(parts))
  {
    forall q | q in parts ensures q.buf != p.buf { assert Apart(p, q); }
  }

  lemma {:induction false} HeldSplit(body: Option<Part>, frag: Option<Kept>)
    ensures HeldBy(body, frag) == Own(body) + HeldBy(None, frag) && HeldBy(None, frag) == Members(PartsOf(frag))
  {}

  /** A header and what follows it. */
  lemma {:induction false} RunOn(z: Limits, rx: Rx, h: Head, all: seq<Byte>, off: nat, n: nat, next: nat)
    requires off + n <= next <= |all| && Receive(z, rx, all[off..off + n]) == Headed(rx, h)
    ensures Receive(z, Headed(rx.(hdr := []), h), all[off + n..next]) == Receive(z, rx, all[off..next])
  {
    hide Receive;
    assert all[off..next] == all[off..off + n] + all[off + n..next];
    ReceiveAppend(z, rx, all[off..off + n], all[off + n..next]);
  }

  lemma {:induction false} ReceiveNone(z: Limits, rx: Rx, all: seq<Byte>)
    ensures Receive(z, rx, all[..0]) == rx
  {}

  lemma {:induction false} Further(z: Limits, rx: Rx, all: seq<Byte>, off: nat, next: nat)
    requires off <= next <= |all|
    ensures Receive(z, rx, all[..next]) == Receive(z, Receive(z, rx, all[..off]), all[off..next])
  {
    assert all[..next] == all[..off] + all[off..next];
    ReceiveAppend(z, rx, all[..off], all[off..next]);
  }

  lemma {:induction false} SameRest(s: seq<Byte>, t: seq<Byte>, all: seq<Byte>, off: nat, next: nat)
    requires off <= next <= |all| && |s| == |t| == |all| && s[off..] == all[off..] && t[next..] == s[next..]
    ensures t[next..] == all[next..] && s[off..next] == all[off..next]
  {
    assert s[next..] == s[off..][next - off..] && all[next..] == all[off..][next - off..];
    assert s[off..next] == s[off..][..next - off] && all[off..next] == all[off..][..next - off];
  }

  /** After a stop, or at the end, the rest makes no difference. */
  lemma {:induction false} ReceiveRest(z: Limits, rx: Rx, all: seq<Byte>, off: nat)
    requires off <= |all|
    ensures off == |all| || Stopped(Receive(z, rx, all[..off]).status) ==>
        Receive(z, rx, all[..off]) == Receive(z, rx, all)
  {
    Further(z, rx, all, off, |all|);
    assert all[..|all|] == all;
    if Stopped(Receive(z, rx, all[..off]).status) { StoppedStays(z, Receive(z, rx, all[..off]), all[off..|all|]); }
  }

  lemma {:induction false} LentParts(l: L.Ledger, key: Name, pool: Pool, held: set<Part>)
    requires Books(l, key, held) && Stock(pool, held)
    ensures var leases := V.Kind(l, key, L.Reassembly);
      && |leases| == |held|
      && (forall id :: id in leases <==> exists p :: p in held && p.lease == id)
      && (forall p :: p in held ==> Backed(leases, p) && (p.pooled <==> p.buf in pool.out))
    ensures forall p, q :: p in held && q in held && p != q ==> p.buf != q.buf && p.lease != q.lease
    ensures pool.Clean()
  {
    var all := V.LeasesOf(l, key);
    var leases := V.OfKind(all, L.Reassembly);
    forall p, q | p in held && q in held && p != q ensures p.buf != q.buf && p.lease != q.lease { assert Apart(p, q); }
    forall p | p in held ensures Backed(leases, p) && (p.pooled <==> p.buf in pool.out) {
      assert Lent(pool.out, Buffers(pool.idle), p) && Backed(all, p);
    }
    forall id ensures id in leases <==> exists p :: p in held && p.lease == id {
      if id in leases { assert Named(held, id); }
    }
    LeaseForEach(held, leases.Keys);
  }

  lemma {:induction false} LeaseForEach(held: set<Part>, ids: set<nat>)
    requires forall p, q :: p in held && q in held && p != q ==> p.lease != q.lease
    requires forall id :: id in ids <==> exists p :: p in held && p.lease == id
    ensures |ids| == |held|
    decreases |held|
  {
    if held == {} {
      assert ids == {};
    } else {
      var p :| p in held;
      forall id ensures id in ids - {p.lease} <==> exists q :: q in held - {p} && q.lease == id {
        if id in ids - {p.lease} {
          var q :| q in held && q.lease == id;
          assert q in held - {p};
        }
      }
      assert p.lease in ids;
      LeaseForEach(held - {p}, ids - {p.lease});
    }
  }

  lemma {:induction false} CountMembers(parts: seq<Part>)
    requires Different(parts)
    ensures |Members(parts)| == |parts|
    decreases |parts|
  {
    if parts == [] {
      assert Members(parts) == {};
    } else {
      var last := |parts| - 1;
      LaterPart(parts, last);
      OneMore(parts, last);
      assert parts[..last + 1] == parts;
      CountMembers(parts[..last]);
    }
  }

  lemma {:induction false} CountHeld(body: Option<Part>, frag: Option<Kept>)
    requires Different(PartsOf(frag)) && (body.Some? ==> body.value !in PartsOf(frag))
    ensures |HeldBy(body, frag)| == |Own(body)| + |PartsOf(frag)| && |Own(body)| == if body.Some? then 1 else 0
  {
    CountMembers(PartsOf(frag));
    HeldSplit(body, frag);
    assert Own(body) !! Members(PartsOf(frag));
  }

  lemma {:induction false} DataIs(rx: Rx, op: nat, fin: bool, payload: seq<Byte>)
    requires (op == TEXT || op == BIN || op == CONT) && rx.status != Closing
    ensures Frame(rx, op, fin, payload) ==
      if rx.frag.Some? != (op == CONT) then Fail(rx, 1002)
      else if !fin then Keep(rx, if op == CONT then 0 else op, payload)
      else if op == CONT then Message(rx.(frag := None), rx.frag.value.op, Joined(rx.frag.value.parts) + payload)
      else Message(rx, op, payload)
  {}

  lemma {:induction false} FitsSafe(z: Limits, frag: Option<Frag>, op: nat, len: nat)
    requires Fits(z, frag, op, len) && z.maxMessage + 125 <= L.MAX_SAFE
    ensures len < L.MAX_SAFE && (op < 8 ==> len + FragBytes(frag) <= L.MAX_SAFE)
  {}

  lemma {:induction false} FailStops(rx: Rx, code: nat)
    ensures Stopped(Fail(rx, code).status)
  {}

  /** In a closing handshake nothing is delivered. */
  lemma {:induction false} ReceiveClosing(z: Limits, rx: Rx, bytes: seq<Byte>)
    requires rx.status == Closing || Stopped(rx.status)
    ensures Receive(z, rx, bytes).events == rx.events
    decreases |bytes|
  {
    hide Parse;
    if bytes != [] { ReceiveClosing(z, Feed(z, rx, bytes[0]), bytes[1..]); }
  }

  lemma {:induction false} ClosingIsSilent(z: Limits, rx: Rx, bytes: seq<Byte>, refused: Option<nat>)
    requires Valid(z, rx) && rx.status == Closing && z.maxFragments > 0
    ensures var next := if refused.None? then Receive(z, rx, bytes) else Fail(rx, refused.value);
      next.events == rx.events && Valid(z, next.(status := Closing))
  {
    hide Receive, Parse;
    ReceiveClosing(z, rx, bytes);
    ReceiveKeeps(z, rx, bytes);
    if refused.Some? { FailValid(z, rx, refused.value); }
  }

  lemma {:induction false} FailValid(z: Limits, rx: Rx, code: nat)
    ensures Valid(z, Fail(rx, code))
  {}

  lemma {:induction false} StartValid(z: Limits)
    ensures Valid(z, START)
  {}

  lemma {:induction false} KeepsSame(
    frag: Option<Kept>, text: map<Part, seq<Byte>>, next: map<Part, seq<Byte>>, texts: seq<seq<Byte>>)
    requires Keeps(frag, text, texts) && forall p :: p in PartsOf(frag) && p in text ==> p in next && next[p] == text[p]
    ensures Keeps(frag, next, texts)
  {
    if frag.Some? {
      forall i | 0 <= i < |texts| ensures KeepsAt(frag.value.parts, next, texts, i) {
        assert KeepsAt(frag.value.parts, text, texts, i) && frag.value.parts[i] in PartsOf(frag);
      }
    }
  }

  lemma {:induction false} JoinedMore(texts: seq<seq<Byte>>, t: seq<Byte>)
    ensures Joined(texts + [t]) == Joined(texts) + t
  {
    assert (texts + [t])[..|texts|] == texts;
  }

  lemma {:induction false} HeldMore(frag: Option<Kept>, op: nat, part: Part, n: nat)
    ensures var f := if frag.Some? then frag.value else Kept(op, [], 0);
      HeldBy(None, Some(Kept(f.op, f.parts + [part], f.bytes + n))) == HeldBy(None, frag) + {part}
  {}

  lemma {:induction false} NoneKept(op: nat, text: map<Part, seq<Byte>>)
    ensures Keeps(Some(Kept(op, [], 0)), text, []) && |Joined([])| == 0
  {}

  lemma {:induction false} KeepsMore(
    f: Kept, text: map<Part, seq<Byte>>, texts: seq<seq<Byte>>, part: Part, payload: seq<Byte>)
    requires Keeps(Some(f), text, texts) && part !in f.parts && part in text && text[part] == payload
        && part.len == |payload|
    ensures Keeps(Some(Kept(f.op, f.parts + [part], f.bytes + part.len)), text, texts + [payload])
    ensures |texts| == |f.parts| && |Joined(texts + [payload])| == f.bytes + part.len
  {
    JoinedMore(texts, payload);
    var parts, all := f.parts + [part], texts + [payload];
    forall i | 0 <= i < |all| ensures KeepsAt(parts, text, all, i) {
      assert i < |texts| ==> KeepsAt(f.parts, text, texts, i);
    }
    forall i, j | 0 <= i < j < |parts| ensures parts[i] != parts[j] { assert parts[i] in f.parts; }
  }

  lemma {:induction false} KeepsWithout(frag: Option<Kept>, text: map<Part, seq<Byte>>, texts: seq<seq<Byte>>,
      gone: set<Part>)
    requires Keeps(frag, text, texts) && forall p :: p in gone ==> p !in PartsOf(frag)
    ensures Keeps(frag, text - gone, texts)
  {
    if frag.Some? {
      forall i | 0 <= i < |texts| ensures KeepsAt(frag.value.parts, text - gone, texts, i) {
        assert KeepsAt(frag.value.parts, text, texts, i) && frag.value.parts[i] in PartsOf(frag);
      }
    }
  }
}
