/** What a server refuses, and with which code, read off the bytes of a frame alone. */
module WsRefusals {
  // runtime/hermit/gateway/ws.js against sections 5.2 to 5.5 and 7.4 of RFC 6455.

  import opened Common
  import Utf8
  import opened WsModel
  import opened WsTheorems

  // ------------------------------------------------------------------ headers

  /** The payload length of a frame, in the form its second byte announces. */
  function Announced(h: seq<Byte>): nat
    requires |h| >= 14
  {
    if h[1] % 128 == 126 then NetworkOrder(h[2..4])
    else if h[1] % 128 == 127 then NetworkOrder(h[2..10])
    else h[1] % 128
  }

  /** A reserved bit, no mask, or sixteen bits of length where seven do. */
  predicate Malformed(h: seq<Byte>)
    requires |h| >= 14
  {
    h[0] / 16 % 8 != 0 || h[1] < 128 || (h[1] % 128 == 126 && Announced(h) < 126)
  }

  /** Sixty-four bits of length where sixteen do, or a control frame that is long or in parts. */
  predicate Improper(h: seq<Byte>)
    requires |h| >= 14
  {
    (h[1] % 128 == 127 && Announced(h) < 65536) || (h[0] % 16 >= 8 && (Announced(h) > 125 || h[0] < 128))
  }

  /** A data frame that the limits on bytes or on parts have no room for. */
  predicate Excessive(z: Limits, frag: Option<Frag>, h: seq<Byte>)
    requires |h| >= 14
  {
    && h[0] % 16 < 8
    && (Announced(h) + FragBytes(frag) > z.maxMessage || (frag.Some? && |frag.value.parts| >= z.maxFragments))
  }

  /** The connection has failed with this code and has delivered nothing. */
  predicate FailedWith(before: Rx, after: Rx, code: nat) {
    after.status == Failed(code) && after.events == before.events && after.frag.None? && after.body.None?
  }

  lemma {:induction false} Two(s: seq<Byte>)
    requires |s| == 2
    ensures NetworkOrder(s) == U16(s[0], s[1])
  {
    var init := s[..1];
    assert init[..0] == [];
    assert NetworkOrder(init) == s[0];
  }

  lemma {:induction false} Four(s: seq<Byte>)
    requires |s| == 4
    ensures NetworkOrder(s) == U32(s[0], s[1], s[2], s[3])
  {
    assert s[..3][..2] == s[..2];
    Two(s[..2]);
    assert NetworkOrder(s[..3]) == NetworkOrder(s[..2]) * 256 + s[2];
  }

  lemma {:induction false} Eight(s: seq<Byte>)
    requires |s| == 8
    ensures NetworkOrder(s) == U32(s[0], s[1], s[2], s[3]) * 4294967296 + U32(s[4], s[5], s[6], s[7])
  {
    Four(s[..4]);
    assert s[..7][..6] == s[..6] && s[..6][..5] == s[..5] && s[..5][..4] == s[..4];
    assert NetworkOrder(s[..5]) == NetworkOrder(s[..4]) * 256 + s[4];
    assert NetworkOrder(s[..6]) == NetworkOrder(s[..5]) * 256 + s[5];
    assert NetworkOrder(s[..7]) == NetworkOrder(s[..6]) * 256 + s[6];
  }

  /** What the fields of a header decide. */
  lemma {:induction false} ParseDecides(z: Limits, h: seq<Byte>, frag: Option<Frag>)
    requires |h| >= 14
    ensures var p, n := Parse(z, h, frag), Announced(h);
      && (Malformed(h) ==> p == Bad(1002))
      && (!Malformed(h) && n > 0x7fffffff ==> p == Bad(1009))
      && (!Malformed(h) && n <= 0x7fffffff && Improper(h) ==> p == Bad(1002))
      && (!Malformed(h) && n <= 0x7fffffff && !Improper(h) && Excessive(z, frag, h) ==> p == Bad(1009))
      && (!Malformed(h) && n <= 0x7fffffff && !Improper(h) && !Excessive(z, frag, h) ==>
          var at := if h[1] % 128 == 126 then 4 else if h[1] % 128 == 127 then 10 else 2;
          p == Whole(Head(h[0] >= 128, h[0] % 16, n, h[at..at + 4], at + 4)))
  {
    if h[1] % 128 == 126 {
      Two(h[2..4]);
    } else if h[1] % 128 == 127 {
      Eight(h[2..10]);
    }
  }

  /**
   * Fourteen bytes at the beginning of a frame decide: they are refused with 1002 or with 1009 exactly as the fields
   * of the header and what is already stored of the message say, and otherwise they open the frame they announce.
   */
  lemma {:induction false} HeaderDecided(z: Limits, rx: Rx, h: seq<Byte>)
    requires Between(rx) && rx.status == Open && |h| >= 14
    ensures var r, n := Receive(z, rx, h), Announced(h);
      && (Malformed(h) ==> FailedWith(rx, r, 1002))
      && (!Malformed(h) && n > 0x7fffffff ==> FailedWith(rx, r, 1009))
      && (!Malformed(h) && n <= 0x7fffffff && Improper(h) ==> FailedWith(rx, r, 1002))
      && (!Malformed(h) && n <= 0x7fffffff && !Improper(h) && Excessive(z, rx.frag, h) ==> FailedWith(rx, r, 1009))
      && (!Malformed(h) && n <= 0x7fffffff && !Improper(h) && !Excessive(z, rx.frag, h) ==>
          var at := if h[1] % 128 == 126 then 4 else if h[1] % 128 == 127 then 10 else 2;
          Receive(z, rx, h[..at + 4]) == Headed(rx, Head(h[0] >= 128, h[0] % 16, n, h[at..at + 4], at + 4)))
  {
    ParseDecides(z, h, rx.frag);
    assert rx.hdr + h == h;
    if Parse(z, h, rx.frag).Bad? {
      FeedBad(z, rx, h);
    } else {
      FeedWhole(z, rx, h);
    }
  }

  // ------------------------------------------------------------------ frames

  /** The close codes a peer may send (section 7.4 of RFC 6455 and its registry). */
  predicate Sendable(code: nat) {
    code in {1000, 1001, 1002, 1003, 1007, 1008, 1009, 1010, 1011, 1012, 1013, 1014} || 3000 <= code < 5000
  }

  lemma {:induction false} SendableIsValid(code: nat)
    ensures ValidCloseCode(code) <==> Sendable(code)
  {}

  lemma {:induction false} ConcatLast(parts: seq<seq<Byte>>, p: seq<Byte>)
    ensures Concat(parts + [p]) == Concat(parts) + p
    decreases |parts|
  {
    if parts == [] {
      assert [p][1..] == [] && Concat([p]) == p + Concat([]);
      assert [] + [p] == [p];
    } else {
      ConcatLast(parts[1..], p);
      assert (parts + [p])[1..] == parts[1..] + [p];
      assert parts[0] + (Concat(parts[1..]) + p) == parts[0] + Concat(parts[1..]) + p;
    }
  }

  lemma {:induction false} JoinedIsConcat(parts: seq<seq<Byte>>)
    ensures Joined(parts) == Concat(parts)
    decreases |parts|
  {
    if parts != [] {
      var init, last := parts[..|parts| - 1], parts[|parts| - 1];
      JoinedIsConcat(init);
      ConcatLast(init, last);
      assert init + [last] == parts;
    }
  }

  /** The last part of a message delivers its parts one behind another, a text only if they are UTF-8 together. */
  lemma {:induction false} LastPartDecided(z: Limits, rx: Rx, f: Sent)
    requires Between(rx) && rx.status == Open && Acceptable(z, rx.frag, f) && f.op == CONT && f.fin && rx.frag.Some?
    ensures var r, whole := Receive(z, rx, EncodeFrame(f)), Concat(rx.frag.value.parts) + f.payload;
      && (rx.frag.value.op == BIN ==> r == rx.(frag := None, events := rx.events + [Binary(whole)]))
      && (rx.frag.value.op == TEXT && Utf8.WellFormed(whole) ==>
          r == rx.(frag := None, events := rx.events + [Text(whole)]))
      && (rx.frag.value.op == TEXT && !Utf8.WellFormed(whole) ==> FailedWith(rx, r, 1007))
  {
    FrameReceived(z, rx, f);
    JoinedIsConcat(rx.frag.value.parts);
  }

  /**
   * What an open connection makes of an unfragmented text, of a fragment, of a continuation and of a strange opcode.
   */
  lemma {:induction false} DataDecided(z: Limits, rx: Rx, f: Sent)
    requires Between(rx) && rx.status == Open && Acceptable(z, rx.frag, f) && f.op !in {CLOSE, PING, PONG}
    ensures var r := Receive(z, rx, EncodeFrame(f));
      && (f.op !in {CONT, TEXT, BIN} ==> FailedWith(rx, r, 1002))
      && (f.op == CONT && rx.frag.None? ==> FailedWith(rx, r, 1002))
      && (f.op in {TEXT, BIN} && rx.frag.Some? ==> FailedWith(rx, r, 1002))
      && (f.op == BIN && f.fin && rx.frag.None? ==> r == rx.(events := rx.events + [Binary(f.payload)]))
      && (f.op == TEXT && f.fin && rx.frag.None? && Utf8.WellFormed(f.payload) ==>
          r == rx.(events := rx.events + [Text(f.payload)]))
      && (f.op == TEXT && f.fin && rx.frag.None? && !Utf8.WellFormed(f.payload) ==> FailedWith(rx, r, 1007))
      && (f.op in {TEXT, BIN} && !f.fin && rx.frag.None? ==> r == rx.(frag := Some(Frag(f.op, [f.payload]))))
      && (f.op == CONT && !f.fin && rx.frag.Some? ==>
          r == rx.(frag := Some(Frag(rx.frag.value.op, rx.frag.value.parts + [f.payload]))))
  {
    FrameReceived(z, rx, f);
    assert [] + [f.payload] == [f.payload];
  }

  /** A control frame, alone or between the parts of a message, leaves what is stored of the message alone. */
  lemma {:induction false} ControlDecided(z: Limits, rx: Rx, f: Sent)
    requires Between(rx) && rx.status == Open && Acceptable(z, rx.frag, f) && f.op in {CLOSE, PING, PONG}
    ensures var r, p := Receive(z, rx, EncodeFrame(f)), f.payload;
      && (f.op == PING ==> r == rx.(events := rx.events + [Ping(p)]))
      && (f.op == PONG ==> r == rx.(events := rx.events + [Pong(p)]))
      && (f.op == CLOSE && p == [] ==> r.status == Ended(1005, []) && r.events == rx.events)
      && (f.op == CLOSE && |p| == 1 ==> FailedWith(rx, r, 1002))
      && (f.op == CLOSE && |p| > 1 && !Sendable(NetworkOrder(p[..2])) ==> FailedWith(rx, r, 1002))
      && (f.op == CLOSE && |p| > 1 && Sendable(NetworkOrder(p[..2])) && !Utf8.WellFormed(p[2..]) ==>
          FailedWith(rx, r, 1007))
      && (f.op == CLOSE && |p| > 1 && Sendable(NetworkOrder(p[..2])) && Utf8.WellFormed(p[2..]) ==>
          r.status == Ended(NetworkOrder(p[..2]), p[2..]) && r.events == rx.events)
  {
    FrameReceived(z, rx, f);
    if f.op == CLOSE && |f.payload| > 1 {
      Two(f.payload[..2]);
      SendableIsValid(NetworkOrder(f.payload[..2]));
    }
  }

  /** While our own close is under way, nothing but the peer's close is looked at. */
  lemma {:induction false} ClosingIgnores(z: Limits, rx: Rx, f: Sent)
    requires Between(rx) && rx.status == Closing && Acceptable(z, rx.frag, f) && f.op != CLOSE
    ensures Receive(z, rx, EncodeFrame(f)) == rx
  {
    FrameReceived(z, rx, f);
  }

  /** A close of our own begins once; what is refused after it is not told to the peer a second time. */
  lemma {:induction false} ClosingDecided(z: Limits, rx: Rx, h: seq<Byte>)
    requires Between(rx) && |h| >= 14 && Malformed(h)
    ensures rx.status == Open ==> CloseLocally(rx) == rx.(status := Closing)
    ensures rx.status == Closing ==>
      CloseLocally(rx) == rx && Receive(z, rx, h).status == Halted && Receive(z, rx, h).events == rx.events
  {
    ParseDecides(z, h, rx.frag);
    assert rx.hdr + h == h;
    FeedBad(z, rx, h);
  }
}
