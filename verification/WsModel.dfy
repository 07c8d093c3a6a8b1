/**
 * The receiving half of runtime/hermit/gateway/ws.js, one byte at a time: what a masked client stream means
 * (sections 5.2 to 5.5 of RFC 6455). The object that handles whole socket chunks is proved equal to this fold.
 *
 * Receiving is followed up to the first failure. A failure while a closing handshake is already under way sends no
 * code; the receive path is then out of step with the stream, and is `Halted` here.
 */
module WsModel {
  import opened Common
  import Utf8

  const CONT := 0
  const TEXT := 1
  const BIN := 2
  const CLOSE := 8
  const PING := 9
  const PONG := 10

  type Mask = m: seq<Byte> | |m| == 4 witness [0, 0, 0, 0]

  datatype Limits = Limits(maxMessage: nat, maxFragments: nat)

  datatype Event = Text(bytes: seq<Byte>) | Binary(bytes: seq<Byte>) | Ping(bytes: seq<Byte>) | Pong(bytes: seq<Byte>)

  datatype Status = Open | Closing | Failed(code: nat) | Halted | Ended(code: nat, reason: seq<Byte>)

  datatype Head = Head(fin: bool, op: nat, len: nat, mask: Mask, size: nat)

  datatype Parsed = More | Bad(code: nat) | Whole(head: Head)

  datatype Body = Body(head: Head, raw: seq<Byte>)

  datatype Frag = Frag(op: nat, parts: seq<seq<Byte>>)

  datatype Rx = Rx(hdr: seq<Byte>, body: Option<Body>, frag: Option<Frag>, status: Status, events: seq<Event>)

  const START := Rx([], None, None, Open, [])

  // ------------------------------------------------------------------ masking

  /** Exclusive or of two bytes. */
  function Xor(a: Byte, b: Byte): Byte { ((a as bv8) ^ (b as bv8)) as int }

  lemma {:induction false} XorTwice(a: Byte, b: Byte)
    ensures Xor(Xor(a, b), b) == a
  {
    Bits((a as bv8) ^ (b as bv8));
    assert Xor(Xor(a, b), b) == (((a as bv8) ^ (b as bv8)) ^ (b as bv8)) as int;
    Cancels(a as bv8, b as bv8);
    Number(a);
  }

  lemma {:induction false} Bits(x: bv8)
    ensures (x as int) as bv8 == x
  {}

  lemma {:induction false} Number(a: Byte)
    ensures (a as bv8) as int == a
  {
    assert a as int % 256 == a;
    assert (a as bv8) as int < 256;
  }

  lemma {:induction false} Cancels(x: bv8, y: bv8)
    ensures (x ^ y) ^ y == x
  {}

  /** `unmask`: the mask repeats every four bytes. */
  function Unmask(s: seq<Byte>, mask: Mask): (r: seq<Byte>)
    ensures |r| == |s|
  {
    seq(|s|, i requires 0 <= i < |s| => Xor(s[i], mask[i % 4]))
  }

  /** Masking is its own inverse. */
  lemma {:induction false} UnmaskTwice(s: seq<Byte>, mask: Mask)
    ensures Unmask(Unmask(s, mask), mask) == s
  {
    hide Xor;
    forall i | 0 <= i < |s| ensures Unmask(Unmask(s, mask), mask)[i] == s[i] { XorTwice(s[i], mask[i % 4]); }
  }

  // ------------------------------------------------------------------ headers

  function Joined(parts: seq<seq<Byte>>): seq<Byte> {
    if parts == [] then [] else Joined(parts[..|parts| - 1]) + parts[|parts| - 1]
  }

  function FragBytes(frag: Option<Frag>): nat { if frag.Some? then |Joined(frag.value.parts)| else 0 }

  function U16(a: Byte, b: Byte): nat { a * 256 + b }

  function U32(a: Byte, b: Byte, c: Byte, d: Byte): nat { a * 16777216 + b * 65536 + c * 256 + d }

  /** The limits are decided from the header before anything is stored. */
  function Limited(z: Limits, h: seq<Byte>, frag: Option<Frag>, len: nat, hl: nat): Parsed
    requires |h| >= 2
  {
    var fin, op := h[0] >= 128, h[0] % 16;
    var control := op >= 8;
    if control && (len > 125 || !fin) then Bad(1002)
    else if !control && len + FragBytes(frag) > z.maxMessage then Bad(1009)
    else if !control && frag.Some? && |frag.value.parts| >= z.maxFragments then Bad(1009)
    else if |h| < hl + 4 then More
    else Whole(Head(fin, op, len, h[hl..hl + 4], hl + 4))
  }

  function Parse(z: Limits, h: seq<Byte>, frag: Option<Frag>): Parsed {
    if |h| < 2 then More
    else if h[0] / 16 % 8 != 0 then Bad(1002)
    else if h[1] < 128 then Bad(1002)
    else if h[1] % 128 == 126 then
      if |h| < 4 then More
      else if U16(h[2], h[3]) < 126 then Bad(1002)
      else Limited(z, h, frag, U16(h[2], h[3]), 4)
    else if h[1] % 128 == 127 then
      if |h| < 10 then More
      else if U32(h[2], h[3], h[4], h[5]) != 0 || U32(h[6], h[7], h[8], h[9]) > 0x7fffffff then Bad(1009)
      else if U32(h[6], h[7], h[8], h[9]) < 65536 then Bad(1002)
      else Limited(z, h, frag, U32(h[6], h[7], h[8], h[9]), 10)
    else Limited(z, h, frag, h[1] % 128, 2)
  }

  // ------------------------------------------------------------------ frames and messages

  /** `_fail` */
  function Fail(rx: Rx, code: nat): Rx {
    Rx([], None, None, if rx.status == Open then Failed(code) else Halted, rx.events)
  }

  function Emit(rx: Rx, e: Event): Rx { rx.(events := rx.events + [e]) }

  function Message(rx: Rx, op: nat, bytes: seq<Byte>): Rx {
    if op == BIN then Emit(rx, Binary(bytes))
    else if Utf8.WellFormed(bytes) then Emit(rx, Text(bytes))
    else Fail(rx, 1007)
  }

  predicate ValidCloseCode(c: nat) { 1000 <= c <= 1003 || 1007 <= c <= 1014 || 3000 <= c <= 4999 }

  function OnClose(rx: Rx, payload: seq<Byte>): Rx {
    if payload == [] then rx.(status := Ended(1005, []))
    else if |payload| == 1 || !ValidCloseCode(U16(payload[0], payload[1])) then Fail(rx, 1002)
    else if !Utf8.WellFormed(payload[2..]) then Fail(rx, 1007)
    else rx.(status := Ended(U16(payload[0], payload[1]), payload[2..]))
  }

  function Keep(rx: Rx, op: nat, payload: seq<Byte>): Rx {
    var f := if rx.frag.Some? then rx.frag.value else Frag(op, []);
    rx.(frag := Some(f.(parts := f.parts + [payload])))
  }

  /** One complete frame. */
  function Frame(rx: Rx, op: nat, fin: bool, payload: seq<Byte>): Rx {
    if rx.status == Closing && op != CLOSE then rx
    else if op == TEXT || op == BIN then
      if rx.frag.Some? then Fail(rx, 1002)
      else if fin then Message(rx, op, payload)
      else Keep(rx, op, payload)
    else if op == CONT then
      if rx.frag.None? then Fail(rx, 1002)
      else if fin then Message(rx.(frag := None), rx.frag.value.op, Joined(rx.frag.value.parts) + payload)
      else Keep(rx, 0, payload)
    else if op == PING then Emit(rx, Ping(payload))
    else if op == PONG then Emit(rx, Pong(payload))
    else if op == CLOSE then OnClose(rx, payload)
    else Fail(rx, 1002)
  }

  // ------------------------------------------------------------------ the stream

  /** It has failed or the peer has closed: what it has delivered and its verdict stand, whatever comes. */
  predicate Stopped(s: Status) { s.Failed? || s.Halted? || s.Ended? }

  function Complete(rx: Rx, head: Head, raw: seq<Byte>): Rx {
    Frame(rx.(hdr := [], body := None), head.op, head.fin, Unmask(raw, head.mask))
  }

  /** After a header: an empty frame is complete at once. */
  function Headed(rx: Rx, head: Head): Rx {
    if head.len == 0 then Complete(rx, head, []) else rx.(hdr := [], body := Some(Body(head, [])))
  }

  function Feed(z: Limits, rx: Rx, b: Byte): Rx {
    if Stopped(rx.status) then rx
    else if rx.body.Some? then
      var head, raw := rx.body.value.head, rx.body.value.raw + [b];
      if |raw| >= head.len then Complete(rx, head, raw) else rx.(body := Some(Body(head, raw)))
    else
      match Parse(z, rx.hdr + [b], rx.frag)
      case More => rx.(hdr := rx.hdr + [b])
      case Bad(code) => Fail(rx, code)
      case Whole(head) => Headed(rx, head)
  }

  function Receive(z: Limits, rx: Rx, bytes: seq<Byte>): Rx
    decreases |bytes|
  {
    if bytes == [] then rx else Receive(z, Feed(z, rx, bytes[0]), bytes[1..])
  }

  /** The application closes from its side. */
  function CloseLocally(rx: Rx): Rx { if rx.status == Open then rx.(status := Closing) else rx }

  /** The stored parts of a receiver: the frame being assembled and the kept fragments. */
  function LiveParts(rx: Rx): nat {
    (if rx.body.Some? then 1 else 0) + if rx.frag.Some? then |rx.frag.value.parts| else 0
  }

  predicate FragOk(z: Limits, frag: Option<Frag>) {
    frag.Some? ==> 0 < |frag.value.parts| <= z.maxFragments && FragBytes(frag) <= z.maxMessage
  }

  /**
   * A frame that may come next: a control frame is short, and a message stays within the limits on bytes and on
   * parts.
   */
  predicate Fits(z: Limits, frag: Option<Frag>, op: nat, len: nat) {
    && (op >= 8 ==> len <= 125)
    && (op < 8 ==> len + FragBytes(frag) <= z.maxMessage && (frag.Some? ==> |frag.value.parts| < z.maxFragments))
  }

  /** Between any two bytes: what is stored is within the limits, and what is undecided is less than a header. */
  predicate Valid(z: Limits, rx: Rx) {
    && FragOk(z, rx.frag)
    && (rx.body.Some? ==>
          && rx.hdr == []
          && |rx.body.value.raw| < rx.body.value.head.len
          && Fits(z, rx.frag, rx.body.value.head.op, rx.body.value.head.len))
    && (rx.body.None? ==> Parse(z, rx.hdr, rx.frag) == More && |rx.hdr| < 14)
  }
}
