/** Length-prefixed framing, byte by byte. */
module BridgeModel {
  // runtime/hermit/protocol/bridge.js: a record is a four-byte length and that many bytes of body. `valid` says
  // whether a body is the UTF-8 text of an allowed record that its handler takes.

  import opened Common

  const MAX_BODY: nat := 65536

  datatype Failure = ZeroLength | TooLong | BadRecord

  datatype Part = Part(need: nat, raw: seq<Byte>)

  datatype Rx = Rx(hdr: seq<Byte>, body: Option<Part>, failed: Option<Failure>, records: seq<seq<Byte>>)

  const START := Rx([], None, None, [])

  function BigEndian(a: nat, b: nat, c: nat, d: nat): nat { a * 16777216 + b * 65536 + c * 256 + d }

  function Word(h: seq<Byte>): nat
    requires |h| == 4
  {
    BigEndian(h[0], h[1], h[2], h[3])
  }

  /** A complete header: the body is bounded before anything is allocated for it. */
  function Headed(rx: Rx, h: seq<Byte>): Rx
    requires |h| == 4
  {
    var r := rx.(hdr := h);
    if Word(h) == 0 then r.(failed := Some(ZeroLength))
    else if Word(h) > MAX_BODY then r.(failed := Some(TooLong))
    else r.(body := Some(Part(Word(h), [])))
  }

  function Complete(valid: seq<Byte> -> bool, rx: Rx, raw: seq<Byte>): Rx {
    var r := rx.(hdr := [], body := None);
    if valid(raw) then r.(records := r.records + [raw]) else r.(failed := Some(BadRecord))
  }

  function Feed(valid: seq<Byte> -> bool, rx: Rx, b: Byte): Rx {
    if rx.failed.Some? then rx
    else if rx.body.None? then
      var h := rx.hdr + [b];
      if |h| == 4 then Headed(rx, h) else rx.(hdr := h)
    else
      var raw := rx.body.value.raw + [b];
      if |raw| >= rx.body.value.need then Complete(valid, rx, raw)
      else rx.(body := Some(Part(rx.body.value.need, raw)))
  }

  function Receive(valid: seq<Byte> -> bool, rx: Rx, bytes: seq<Byte>): Rx
    decreases |bytes|
  {
    if bytes == [] then rx else Receive(valid, Feed(valid, rx, bytes[0]), bytes[1..])
  }

  /** What `end()` reports: nothing has begun that is not finished. */
  predicate Clean(rx: Rx) { rx.body.None? && rx.hdr == [] }

  predicate Valid(rx: Rx) {
    rx.failed.None? ==>
      && (rx.body.None? ==> |rx.hdr| < 4)
      && (rx.body.Some? ==> |rx.hdr| == 4 && |rx.body.value.raw| < rx.body.value.need <= MAX_BODY)
  }

  // ------------------------------------------------------------------ cutting

  lemma {:induction false} ReceiveAppend(valid: seq<Byte> -> bool, rx: Rx, a: seq<Byte>, b: seq<Byte>)
    ensures Receive(valid, rx, a + b) == Receive(valid, Receive(valid, rx, a), b)
    decreases |a|
  {
    if a == [] {
      assert a + b == b;
    } else {
      assert (a + b)[1..] == a[1..] + b;
      ReceiveAppend(valid, Feed(valid, rx, a[0]), a[1..], b);
    }
  }

  lemma {:induction false} ReceiveKeeps(valid: seq<Byte> -> bool, rx: Rx, bytes: seq<Byte>)
    requires Valid(rx)
    ensures Valid(Receive(valid, rx, bytes))
    decreases |bytes|
  {
    if bytes != [] { ReceiveKeeps(valid, Feed(valid, rx, bytes[0]), bytes[1..]); }
  }

  lemma {:induction false} FailedStays(valid: seq<Byte> -> bool, rx: Rx, bytes: seq<Byte>)
    requires rx.failed.Some?
    ensures Receive(valid, rx, bytes) == rx
    decreases |bytes|
  {
    if bytes != [] { FailedStays(valid, rx, bytes[1..]); }
  }

  // ------------------------------------------------------------------ runs of bytes

  lemma {:induction false} HeaderRun(valid: seq<Byte> -> bool, rx: Rx, bytes: seq<Byte>)
    requires rx.failed.None? && rx.body.None? && |rx.hdr| < 4 && |rx.hdr| + |bytes| <= 4
    ensures Receive(valid, rx, bytes) ==
      if |rx.hdr| + |bytes| == 4 then Headed(rx, rx.hdr + bytes) else rx.(hdr := rx.hdr + bytes)
    decreases |bytes|
  {
    if bytes == [] {
      assert rx.hdr + bytes == rx.hdr;
    } else {
      var h := rx.hdr + [bytes[0]];
      assert h + bytes[1..] == rx.hdr + bytes;
      if |h| == 4 {
        assert bytes[1..] == [] && rx.hdr + bytes == h;
      } else {
        HeaderRun(valid, rx.(hdr := h), bytes[1..]);
      }
    }
  }

  lemma {:induction false} BodyRun(valid: seq<Byte> -> bool, rx: Rx, bytes: seq<Byte>)
    requires rx.failed.None? && rx.body.Some? && |rx.body.value.raw| < rx.body.value.need
    requires |rx.body.value.raw| + |bytes| <= rx.body.value.need
    ensures var p := rx.body.value;
      Receive(valid, rx, bytes) ==
        if |p.raw| + |bytes| == p.need then Complete(valid, rx, p.raw + bytes)
        else rx.(body := Some(Part(p.need, p.raw + bytes)))
    decreases |bytes|
  {
    var p := rx.body.value;
    if bytes == [] {
      assert p.raw + bytes == p.raw;
    } else {
      assert p.raw + [bytes[0]] + bytes[1..] == p.raw + bytes;
      if |p.raw| + 1 == p.need {
        assert bytes[1..] == [] && p.raw + bytes == p.raw + [bytes[0]];
      } else {
        BodyRun(valid, rx.(body := Some(Part(p.need, p.raw + [bytes[0]]))), bytes[1..]);
      }
    }
  }

  // ------------------------------------------------------------------ encoding

  function ToByte(n: int): Byte
    requires 0 <= n < 256
  {
    n
  }

  function WordBytes(n: nat): seq<Byte>
    requires n <= MAX_BODY
  {
    [ToByte(n / 16777216), ToByte(n / 65536 % 256), ToByte(n / 256 % 256), ToByte(n % 256)]
  }

  /** A body that `encodeRecord` puts in a record, and that the other end takes. */
  predicate Sendable(valid: seq<Byte> -> bool, body: seq<Byte>) { 0 < |body| <= MAX_BODY && valid(body) }

  function EncodeRecord(body: seq<Byte>): seq<Byte>
    requires |body| <= MAX_BODY
  {
    WordBytes(|body|) + body
  }

  predicate AllSendable(valid: seq<Byte> -> bool, bodies: seq<seq<Byte>>) {
    bodies == [] || (Sendable(valid, bodies[0]) && AllSendable(valid, bodies[1..]))
  }

  function EncodeAll(valid: seq<Byte> -> bool, bodies: seq<seq<Byte>>): seq<Byte>
    requires AllSendable(valid, bodies)
  {
    if bodies == [] then [] else EncodeRecord(bodies[0]) + EncodeAll(valid, bodies[1..])
  }

  lemma {:induction false} WordRead(n: nat)
    requires n <= MAX_BODY
    ensures Word(WordBytes(n)) == n
  {
    var a, b := n / 256, n / 65536;
    assert b == a / 256 && n / 16777216 == b / 256;
    assert n == 256 * a + n % 256 && a == 256 * b + a % 256 && b == 256 * (b / 256) + b % 256;
  }

  predicate Between(rx: Rx) { rx.failed.None? && Clean(rx) }

  /** The first `k` bytes of a record: nothing, some of it, or all of it. */
  lemma {:induction false} RecordRun(valid: seq<Byte> -> bool, rx: Rx, body: seq<Byte>, k: nat)
    requires Between(rx) && Sendable(valid, body) && k <= |EncodeRecord(body)|
    ensures var r := Receive(valid, rx, EncodeRecord(body)[..k]);
      if k == |EncodeRecord(body)| then r == rx.(records := rx.records + [body])
      else r.failed.None? && r.records == rx.records && (Clean(r) <==> k == 0)
  {
    var e, w := EncodeRecord(body), WordBytes(|body|);
    if k < 4 {
      assert rx.hdr + e[..k] == e[..k];
      HeaderRun(valid, rx, e[..k]);
    } else {
      assert e[..4] == w && e[..k] == w + body[..k - 4];
      assert rx.hdr + w == w;
      WordRead(|body|);
      HeaderRun(valid, rx, w);
      ReceiveAppend(valid, rx, w, body[..k - 4]);
      BodyRun(valid, Headed(rx, w), body[..k - 4]);
      assert [] + body[..k - 4] == body[..k - 4];
      assert body[..|body|] == body;
    }
  }

  /** The records that are sent are received, in order, and the end is clean. */
  lemma {:induction false} RoundTrip(valid: seq<Byte> -> bool, rx: Rx, bodies: seq<seq<Byte>>)
    requires Between(rx) && AllSendable(valid, bodies)
    ensures Receive(valid, rx, EncodeAll(valid, bodies)) == rx.(records := rx.records + bodies)
    decreases |bodies|
  {
    if bodies == [] {
      assert rx.records + bodies == rx.records;
    } else {
      var e := EncodeRecord(bodies[0]);
      assert e[..|e|] == e;
      RecordRun(valid, rx, bodies[0], |e|);
      ReceiveAppend(valid, rx, e, EncodeAll(valid, bodies[1..]));
      RoundTrip(valid, rx.(records := rx.records + [bodies[0]]), bodies[1..]);
      assert rx.records + [bodies[0]] + bodies[1..] == rx.records + bodies;
    }
  }

  /** A stream that breaks off inside a record gives every record before it, and says that it was truncated. */
  lemma {:induction false} TruncationSeen(valid: seq<Byte> -> bool, bodies: seq<seq<Byte>>, next: seq<Byte>, k: nat)
    requires AllSendable(valid, bodies) && Sendable(valid, next) && k < |EncodeRecord(next)|
    ensures var r := Receive(valid, START, EncodeAll(valid, bodies) + EncodeRecord(next)[..k]);
      r.failed.None? && r.records == bodies && (Clean(r) <==> k == 0)
  {
    RoundTrip(valid, START, bodies);
    assert START.records + bodies == bodies;
    ReceiveAppend(valid, START, EncodeAll(valid, bodies), EncodeRecord(next)[..k]);
    RecordRun(valid, START.(records := bodies), next, k);
  }

  lemma {:induction false} FourBytes(s: seq<Byte>)
    requires |s| == 4
    ensures NetworkOrder(s) == Word(s)
  {
    var three, two, one := s[..3], s[..2], s[..1];
    assert three[..2] == two && two[..1] == one && one[..0] == [];
    assert NetworkOrder(one) == s[0] && NetworkOrder(two) == NetworkOrder(one) * 256 + s[1];
    assert NetworkOrder(three) == NetworkOrder(two) * 256 + s[2];
  }

  /** A record begins with the length of its body, most significant byte first, and the body follows. */
  lemma {:induction false} RecordLayout(body: seq<Byte>)
    requires |body| <= MAX_BODY
    ensures var r := EncodeRecord(body); |r| == 4 + |body| && NetworkOrder(r[..4]) == |body| && r[4..] == body
  {
    WordRead(|body|);
    assert EncodeRecord(body)[..4] == WordBytes(|body|);
    FourBytes(WordBytes(|body|));
  }

  /** Four bytes of header decide: a length of nothing or of more than 65536 bytes fails, any other opens a body. */
  lemma {:induction false} HeaderDecided(valid: seq<Byte> -> bool, rx: Rx, h: seq<Byte>)
    requires Between(rx) && |h| == 4
    ensures var r, n := Receive(valid, rx, h), NetworkOrder(h);
      && r.records == rx.records
      && (n == 0 ==> r.failed == Some(ZeroLength))
      && (n > 65536 ==> r.failed == Some(TooLong))
      && (0 < n <= 65536 ==> r.failed.None? && r.body == Some(Part(n, [])))
  {
    FourBytes(h);
    assert rx.hdr + h == h;
    HeaderRun(valid, rx, h);
  }

  /** A body that is not a record that may be taken fails; nothing of it is delivered. */
  lemma {:induction false} BodyDecided(valid: seq<Byte> -> bool, rx: Rx, body: seq<Byte>)
    requires Between(rx) && 0 < |body| <= MAX_BODY && !valid(body)
    ensures var r := Receive(valid, rx, EncodeRecord(body)); r.failed == Some(BadRecord) && r.records == rx.records
  {
    var w := WordBytes(|body|);
    WordRead(|body|);
    assert rx.hdr + w == w && [] + body == body;
    HeaderRun(valid, rx, w);
    ReceiveAppend(valid, rx, w, body);
    BodyRun(valid, Headed(rx, w), body);
  }

  function ReceiveAll(valid: seq<Byte> -> bool, rx: Rx, chunks: seq<seq<Byte>>): Rx
    decreases |chunks|
  {
    if chunks == [] then rx else ReceiveAll(valid, Receive(valid, rx, chunks[0]), chunks[1..])
  }

  function Concat(chunks: seq<seq<Byte>>): seq<Byte> {
    if chunks == [] then [] else chunks[0] + Concat(chunks[1..])
  }

  /** Reading in any pieces is reading at once, failures included. */
  lemma {:induction false} CuttingIsInvisible(valid: seq<Byte> -> bool, rx: Rx, chunks: seq<seq<Byte>>)
    ensures ReceiveAll(valid, rx, chunks) == Receive(valid, rx, Concat(chunks))
    decreases |chunks|
  {
    if chunks != [] {
      ReceiveAppend(valid, rx, chunks[0], Concat(chunks[1..]));
      CuttingIsInvisible(valid, Receive(valid, rx, chunks[0]), chunks[1..]);
    }
  }
}
