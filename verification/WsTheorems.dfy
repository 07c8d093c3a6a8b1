/** Conforming streams arrive, however cut. */
module WsTheorems {
  // A conforming stream is received as the messages that were sent.

  import opened Common
  import Utf8
  import opened WsModel

  // ------------------------------------------------------------------ cutting

  /** Any two chunks are received as their concatenation. */
  lemma {:induction false} ReceiveAppend(z: Limits, rx: Rx, a: seq<Byte>, b: seq<Byte>)
    ensures Receive(z, rx, a + b) == Receive(z, Receive(z, rx, a), b)
    decreases |a|
  {
    if a == [] {
      assert a + b == b;
    } else {
      assert (a + b)[1..] == a[1..] + b;
      ReceiveAppend(z, Feed(z, rx, a[0]), a[1..], b);
    }
  }

  function ReceiveAll(z: Limits, rx: Rx, chunks: seq<seq<Byte>>): Rx
    decreases |chunks|
  {
    if chunks == [] then rx else ReceiveAll(z, Receive(z, rx, chunks[0]), chunks[1..])
  }

  function Concat(chunks: seq<seq<Byte>>): seq<Byte> {
    if chunks == [] then [] else chunks[0] + Concat(chunks[1..])
  }

  lemma {:induction false} ReceiveAllIsReceive(z: Limits, rx: Rx, chunks: seq<seq<Byte>>)
    ensures ReceiveAll(z, rx, chunks) == Receive(z, rx, Concat(chunks))
    decreases |chunks|
  {
    if chunks != [] {
      ReceiveAppend(z, rx, chunks[0], Concat(chunks[1..]));
      ReceiveAllIsReceive(z, Receive(z, rx, chunks[0]), chunks[1..]);
    }
  }

  /** However a stream is cut into socket chunks, the messages, the control events and the failure are the same. */
  lemma {:induction false} CuttingIsInvisible(z: Limits, rx: Rx, one: seq<seq<Byte>>, other: seq<seq<Byte>>)
    requires Concat(one) == Concat(other)
    ensures ReceiveAll(z, rx, one) == ReceiveAll(z, rx, other)
  {
    ReceiveAllIsReceive(z, rx, one);
    ReceiveAllIsReceive(z, rx, other);
  }

  lemma {:induction false} StoppedStays(z: Limits, rx: Rx, bytes: seq<Byte>)
    requires Stopped(rx.status)
    ensures Receive(z, rx, bytes) == rx
    decreases |bytes|
  {
    if bytes != [] { StoppedStays(z, rx, bytes[1..]); }
  }

  // ------------------------------------------------------------------ headers

  /** What a prefix of a header decides stays decided. */
  lemma {:induction false} DecidedStays(z: Limits, h: seq<Byte>, more: seq<Byte>, frag: Option<Frag>)
    requires Parse(z, h, frag) != More
    ensures Parse(z, h + more, frag) == Parse(z, h, frag)
    ensures Parse(z, h, frag).Whole? ==> Parse(z, h, frag).head.size <= |h|
  {
    var g := h + more;
    assert g[0] == h[0] && g[1] == h[1];
    if h[1] % 128 == 126 {
      if |h| >= 4 { assert g[2] == h[2] && g[3] == h[3]; LimitedStays(z, h, more, frag, U16(h[2], h[3]), 4); }
    } else if h[1] % 128 == 127 {
      if |h| >= 10 {
        assert g[2] == h[2] && g[3] == h[3] && g[4] == h[4] && g[5] == h[5];
        assert g[6] == h[6] && g[7] == h[7] && g[8] == h[8] && g[9] == h[9];
        LimitedStays(z, h, more, frag, U32(h[6], h[7], h[8], h[9]), 10);
      }
    } else {
      LimitedStays(z, h, more, frag, h[1] % 128, 2);
    }
  }

  lemma {:induction false} LimitedStays(z: Limits, h: seq<Byte>, more: seq<Byte>, frag: Option<Frag>, len: nat, hl: nat)
    requires |h| >= 2
    ensures Limited(z, h, frag, len, hl) != More ==> Limited(z, h + more, frag, len, hl) == Limited(z, h, frag, len, hl)
  {
    if |h| >= hl + 4 { assert (h + more)[hl..hl + 4] == h[hl..hl + 4]; }
  }

  /** Fourteen bytes decide every header. */
  lemma {:induction false} FourteenDecide(z: Limits, h: seq<Byte>, frag: Option<Frag>)
    requires |h| >= 14
    ensures Parse(z, h, frag) != More
  {}

  lemma {:induction false} WholeSize(z: Limits, h: seq<Byte>, frag: Option<Frag>)
    requires Parse(z, h, frag).Whole?
    ensures var head := Parse(z, h, frag).head;
      && (head.size == 6 || head.size == 8 || head.size == 14) && head.size <= |h|
      && Parse(z, h[..head.size], frag) == Parse(z, h, frag)
    ensures forall k: nat :: k < Parse(z, h, frag).head.size ==> Parse(z, h[..k], frag) == More
  {
    var head := Parse(z, h, frag).head;
    var size := head.size;
    var p := h[..size];
    assert p[0] == h[0] && p[1] == h[1];
    assert size >= 8 ==> p[2] == h[2] && p[3] == h[3];
    assert p[size - 4..size] == h[size - 4..size];
    assert Parse(z, p, frag) == Parse(z, h, frag);
    forall k: nat | k < size ensures Parse(z, h[..k], frag) == More {}
  }

  // ------------------------------------------------------------------ feeding a run of bytes

  /** Bytes that do not complete a header are stitched to it. */
  lemma {:induction false} FeedHeader(z: Limits, rx: Rx, bytes: seq<Byte>)
    requires !Stopped(rx.status) && rx.body.None? && Parse(z, rx.hdr + bytes, rx.frag) == More
    ensures Receive(z, rx, bytes) == rx.(hdr := rx.hdr + bytes)
    decreases |bytes|
  {
    if bytes == [] {
      assert rx.hdr + bytes == rx.hdr;
    } else {
      var h := rx.hdr + [bytes[0]];
      assert rx.hdr + bytes == h + bytes[1..];
      if Parse(z, h, rx.frag) != More { DecidedStays(z, h, bytes[1..], rx.frag); }
      FeedHeader(z, rx.(hdr := h), bytes[1..]);
    }
  }

  /** A run of bytes whose header is bad fails, wherever in the run that shows. */
  lemma {:induction false} FeedBad(z: Limits, rx: Rx, bytes: seq<Byte>)
    requires !Stopped(rx.status) && rx.body.None? && bytes != []
    requires Parse(z, rx.hdr, rx.frag) == More && Parse(z, rx.hdr + bytes, rx.frag).Bad?
    ensures Receive(z, rx, bytes) == Fail(rx, Parse(z, rx.hdr + bytes, rx.frag).code)
    decreases |bytes|
  {
    var h, rest := rx.hdr + [bytes[0]], bytes[1..];
    assert rx.hdr + bytes == h + rest;
    if Parse(z, h, rx.frag) != More {
      DecidedStays(z, h, rest, rx.frag);
      StoppedStays(z, Feed(z, rx, bytes[0]), rest);
    } else {
      assert rest == [] ==> h + rest == h;
      FeedBad(z, rx.(hdr := h), rest);
    }
  }

  lemma {:induction false} HeaderIsLonger(z: Limits, hdr: seq<Byte>, bytes: seq<Byte>, frag: Option<Frag>)
    requires Parse(z, hdr, frag) == More && Parse(z, hdr + bytes, frag).Whole?
    ensures |hdr| < Parse(z, hdr + bytes, frag).head.size <= |hdr| + |bytes|
  {
    var all := hdr + bytes;
    WholeSize(z, all, frag);
    var size := Parse(z, all, frag).head.size;
    if |hdr| >= size {
      assert hdr == all[..size] + hdr[size..];
      DecidedStays(z, all[..size], hdr[size..], frag);
    }
  }

  lemma {:induction false} FeedLast(z: Limits, rx: Rx, init: seq<Byte>, last: Byte)
    requires !Stopped(rx.status) && rx.body.None? && Parse(z, rx.hdr + init, rx.frag) == More
    requires Parse(z, rx.hdr + init + [last], rx.frag).Whole?
    ensures Receive(z, rx, init + [last]) == Headed(rx.(hdr := rx.hdr + init),
        Parse(z, rx.hdr + init + [last], rx.frag).head)
  {
    FeedHeader(z, rx, init);
    ReceiveAppend(z, rx, init, [last]);
    assert [last][1..] == [];
  }

  /** The bytes that complete a header, and only they, open its frame. */
  lemma {:induction false} FeedWhole(z: Limits, rx: Rx, bytes: seq<Byte>)
    requires !Stopped(rx.status) && rx.body.None? && Parse(z, rx.hdr, rx.frag) == More
        && Parse(z, rx.hdr + bytes, rx.frag).Whole?
    ensures var head := Parse(z, rx.hdr + bytes, rx.frag).head;
      |rx.hdr| < head.size <= |rx.hdr| + |bytes|
      && Receive(z, rx, bytes[..head.size - |rx.hdr|]) == Headed(rx, head)
  {
    var all := rx.hdr + bytes;
    WholeSize(z, all, rx.frag);
    HeaderIsLonger(z, rx.hdr, bytes, rx.frag);
    var size := Parse(z, all, rx.frag).head.size;
    var n := size - |rx.hdr|;
    assert all[..size - 1] == rx.hdr + bytes[..n - 1];
    assert all[..size] == rx.hdr + bytes[..n - 1] + [bytes[n - 1]];
    assert bytes[..n] == bytes[..n - 1] + [bytes[n - 1]];
    FeedLast(z, rx, bytes[..n - 1], bytes[n - 1]);
  }

  /** Payload bytes are collected until the frame has all of them. */
  lemma {:induction false} FeedBody(z: Limits, rx: Rx, bytes: seq<Byte>)
    requires !Stopped(rx.status) && rx.body.Some? && rx.hdr == []
    requires |rx.body.value.raw| < rx.body.value.head.len
    requires |rx.body.value.raw| + |bytes| <= rx.body.value.head.len
    ensures var head, raw := rx.body.value.head, rx.body.value.raw + bytes;
      Receive(z, rx, bytes) == if |raw| == head.len then Complete(rx, head, raw) else rx.(body := Some(Body(head, raw)))
    decreases |bytes|
  {
    var head, raw := rx.body.value.head, rx.body.value.raw;
    if bytes == [] {
      assert raw + bytes == raw;
    } else {
      assert raw + [bytes[0]] + bytes[1..] == raw + bytes;
      if |raw| + 1 == head.len {
        assert bytes[1..] == [] && raw + bytes == raw + [bytes[0]];
      } else {
        FeedBody(z, rx.(body := Some(Body(head, raw + [bytes[0]]))), bytes[1..]);
      }
    }
  }

  /** What a run of header bytes, decided so, does to the receiver. */
  predicate Decides(z: Limits, rx: Rx, bytes: seq<Byte>, p: Parsed) {
    && (p == More ==> Receive(z, rx, bytes) == rx.(hdr := rx.hdr + bytes) && |rx.hdr| + |bytes| < 14)
    && (p.Bad? ==> Receive(z, rx, bytes) == Fail(rx, p.code))
    && (p.Whole? ==>
          && |rx.hdr| < p.head.size <= |rx.hdr| + |bytes|
          && Receive(z, rx, bytes[..p.head.size - |rx.hdr|]) == Headed(rx, p.head))
  }

  /** Header bytes looked at in a scratch of fourteen decide as the whole rest of the chunk would. */
  lemma {:induction false} HeaderRun(z: Limits, rx: Rx, bytes: seq<Byte>, take: nat)
    requires !Stopped(rx.status) && rx.body.None? && Parse(z, rx.hdr, rx.frag) == More && bytes != []
    requires 0 < take <= |bytes| && (take == |bytes| || |rx.hdr| + take == 14)
    ensures Decides(z, rx, bytes, Parse(z, rx.hdr + bytes[..take], rx.frag))
  {
    var some := bytes[..take];
    var p := Parse(z, rx.hdr + some, rx.frag);
    if |rx.hdr| + take >= 14 { FourteenDecide(z, rx.hdr + some, rx.frag); }
    assert bytes == some + bytes[take..];
    if p == More {
      assert some == bytes;
      FeedHeader(z, rx, bytes);
    } else if p.Bad? {
      FeedBad(z, rx, some);
      ReceiveAppend(z, rx, some, bytes[take..]);
      StoppedStays(z, Fail(rx, p.code), bytes[take..]);
    } else {
      FeedWhole(z, rx, some);
      assert some[..p.head.size - |rx.hdr|] == bytes[..p.head.size - |rx.hdr|];
    }
  }

  /** After a header, as much of the payload as the chunk has. */
  lemma {:induction false} PayloadRun(z: Limits, rx: Rx, head: Head, bytes: seq<Byte>)
    requires !Stopped(rx.status) && |bytes| <= head.len
    ensures Receive(z, Headed(rx, head), bytes) ==
      if |bytes| == head.len then Complete(rx, head, bytes) else rx.(hdr := [], body := Some(Body(head, bytes)))
  {
    if head.len > 0 {
      FeedBody(z, rx.(hdr := [], body := Some(Body(head, []))), bytes);
      assert [] + bytes == bytes;
    }
  }

  // ------------------------------------------------------------------ between any two bytes

  lemma {:induction false} JoinedAppend(parts: seq<seq<Byte>>, p: seq<Byte>)
    ensures Joined(parts + [p]) == Joined(parts) + p
  {
    assert (parts + [p])[..|parts|] == parts;
  }

  lemma {:induction false} KeepKeeps(z: Limits, rx: Rx, op: nat, payload: seq<Byte>)
    requires FragOk(z, rx.frag) && Fits(z, rx.frag, 0, |payload|) && z.maxFragments > 0
    ensures FragOk(z, Keep(rx, op, payload).frag)
  {
    var parts := if rx.frag.Some? then rx.frag.value.parts else [];
    JoinedAppend(parts, payload);
  }

  /** The limits decided from headers hold of what is stored. */
  lemma {:induction false} FrameKeeps(z: Limits, rx: Rx, op: nat, fin: bool, payload: seq<Byte>)
    requires rx.body.None? && rx.hdr == [] && z.maxFragments > 0
    requires FragOk(z, rx.frag) && Fits(z, rx.frag, op, |payload|)
    ensures Valid(z, Frame(rx, op, fin, payload))
  {
    hide Utf8.WellFormed, Joined, ValidCloseCode;
    if op == TEXT || op == BIN || op == CONT { KeepKeeps(z, rx, op, payload); }
  }

  lemma {:induction false} HeadFits(z: Limits, h: seq<Byte>, frag: Option<Frag>)
    requires Parse(z, h, frag).Whole?
    ensures Fits(z, frag, Parse(z, h, frag).head.op, Parse(z, h, frag).head.len)
  {}

  lemma {:induction false} FeedKeeps(z: Limits, rx: Rx, b: Byte)
    requires Valid(z, rx) && z.maxFragments > 0
    ensures Valid(z, Feed(z, rx, b))
  {
    if !Stopped(rx.status) {
      if rx.body.Some? {
        var head, raw := rx.body.value.head, rx.body.value.raw + [b];
        if |raw| >= head.len {
          FrameKeeps(z, rx.(hdr := [], body := None), head.op, head.fin, Unmask(raw, head.mask));
        }
      } else {
        var h := rx.hdr + [b];
        if Parse(z, h, rx.frag).Whole? {
          var head := Parse(z, h, rx.frag).head;
          HeadFits(z, h, rx.frag);
          FrameKeeps(z, rx.(hdr := [], body := None), head.op, head.fin, Unmask([], head.mask));
        } else if Parse(z, h, rx.frag) == More && |h| >= 14 {
          FourteenDecide(z, h, rx.frag);
        }
      }
    }
  }

  lemma {:induction false} ReceiveKeeps(z: Limits, rx: Rx, bytes: seq<Byte>)
    requires Valid(z, rx) && z.maxFragments > 0
    ensures Valid(z, Receive(z, rx, bytes))
    decreases |bytes|
  {
    if bytes != [] {
      FeedKeeps(z, rx, bytes[0]);
      ReceiveKeeps(z, Feed(z, rx, bytes[0]), bytes[1..]);
    }
  }

  /** What a connection stores of an unfinished message never exceeds the message limit, whatever the peer sends. */
  lemma {:induction false} StorageBounded(z: Limits, chunks: seq<seq<Byte>>)
    requires z.maxFragments > 0
    ensures var rx := ReceiveAll(z, START, chunks);
      && FragBytes(rx.frag) <= z.maxMessage
      && LiveParts(rx) <= z.maxFragments + 1
      && (rx.body.Some? && rx.body.value.head.op < 8 ==> rx.body.value.head.len + FragBytes(rx.frag) <= z.maxMessage)
  {
    ReceiveAllIsReceive(z, START, chunks);
    ReceiveKeeps(z, START, Concat(chunks));
  }

  // ------------------------------------------------------------------ frames as a client writes them

  function ToByte(n: int): Byte
    requires 0 <= n < 256
  {
    n
  }

  /** The shortest of the three forms of a payload length, with the mask bit. */
  function LengthBytes(n: nat): seq<Byte>
    requires n <= 0x7fffffff
  {
    if n < 126 then [ToByte(128 + n)]
    else if n < 65536 then [ToByte(254), ToByte(n / 256), ToByte(n % 256)]
    else [ToByte(255), ToByte(0), ToByte(0), ToByte(0), ToByte(0),
          ToByte(n / 16777216), ToByte(n / 65536 % 256), ToByte(n / 256 % 256), ToByte(n % 256)]
  }

  datatype Sent = Sent(fin: bool, op: nat, mask: Mask, payload: seq<Byte>)

  predicate Writable(f: Sent) { f.op < 16 && |f.payload| <= 0x7fffffff }

  function HeadBytes(f: Sent): seq<Byte>
    requires Writable(f)
  {
    [ToByte((if f.fin then 128 else 0) + f.op)] + LengthBytes(|f.payload|) + f.mask
  }

  /**
   * The client's side of section 5.3 of RFC 6455: the first octet of the key masks the first octet of the payload, and
   * the key is turned by one octet for the rest.
   */
  function Masked(payload: seq<Byte>, key: Mask): (r: seq<Byte>)
    ensures |r| == |payload|
  {
    if payload == [] then []
    else [((payload[0] as bv8) ^ (key[0] as bv8)) as int] + Masked(payload[1..], key[1..] + [key[0]])
  }

  /** The server's mask in the order of the payload: octet `i` of it meets octet `i % 4` of the key. */
  lemma {:induction false} UnmaskIsXor(s: seq<Byte>, mask: Mask, i: nat)
    requires i < |s|
    ensures Unmask(s, mask)[i] == ((s[i] as bv8) ^ (mask[i % 4] as bv8)) as int
  {}

  /** Turning the key by one octet shifts which of its octets the rest meets. */
  lemma {:induction false} Turned(key: Mask, i: nat)
    ensures (key[1..] + [key[0]])[i % 4] == key[(i + 1) % 4]
  {}

  /** What a client masks, the server unmasks. */
  lemma {:induction false} MaskedIsUnmask(payload: seq<Byte>, key: Mask)
    ensures Masked(payload, key) == Unmask(payload, key)
  {
    if payload != [] {
      var rest, turned: Mask := payload[1..], key[1..] + [key[0]];
      MaskedIsUnmask(rest, turned);
      var a, b := Masked(payload, key), Unmask(payload, key);
      forall i | 0 <= i < |a| ensures a[i] == b[i] {
        UnmaskIsXor(payload, key, i);
        if i > 0 {
          UnmaskIsXor(rest, turned, i - 1);
          Turned(key, i - 1);
        }
      }
    }
  }

  function EncodeFrame(f: Sent): seq<Byte>
    requires Writable(f)
  {
    HeadBytes(f) + Masked(f.payload, f.mask)
  }

  /** What a server accepts next. */
  predicate Acceptable(z: Limits, frag: Option<Frag>, f: Sent) {
    Writable(f) && Fits(z, frag, f.op, |f.payload|) && (f.op >= 8 ==> f.fin && |f.payload| <= 125)
  }

  lemma {:induction false} Split32(n: nat)
    requires n <= 0x7fffffff
    ensures n / 16777216 * 16777216 + n / 65536 % 256 * 65536 + n / 256 % 256 * 256 + n % 256 == n
  {
    var a, b, c := n / 256, n / 65536, n / 16777216;
    assert b == a / 256 && c == b / 256;
    assert n == a * 256 + n % 256 && a == b * 256 + a % 256 && b == c * 256 + b % 256;
  }

  lemma {:induction false} FirstByte(f: Sent)
    requires Writable(f)
    ensures var b := (if f.fin then 128 else 0) + f.op; b / 16 % 8 == 0 && b % 16 == f.op && (b >= 128 <==> f.fin)
  {}

  /** The three fields every header has, wherever its mask stands. */
  lemma {:induction false} HeadFields(f: Sent)
    requires Writable(f)
    ensures var h, l := HeadBytes(f), LengthBytes(|f.payload|);
      && |h| == 1 + |l| + 4 && h[1..1 + |l|] == l && h[1 + |l|..] == f.mask
      && h[0] / 16 % 8 == 0 && h[0] % 16 == f.op && (h[0] >= 128 <==> f.fin)
  {
    FirstByte(f);
  }

  lemma {:induction false} SliceAt(h: seq<Byte>, lo: nat, l: seq<Byte>, i: nat)
    requires lo + |l| <= |h| && h[lo..lo + |l|] == l && i < |l|
    ensures h[lo + i] == l[i]
  {
    assert h[lo..lo + |l|][i] == h[lo + i];
  }

  lemma {:induction false} ShortRead(h: seq<Byte>, n: nat)
    requires n < 126 && |h| == 6 && h[1..2] == LengthBytes(n)
    ensures h[1] >= 128 && h[1] % 128 == n
  {
    SliceAt(h, 1, LengthBytes(n), 0);
  }

  lemma {:induction false} MediumRead(h: seq<Byte>, n: nat)
    requires 126 <= n < 65536 && |h| == 8 && h[1..4] == LengthBytes(n)
    ensures h[1] >= 128 && h[1] % 128 == 126 && U16(h[2], h[3]) == n
  {
    SliceAt(h, 1, LengthBytes(n), 0);
    SliceAt(h, 1, LengthBytes(n), 1);
    SliceAt(h, 1, LengthBytes(n), 2);
  }

  lemma {:induction false} LongRead(h: seq<Byte>, n: nat)
    requires 65536 <= n <= 0x7fffffff && |h| == 14 && h[1..10] == LengthBytes(n)
    ensures h[1] >= 128 && h[1] % 128 == 127 && U32(h[2], h[3], h[4], h[5]) == 0 && U32(h[6], h[7], h[8], h[9]) == n
  {
    var l := LengthBytes(n);
    SliceAt(h, 1, l, 0);
    SliceAt(h, 1, l, 1);
    SliceAt(h, 1, l, 2);
    SliceAt(h, 1, l, 3);
    SliceAt(h, 1, l, 4);
    SliceAt(h, 1, l, 5);
    SliceAt(h, 1, l, 6);
    SliceAt(h, 1, l, 7);
    SliceAt(h, 1, l, 8);
    Split32(n);
  }

  lemma {:induction false} LimitedRead(z: Limits, h: seq<Byte>, frag: Option<Frag>, f: Sent)
    requires Acceptable(z, frag, f) && |h| >= 6
    requires h[0] % 16 == f.op && (h[0] >= 128 <==> f.fin) && h[|h| - 4..] == f.mask
    ensures Limited(z, h, frag, |f.payload|, |h| - 4) == Whole(Head(f.fin, f.op, |f.payload|, f.mask, |h|))
  {
    assert h[|h| - 4..|h|] == h[|h| - 4..];
  }

  /** A header is read back as it was written. */
  lemma {:induction false} HeaderRead(z: Limits, frag: Option<Frag>, f: Sent)
    requires Acceptable(z, frag, f)
    ensures Parse(z, HeadBytes(f), frag) == Whole(Head(f.fin, f.op, |f.payload|, f.mask, |HeadBytes(f)|))
  {
    var h, n := HeadBytes(f), |f.payload|;
    HeadFields(f);
    if n < 126 {
      ShortRead(h, n);
    } else if n < 65536 {
      MediumRead(h, n);
    } else {
      LongRead(h, n);
    }
    ParsedByLength(z, h, frag, n);
    LimitedRead(z, h, frag, f);
  }

  lemma {:induction false} ParsedByLength(z: Limits, h: seq<Byte>, frag: Option<Frag>, n: nat)
    requires n <= 0x7fffffff && |h| >= 6 && h[0] / 16 % 8 == 0 && h[1] >= 128
    requires n < 126 ==> h[1] % 128 == n && |h| == 6
    requires 126 <= n < 65536 ==> |h| == 8 && h[1] % 128 == 126 && U16(h[2], h[3]) == n
    requires 65536 <= n ==>
      |h| == 14 && h[1] % 128 == 127 && U32(h[2], h[3], h[4], h[5]) == 0 && U32(h[6], h[7], h[8], h[9]) == n
    ensures Parse(z, h, frag) == Limited(z, h, frag, n, |h| - 4)
  {}

  predicate Between(rx: Rx) { !Stopped(rx.status) && rx.hdr == [] && rx.body.None? }

  function HeadOf(f: Sent): Head
    requires Writable(f)
  {
    Head(f.fin, f.op, |f.payload|, f.mask, |HeadBytes(f)|)
  }

  lemma {:induction false} HeadReceived(z: Limits, rx: Rx, f: Sent)
    requires Between(rx) && Acceptable(z, rx.frag, f)
    ensures Receive(z, rx, HeadBytes(f)) == Headed(rx, HeadOf(f))
  {
    HeaderRead(z, rx.frag, f);
    HeaderAlone(z, rx, HeadBytes(f));
  }

  lemma {:induction false} HeaderAlone(z: Limits, rx: Rx, h: seq<Byte>)
    requires Between(rx) && Parse(z, h, rx.frag).Whole? && Parse(z, h, rx.frag).head.size == |h|
    ensures Receive(z, rx, h) == Headed(rx, Parse(z, h, rx.frag).head)
  {
    assert rx.hdr + h == h && h[..|h|] == h;
    FeedWhole(z, rx, h);
  }

  lemma {:induction false} BodyReceived(z: Limits, rx: Rx, f: Sent)
    requires Between(rx) && Writable(f)
    ensures Receive(z, Headed(rx, HeadOf(f)), Masked(f.payload, f.mask)) == Frame(rx, f.op, f.fin, f.payload)
  {
    var head, masked := HeadOf(f), Masked(f.payload, f.mask);
    MaskedIsUnmask(f.payload, f.mask);
    UnmaskTwice(f.payload, f.mask);
    assert rx.(hdr := [], body := None) == rx;
    if f.payload == [] {
      assert masked == [] && Unmask([], f.mask) == [];
    } else {
      FeedBody(z, rx.(body := Some(Body(head, []))), masked);
      assert [] + masked == masked;
    }
  }

  /** An acceptable frame is received whole, whatever its mask. */
  lemma {:induction false} FrameReceived(z: Limits, rx: Rx, f: Sent)
    requires Between(rx) && Acceptable(z, rx.frag, f)
    ensures Receive(z, rx, EncodeFrame(f)) == Frame(rx, f.op, f.fin, f.payload)
  {
    HeadReceived(z, rx, f);
    BodyReceived(z, rx, f);
    ReceiveAppend(z, rx, HeadBytes(f), Masked(f.payload, f.mask));
  }

  const HELLO: seq<Byte> := [0x48, 0x65, 0x6c, 0x6c, 0x6f]

  const HELLO_KEY: Mask := [0x37, 0xfa, 0x21, 0x3d]

  const HELLO_MASKED: seq<Byte> := [0x7f, 0x9f, 0x4d, 0x51, 0x58]

  lemma {:induction false} HelloBytes()
    ensures Xor(0x48, 0x37) == 0x7f && Xor(0x65, 0xfa) == 0x9f && Xor(0x6c, 0x21) == 0x4d
    ensures Xor(0x6c, 0x3d) == 0x51 && Xor(0x6f, 0x37) == 0x58
  {}

  lemma {:induction false} HelloMasked()
    ensures Masked(HELLO, HELLO_KEY) == HELLO_MASKED
  {
    hide Xor;
    MaskedIsUnmask(HELLO, HELLO_KEY);
    HelloBytes();
  }

  /** The single-frame masked text message of section 5.7 of RFC 6455. */
  lemma {:induction false} HelloReceived(z: Limits)
    requires z.maxMessage >= 5
    ensures Receive(z, START, [0x81, 0x85, 0x37, 0xfa, 0x21, 0x3d, 0x7f, 0x9f, 0x4d, 0x51, 0x58])
      == START.(events := [Text(HELLO)])
  {
    var f := Sent(true, TEXT, HELLO_KEY, HELLO);
    HelloWritten();
    FrameReceived(z, START, f);
    Utf8.AsciiDecoded(HELLO);
  }

  lemma {:induction false} HelloWritten()
    ensures EncodeFrame(Sent(true, TEXT, HELLO_KEY, HELLO))
      == [0x81, 0x85, 0x37, 0xfa, 0x21, 0x3d, 0x7f, 0x9f, 0x4d, 0x51, 0x58]
  {
    hide Masked;
    HelloMasked();
    assert HeadBytes(Sent(true, TEXT, HELLO_KEY, HELLO)) == [0x81, 0x85, 0x37, 0xfa, 0x21, 0x3d];
  }

  // ------------------------------------------------------------------ messages as a client sends them

  datatype Control = Control(ping: bool, mask: Mask, payload: seq<Byte>)

  /** A fragment of a message, after the control frames sent before it. */
  datatype Piece = Piece(before: seq<Control>, mask: Mask, payload: seq<Byte>)

  datatype Msg = Msg(text: bool, pieces: seq<Piece>)

  function ControlFrame(c: Control): Sent { Sent(true, if c.ping then PING else PONG, c.mask, c.payload) }

  function ControlEvent(c: Control): Event { if c.ping then Ping(c.payload) else Pong(c.payload) }

  predicate SmallControl(c: Control) { |c.payload| <= 125 }

  predicate AllSmall(cs: seq<Control>) { cs == [] || (SmallControl(cs[0]) && AllSmall(cs[1..])) }

  function ControlBytes(cs: seq<Control>): seq<Byte>
    requires AllSmall(cs)
  {
    if cs == [] then [] else EncodeFrame(ControlFrame(cs[0])) + ControlBytes(cs[1..])
  }

  function ControlEvents(cs: seq<Control>): seq<Event> {
    if cs == [] then [] else [ControlEvent(cs[0])] + ControlEvents(cs[1..])
  }

  predicate GoodPiece(p: Piece) { |p.payload| <= 0x7fffffff && AllSmall(p.before) }

  predicate AllGood(ps: seq<Piece>) { ps == [] || (GoodPiece(ps[0]) && AllGood(ps[1..])) }

  function PieceFrame(op: nat, fin: bool, p: Piece): Sent { Sent(fin, op, p.mask, p.payload) }

  function PieceBytes(op: nat, fin: bool, p: Piece): seq<Byte>
    requires GoodPiece(p) && op < 16
  {
    ControlBytes(p.before) + EncodeFrame(PieceFrame(op, fin, p))
  }

  /** The first piece carries the kind of the message, every later one continues it, the last is final. */
  function PiecesBytes(op: nat, ps: seq<Piece>): seq<Byte>
    requires op < 16 && AllGood(ps)
  {
    if ps == [] then [] else PieceBytes(op, |ps| == 1, ps[0]) + PiecesBytes(CONT, ps[1..])
  }

  function Kind(m: Msg): nat { if m.text then TEXT else BIN }

  function Content(ps: seq<Piece>): seq<Byte> { if ps == [] then [] else ps[0].payload + Content(ps[1..]) }

  function Interleaved(ps: seq<Piece>): seq<Event> {
    if ps == [] then [] else ControlEvents(ps[0].before) + Interleaved(ps[1..])
  }

  /** A message the endpoint promises to deliver. */
  predicate Conforming(z: Limits, m: Msg) {
    && 0 < |m.pieces| <= z.maxFragments
    && AllGood(m.pieces)
    && |Content(m.pieces)| <= z.maxMessage
    && (m.text ==> Utf8.WellFormed(Content(m.pieces)))
  }

  function Delivered(m: Msg): Event { if m.text then Text(Content(m.pieces)) else Binary(Content(m.pieces)) }

  lemma {:induction false} ControlsReceived(z: Limits, rx: Rx, cs: seq<Control>)
    requires Between(rx) && rx.status == Open && AllSmall(cs)
    ensures Receive(z, rx, ControlBytes(cs)) == rx.(events := rx.events + ControlEvents(cs))
    decreases |cs|
  {
    if cs == [] {
      assert rx.events + ControlEvents(cs) == rx.events;
    } else {
      FrameReceived(z, rx, ControlFrame(cs[0]));
      var next := Emit(rx, ControlEvent(cs[0]));
      ReceiveAppend(z, rx, EncodeFrame(ControlFrame(cs[0])), ControlBytes(cs[1..]));
      ControlsReceived(z, next, cs[1..]);
      assert ControlEvents(cs) == [ControlEvent(cs[0])] + ControlEvents(cs[1..]);
      FourParts(rx.events, [ControlEvent(cs[0])], ControlEvents(cs[1..]), []);
      assert next.events + ControlEvents(cs[1..]) == rx.events + ControlEvents(cs);
    }
  }

  lemma {:induction false} PieceReceived(z: Limits, rx: Rx, op: nat, fin: bool, p: Piece)
    requires Between(rx) && rx.status == Open && GoodPiece(p) && op < 8 && Fits(z, rx.frag, op, |p.payload|)
    ensures Receive(z, rx, PieceBytes(op, fin, p))
         == Frame(rx.(events := rx.events + ControlEvents(p.before)), op, fin, p.payload)
  {
    ControlsReceived(z, rx, p.before);
    ReceiveAppend(z, rx, ControlBytes(p.before), EncodeFrame(PieceFrame(op, fin, p)));
    FrameReceived(z, rx.(events := rx.events + ControlEvents(p.before)), PieceFrame(op, fin, p));
  }

  /** What a message leaves once its remaining pieces have arrived behind those already kept. */
  function Finished(rx: Rx, op: nat, so: seq<Byte>, ps: seq<Piece>): Rx {
    var bytes := so + Content(ps);
    rx.(frag := None, events := rx.events + Interleaved(ps) + [if op == BIN then Binary(bytes) else Text(bytes)])
  }

  predicate Continuing(rx: Rx) {
    Between(rx) && rx.status == Open && rx.frag.Some? && (rx.frag.value.op == TEXT || rx.frag.value.op == BIN)
  }

  lemma {:induction false} LastReceived(z: Limits, rx: Rx, p: Piece)
    requires Continuing(rx) && GoodPiece(p) && |rx.frag.value.parts| < z.maxFragments
    requires FragBytes(rx.frag) + |p.payload| <= z.maxMessage
    requires rx.frag.value.op == TEXT ==> Utf8.WellFormed(Joined(rx.frag.value.parts) + p.payload)
    ensures Receive(z, rx, PiecesBytes(CONT, [p])) == Finished(rx, rx.frag.value.op, Joined(rx.frag.value.parts), [p])
  {
    assert [p][1..] == [];
    assert PiecesBytes(CONT, [p]) == PieceBytes(CONT, true, p) + [] == PieceBytes(CONT, true, p);
    assert Content([p]) == p.payload + [] == p.payload;
    assert Interleaved([p]) == ControlEvents(p.before) + [] == ControlEvents(p.before);
    PieceReceived(z, rx, CONT, true, p);
  }

  lemma {:induction false} NextReceived(z: Limits, rx: Rx, p: Piece)
    requires Continuing(rx) && GoodPiece(p) && |rx.frag.value.parts| < z.maxFragments
    requires FragBytes(rx.frag) + |p.payload| <= z.maxMessage
    ensures var next := Receive(z, rx, PieceBytes(CONT, false, p));
      && Continuing(next) && next.frag.value.op == rx.frag.value.op
      && next.frag.value.parts == rx.frag.value.parts + [p.payload]
      && Joined(next.frag.value.parts) == Joined(rx.frag.value.parts) + p.payload
      && next.events == rx.events + ControlEvents(p.before)
      && next == rx.(frag := next.frag, events := next.events)
  {
    PieceReceived(z, rx, CONT, false, p);
    JoinedAppend(rx.frag.value.parts, p.payload);
  }

  lemma {:induction false} RestReceived(z: Limits, rx: Rx, ps: seq<Piece>)
    requires Continuing(rx) && ps != [] && AllGood(ps)
    requires |rx.frag.value.parts| + |ps| <= z.maxFragments
    requires FragBytes(rx.frag) + |Content(ps)| <= z.maxMessage
    requires rx.frag.value.op == TEXT ==> Utf8.WellFormed(Joined(rx.frag.value.parts) + Content(ps))
    ensures Receive(z, rx, PiecesBytes(CONT, ps)) == Finished(rx, rx.frag.value.op, Joined(rx.frag.value.parts), ps)
    decreases |ps|
  {
    var p, rest := ps[0], ps[1..];
    if |ps| == 1 {
      assert ps == [p] && Content([p]) == p.payload + [] == p.payload;
      LastReceived(z, rx, p);
    } else {
      NextReceived(z, rx, p);
      var next := Receive(z, rx, PieceBytes(CONT, false, p));
      ReceiveAppend(z, rx, PieceBytes(CONT, false, p), PiecesBytes(CONT, rest));
      FinishedLater(rx, next, p, ps);
      RestReceived(z, next, rest);
    }
  }

  lemma {:induction false} FinishedLater(rx: Rx, next: Rx, p: Piece, ps: seq<Piece>)
    requires ps != [] && p == ps[0] && rx.frag.Some? && next.frag.Some?
    requires Joined(next.frag.value.parts) == Joined(rx.frag.value.parts) + p.payload
    requires next.events == rx.events + ControlEvents(p.before)
    requires next == rx.(frag := next.frag, events := next.events)
    ensures Joined(rx.frag.value.parts) + Content(ps) == Joined(next.frag.value.parts) + Content(ps[1..])
    ensures forall op ::
      Finished(next, op, Joined(next.frag.value.parts), ps[1..]) == Finished(rx, op, Joined(rx.frag.value.parts), ps)
  {
    var so, later := Joined(rx.frag.value.parts), Joined(next.frag.value.parts);
    assert Content(ps) == p.payload + Content(ps[1..])
        && Interleaved(ps) == ControlEvents(p.before) + Interleaved(ps[1..]);
    hide Joined, Content, Interleaved, ControlEvents;
    assert later + Content(ps[1..]) == so + Content(ps);
    assert next.events + Interleaved(ps[1..]) == rx.events + Interleaved(ps);
  }

  lemma {:induction false} WholeReceived(z: Limits, rx: Rx, m: Msg)
    requires Between(rx) && rx.status == Open && rx.frag.None? && Conforming(z, m) && |m.pieces| == 1
    ensures Receive(z, rx, PiecesBytes(Kind(m), m.pieces)) ==
        rx.(events := rx.events + Interleaved(m.pieces) + [Delivered(m)])
  {
    var p := m.pieces[0];
    assert m.pieces == [p] && [p][1..] == [];
    assert PiecesBytes(Kind(m), [p]) == PieceBytes(Kind(m), true, p) + [] == PieceBytes(Kind(m), true, p);
    assert Content([p]) == p.payload + [] == p.payload;
    assert Interleaved([p]) == ControlEvents(p.before) + [] == ControlEvents(p.before);
    PieceReceived(z, rx, Kind(m), true, p);
  }

  lemma {:induction false} FirstReceived(z: Limits, rx: Rx, op: nat, p: Piece)
    requires Between(rx) && rx.status == Open && rx.frag.None? && GoodPiece(p) && (op == TEXT || op == BIN)
    requires |p.payload| <= z.maxMessage
    ensures var next := Receive(z, rx, PieceBytes(op, false, p));
      && Continuing(next) && next.frag.value.op == op
      && next.frag.value.parts == [p.payload] && Joined(next.frag.value.parts) == p.payload
      && next.events == rx.events + ControlEvents(p.before)
      && next == rx.(frag := next.frag, events := next.events)
  {
    PieceReceived(z, rx, op, false, p);
    JoinedAppend([], p.payload);
    assert [] + [p.payload] == [p.payload];
  }

  lemma {:induction false} ThreeParts<T>(a: seq<T>, b: seq<T>, c: seq<T>)
    ensures a + b + c == a + (b + c)
  {}

  /** A message in any fragmentation, with any masks and any control frames in between, arrives as it was sent. */
  lemma {:induction false} MessageReceived(z: Limits, rx: Rx, m: Msg)
    requires Between(rx) && rx.status == Open && rx.frag.None? && Conforming(z, m)
    ensures Receive(z, rx, PiecesBytes(Kind(m), m.pieces)) ==
        rx.(events := rx.events + Interleaved(m.pieces) + [Delivered(m)])
  {
    var ps := m.pieces;
    if |ps| == 1 {
      WholeReceived(z, rx, m);
    } else {
      var p, rest := ps[0], ps[1..];
      assert Content(ps) == p.payload + Content(rest);
      FirstReceived(z, rx, Kind(m), p);
      var next := Receive(z, rx, PieceBytes(Kind(m), false, p));
      ReceiveAppend(z, rx, PieceBytes(Kind(m), false, p), PiecesBytes(CONT, rest));
      RestReceived(z, next, rest);
      ThreeParts(rx.events, ControlEvents(p.before), Interleaved(rest));
    }
  }

  predicate AllConforming(z: Limits, ms: seq<Msg>) { ms == [] || (Conforming(z, ms[0]) && AllConforming(z, ms[1..])) }

  function StreamBytes(z: Limits, ms: seq<Msg>): seq<Byte>
    requires AllConforming(z, ms)
  {
    if ms == [] then [] else PiecesBytes(Kind(ms[0]), ms[0].pieces) + StreamBytes(z, ms[1..])
  }

  function StreamEvents(ms: seq<Msg>): seq<Event> {
    if ms == [] then [] else Interleaved(ms[0].pieces) + [Delivered(ms[0])] + StreamEvents(ms[1..])
  }

  lemma {:induction false} FourParts<T>(a: seq<T>, b: seq<T>, c: seq<T>, d: seq<T>)
    ensures a + b + c + d == a + (b + c + d)
  {}

  lemma {:induction false} StreamReceived(z: Limits, rx: Rx, ms: seq<Msg>)
    requires Between(rx) && rx.status == Open && rx.frag.None? && AllConforming(z, ms)
    ensures Receive(z, rx, StreamBytes(z, ms)) == rx.(events := rx.events + StreamEvents(ms))
    decreases |ms|
  {
    if ms == [] {
      assert rx.events + StreamEvents(ms) == rx.events;
    } else {
      var m := ms[0];
      MessageReceived(z, rx, m);
      var next := rx.(events := rx.events + Interleaved(m.pieces) + [Delivered(m)]);
      ReceiveAppend(z, rx, PiecesBytes(Kind(m), m.pieces), StreamBytes(z, ms[1..]));
      StreamReceived(z, next, ms[1..]);
      FourParts(rx.events, Interleaved(m.pieces), [Delivered(m)], StreamEvents(ms[1..]));
    }
  }

  /** The round trip: a conforming stream, cut anywhere, is delivered message by message and leaves nothing behind. */
  lemma {:induction false} ConformingStreamDelivered(z: Limits, ms: seq<Msg>, chunks: seq<seq<Byte>>)
    requires AllConforming(z, ms)
    requires Concat(chunks) == StreamBytes(z, ms)
    ensures ReceiveAll(z, START, chunks) == START.(events := StreamEvents(ms))
  {
    ReceiveAllIsReceive(z, START, chunks);
    StreamReceived(z, START, ms);
    assert START.events + StreamEvents(ms) == StreamEvents(ms);
  }
}
