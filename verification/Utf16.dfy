/** JavaScript strings: sequences of 16-bit units, with pairs of surrogates. */
module Utf16 {
  // In a JavaScript string a character beyond 0xFFFF is a pair of surrogates. Writing a text as UTF-8
  // turns a surrogate that is not part of a pair into the replacement character.

  import opened Common
  import Utf8

  type Unit = n: nat | n < 0x10000

  type Text = seq<Unit>

  predicate High(u: Unit) { 0xD800 <= u < 0xDC00 }

  predicate Low(u: Unit) { 0xDC00 <= u < 0xE000 }

  function Pair(h: Unit, l: Unit): Utf8.Point
    requires High(h) && Low(l)
  {
    0x10000 + (h - 0xD800) * 1024 + (l - 0xDC00)
  }

  /** The scalar value a unit stands for when it is not the first of a pair. */
  function Alone(u: Unit): Utf8.Point { if High(u) || Low(u) then 0xFFFD else u }

  predicate Paired(s: Text) { |s| >= 2 && High(s[0]) && Low(s[1]) }

  function Points(s: Text): seq<Utf8.Point> {
    if s == [] then []
    else if Paired(s) then [Pair(s[0], s[1])] + Points(s[2..])
    else [Alone(s[0])] + Points(s[1..])
  }

  /** `Buffer.from(s, 'utf8')` */
  function Bytes(s: Text): seq<Byte> { Utf8.Encode(Points(s)) }

  /** `Buffer.byteLength(s)` */
  function ByteLength(s: Text): nat { |Bytes(s)| }

  /** The second text begins with the other half of a character whose first half ends the first text. */
  predicate Joins(a: Text, b: Text) { a != [] && b != [] && High(a[|a| - 1]) && Low(b[0]) }

  lemma {:induction false} EncodeAppend(a: seq<Utf8.Point>, b: seq<Utf8.Point>)
    ensures Utf8.Encode(a + b) == Utf8.Encode(a) + Utf8.Encode(b)
    decreases |a|
  {
    if a == [] {
      assert a + b == b;
    } else {
      assert (a + b)[1..] == a[1..] + b;
      EncodeAppend(a[1..], b);
    }
  }

  lemma {:induction false} PointsAppend(a: Text, b: Text)
    requires !Joins(a, b)
    ensures Points(a + b) == Points(a) + Points(b)
    decreases |a|
  {
    if a == [] {
      assert a + b == b;
    } else if Paired(a) {
      assert (a + b)[2..] == a[2..] + b;
      PointsAppend(a[2..], b);
    } else {
      assert (a + b)[1..] == a[1..] + b;
      assert |a| == 1 ==> a[0] == a[|a| - 1];
      assert |a| == 1 && b != [] ==> (a + b)[1] == b[0];
      assert |a| >= 2 ==> (a + b)[1] == a[1];
      PointsAppend(a[1..], b);
    }
  }

  lemma {:induction false} PointsJoined(a: Text, b: Text)
    requires Joins(a, b)
    ensures Points(a + b) == Points(a[..|a| - 1]) + [Pair(a[|a| - 1], b[0])] + Points(b[1..])
    ensures Points(a) == Points(a[..|a| - 1]) + [0xFFFD]
    ensures Points(b) == [0xFFFD] + Points(b[1..])
  {
    var init, h := a[..|a| - 1], a[|a| - 1];
    assert a == init + [h];
    PointsAppend(init, [h]);
    assert Points([h]) == [0xFFFD] by { assert [h][1..] == []; }
    var rest := [h] + b;
    assert a + b == init + rest;
    PointsAppend(init, rest);
    assert rest[2..] == b[1..] && rest[1] == b[0];
  }

  lemma {:induction false} OneLength(c: Utf8.Point)
    ensures |Utf8.Encode([c])| == |Utf8.EncodeOne(c)|
  {
    assert [c][1..] == [];
  }

  /** Lengths add up exactly unless the texts join in the middle of a character; then the whole is two bytes shorter. */
  lemma {:induction false} LengthsAdd(a: Text, b: Text)
    ensures ByteLength(a + b) == ByteLength(a) + ByteLength(b) - if Joins(a, b) then 2 else 0
  {
    if Joins(a, b) {
      PointsJoined(a, b);
      var p, q, c := Points(a[..|a| - 1]), Points(b[1..]), Pair(a[|a| - 1], b[0]);
      EncodeAppend(p + [c], q);
      EncodeAppend(p, [c]);
      EncodeAppend(p, [0xFFFD]);
      EncodeAppend([0xFFFD], q);
      OneLength(c);
      OneLength(0xFFFD);
    } else {
      PointsAppend(a, b);
      EncodeAppend(Points(a), Points(b));
    }
  }

  /** The example of section 2 of RFC 2781: U+12345 is the pair D808 DF45, and four bytes of UTF-8. */
  lemma {:induction false} PairExample()
    ensures Points([0xD808, 0xDF45]) == [0x12345] && Bytes([0xD808, 0xDF45]) == [0xF0, 0x92, 0x8D, 0x85]
  {
    assert [0xD808, 0xDF45][2..] == [];
    assert Utf8.EncodeOne(0x12345) == [0xF0, 0x92, 0x8D, 0x85];
    Utf8.Unfold([0x12345]);
    assert [0x12345][1..] == [];
  }
}
