/** Strict UTF-8 (section 4 of RFC 3629): a bijection between scalar values and well-formed bytes. */
module Utf8 {
  import opened Common

  predicate Scalar(c: int) { 0 <= c < 0xD800 || 0xE000 <= c < 0x110000 }

  type Point = c: int | 0 <= c < 0xD800 || 0xE000 <= c < 0x110000

  predicate Tail(b: Byte) { 0x80 <= b < 0xC0 }

  function ToByte(n: int): Byte
    requires 0 <= n < 256
  {
    n
  }

  function EncodeOne(c: Point): seq<Byte> {
    if c < 0x80 then [ToByte(c)]
    else if c < 0x800 then [ToByte(0xC0 + c / 64), ToByte(0x80 + c % 64)]
    else if c < 0x10000 then [ToByte(0xE0 + c / 4096), ToByte(0x80 + c / 64 % 64), ToByte(0x80 + c % 64)]
    else [ToByte(0xF0 + c / 262144), ToByte(0x80 + c / 4096 % 64), ToByte(0x80 + c / 64 % 64), ToByte(0x80 + c % 64)]
  }

  function Encode(cs: seq<Point>): seq<Byte> {
    if cs == [] then [] else EncodeOne(cs[0]) + Encode(cs[1..])
  }

  function Two(a: int, b: int): int { (a - 0xC0) * 64 + (b - 0x80) }

  function Three(a: int, b: int, c: int): int { (a - 0xE0) * 4096 + (b - 0x80) * 64 + (c - 0x80) }

  function Four(a: int, b: int, c: int, d: int): int {
    (a - 0xF0) * 262144 + (b - 0x80) * 4096 + (c - 0x80) * 64 + (d - 0x80)
  }

  /** The first scalar value of a text and the number of its bytes; nothing for an ill-formed beginning. */
  function First(s: seq<Byte>): Option<(Point, nat)>
    requires s != []
  {
    if s[0] < 0x80 then Some((s[0], 1))
    else if 0xC2 <= s[0] < 0xE0 && |s| >= 2 && Tail(s[1]) then Some((Two(s[0], s[1]), 2))
    else if 0xE0 <= s[0] < 0xF0 && |s| >= 3 && Tail(s[1]) && Tail(s[2]) then
      var c := Three(s[0], s[1], s[2]);
      if c >= 0x800 && Scalar(c) then Some((c, 3)) else None
    else if 0xF0 <= s[0] < 0xF5 && |s| >= 4 && Tail(s[1]) && Tail(s[2]) && Tail(s[3]) then
      var c := Four(s[0], s[1], s[2], s[3]);
      if c >= 0x10000 && Scalar(c) then Some((c, 4)) else None
    else None
  }

  function Decode(s: seq<Byte>): Option<seq<Point>> {
    if s == [] then Some([])
    else
      match First(s)
      case None => None
      case Some((c, n)) =>
        match Decode(s[n..])
        case None => None
        case Some(cs) => Some([c] + cs)
  }

  predicate WellFormed(s: seq<Byte>) { Decode(s).Some? }

  lemma {:induction false} Digits2(a: nat, b: nat)
    requires b < 64
    ensures (a * 64 + b) / 64 == a && (a * 64 + b) % 64 == b
  {}

  lemma {:induction false} Digits3(a: nat, b: nat, c: nat)
    requires b < 64 && c < 64
    ensures var n := a * 4096 + b * 64 + c; n / 4096 == a && n / 64 % 64 == b && n % 64 == c
  {
    Digits2(a * 64 + b, c);
    Digits2(a, b);
    assert (a * 64 + b) * 64 + c == a * 4096 + b * 64 + c;
  }

  lemma {:induction false} Digits4(a: nat, b: nat, c: nat, d: nat)
    requires b < 64 && c < 64 && d < 64
    ensures var n := a * 262144 + b * 4096 + c * 64 + d;
      n / 262144 == a && n / 4096 % 64 == b && n / 64 % 64 == c && n % 64 == d
  {
    Digits3(a, b, c);
    Digits2(a * 4096 + b * 64 + c, d);
    assert (a * 4096 + b * 64 + c) * 64 + d == a * 262144 + b * 4096 + c * 64 + d;
  }

  lemma {:induction false} Split2(n: nat)
    ensures n == n / 64 * 64 + n % 64
  {}

  lemma {:induction false} Split3(n: nat)
    ensures n == n / 4096 * 4096 + n / 64 % 64 * 64 + n % 64
  {
    assert n / 4096 == n / 64 / 64;
  }

  lemma {:induction false} Split4(n: nat)
    ensures n == n / 262144 * 262144 + n / 4096 % 64 * 4096 + n / 64 % 64 * 64 + n % 64
  {
    Split3(n / 64);
    assert n / 262144 == n / 64 / 4096 && n / 4096 == n / 64 / 64;
  }

  /** What is encoded is read back, whatever follows it. */
  lemma {:induction false} FirstOfEncoded(c: Point, rest: seq<Byte>)
    ensures First(EncodeOne(c) + rest) == Some((c, |EncodeOne(c)|))
  {
    var e := EncodeOne(c);
    var s := e + rest;
    if c >= 0x10000 {
      assert s[..4] == e && s[0] == e[0] && s[1] == e[1] && s[2] == e[2] && s[3] == e[3];
      Split4(c);
      assert Four(s[0], s[1], s[2], s[3]) == c;
    } else if c >= 0x800 {
      assert s[0] == e[0] && s[1] == e[1] && s[2] == e[2];
      Split3(c);
      assert Three(s[0], s[1], s[2]) == c;
    } else if c >= 0x80 {
      assert s[0] == e[0] && s[1] == e[1];
      Split2(c);
      assert Two(s[0], s[1]) == c;
    }
  }

  /** And what is read was encoded so: there is no second spelling. */
  lemma {:induction false} FirstIsEncoded(s: seq<Byte>)
    requires s != [] && First(s).Some?
    ensures var (c, n) := First(s).value; n <= |s| && n == |EncodeOne(c)| && s[..n] == EncodeOne(c)
  {
    var (c, n) := First(s).value;
    if n == 2 {
      Digits2(s[0] - 0xC0, s[1] - 0x80);
    } else if n == 3 {
      Digits3(s[0] - 0xE0, s[1] - 0x80, s[2] - 0x80);
    } else if n == 4 {
      Digits4(s[0] - 0xF0, s[1] - 0x80, s[2] - 0x80, s[3] - 0x80);
    }
  }

  lemma {:induction false} DecodeEncoded(cs: seq<Point>)
    ensures Decode(Encode(cs)) == Some(cs)
    decreases |cs|
  {
    if cs != [] {
      FirstOfEncoded(cs[0], Encode(cs[1..]));
      DecodeEncoded(cs[1..]);
      assert [cs[0]] + cs[1..] == cs;
      assert (EncodeOne(cs[0]) + Encode(cs[1..]))[|EncodeOne(cs[0])|..] == Encode(cs[1..]);
    }
  }

  lemma {:induction false} EncodeDecoded(s: seq<Byte>)
    requires WellFormed(s)
    ensures Encode(Decode(s).value) == s
    decreases |s|
  {
    if s != [] {
      FirstIsEncoded(s);
      var (c, n) := First(s).value;
      EncodeDecoded(s[n..]);
      assert Decode(s).value[1..] == Decode(s[n..]).value;
      assert s == s[..n] + s[n..];
    }
  }

  /** A byte below 0x80 stands for itself. */
  lemma {:induction false} AsciiDecoded(s: seq<Byte>)
    requires forall i :: 0 <= i < |s| ==> s[i] < 0x80
    ensures Decode(s).Some? && |Decode(s).value| == |s|
    ensures forall i :: 0 <= i < |s| ==> Decode(s).value[i] == s[i]
    decreases |s|
  {
    if s != [] {
      AsciiDecoded(s[1..]);
      assert First(s) == Some((s[0], 1));
      assert Decode(s).value == [s[0]] + Decode(s[1..]).value;
    }
  }

  lemma {:induction false} ThreeEncoded(a: Point, b: Point, c: Point)
    ensures Encode([a, b, c]) == EncodeOne(a) + EncodeOne(b) + EncodeOne(c)
  {
    hide EncodeOne;
    var s: seq<Point> := [a, b, c];
    assert s[1..] == [b, c] && [b, c][1..] == [c] && [c][1..] == [];
    Unfold(s);
    Unfold([b, c]);
    Unfold([c]);
    assert Encode([c]) == EncodeOne(c);
  }

  lemma {:induction false} KnownCharacters()
    ensures EncodeOne(0x41) == [0x41] && EncodeOne(0x2262) == [0xE2, 0x89, 0xA2] && EncodeOne(0x391) == [0xCE, 0x91]
    ensures EncodeOne(0xD55C) == [0xED, 0x95, 0x9C] && EncodeOne(0xAD6D) == [0xEA, 0xB5, 0xAD]
    ensures EncodeOne(0xC5B4) == [0xEC, 0x96, 0xB4] && EncodeOne(0x233B4) == [0xF0, 0xA3, 0x8E, 0xB4]
  {}

  /** From the examples of section 7 of RFC 3629: characters of one, two, three and four bytes. */
  lemma {:induction false} Examples()
    ensures Encode([0x41, 0x2262, 0x391]) == [0x41, 0xE2, 0x89, 0xA2, 0xCE, 0x91]
    ensures Encode([0xD55C, 0xAD6D, 0xC5B4]) == [0xED, 0x95, 0x9C, 0xEA, 0xB5, 0xAD, 0xEC, 0x96, 0xB4]
    ensures Encode([0x233B4]) == [0xF0, 0xA3, 0x8E, 0xB4]
  {
    KnownCharacters();
    hide EncodeOne, Encode;
    ThreeEncoded(0x41, 0x2262, 0x391);
    ThreeEncoded(0xD55C, 0xAD6D, 0xC5B4);
    OneEncoded(0x233B4);
  }

  lemma {:induction false} OneEncoded(c: Point)
    ensures Encode([c]) == EncodeOne(c)
  {
    assert [c][1..] == [];
  }

  lemma {:induction false} Unfold(cs: seq<Point>)
    requires cs != []
    ensures Encode(cs) == EncodeOne(cs[0]) + Encode(cs[1..])
  {}
}
