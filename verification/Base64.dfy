/** Canonical base64 (sections 3.5 and 4 of RFC 4648). */
module Base64 {
  // runtime/hermit/protocol/codec.js. Encoding and decoding are inverse to each other, so no byte string has two
  // accepted spellings.

  import opened Common
  import opened Utf16

  const PAD: Unit := 61

  type Sextet = n: nat | n < 64

  function Char(v: Sextet): Unit {
    if v < 26 then 65 + v else if v < 52 then 71 + v else if v < 62 then v - 4 else if v == 62 then 43 else 47
  }

  /** The place of a character in the alphabet, or -1. */
  function Value(c: Unit): int {
    if 65 <= c <= 90 then c - 65 else if 97 <= c <= 122 then c - 71 else if 48 <= c <= 57 then c + 4
    else if c == 43 then 62 else if c == 47 then 63 else -1
  }

  lemma {:induction false} ValueOfChar(v: Sextet)
    ensures Value(Char(v)) == v && Char(v) != PAD
  {}

  lemma {:induction false} CharOfValue(c: Unit)
    requires Value(c) >= 0
    ensures Value(c) < 64 && Char(Value(c)) == c
  {}

  const UPPER: string := "ABCDEFGHIJKLM" + "NOPQRSTUVWXYZ"
  const LOWER: string := "abcdefghijklm" + "nopqrstuvwxyz"
  const DIGITS: string := "0123456789"

  /** Table 1 of RFC 4648. */
  const ALPHABET: string := UPPER + LOWER + DIGITS + "+/"

  lemma {:induction false} LetterAt(v: nat)
    requires v < 13
    ensures UPPER[v] as int == 65 + v && UPPER[13 + v] as int == 78 + v
    ensures LOWER[v] as int == 97 + v && LOWER[13 + v] as int == 110 + v
  {}

  lemma {:induction false} DigitAt(v: nat)
    requires v < 10
    ensures DIGITS[v] as int == 48 + v
  {}

  lemma {:induction false} AlphabetLength()
    ensures |UPPER| == 26 && |LOWER| == 26 && |ALPHABET| == 64
  {}

  lemma {:induction false} Picked(a: string, b: string, c: string, d: string, v: nat)
    requires |a| == 26 && |b| == 26 && |c| == 10 && |d| == 2 && v < 64
    ensures (a + b + c + d)[v] ==
      if v < 26 then a[v] else if v < 52 then b[v - 26] else if v < 62 then c[v - 52] else d[v - 62]
  {}

  lemma {:induction false} LetterIs(v: nat)
    requires v < 26
    ensures UPPER[v] as int == 65 + v && LOWER[v] as int == 97 + v
  {
    LetterAt(if v < 13 then v else v - 13);
  }

  /** The character of a value is the one at its place in the table. */
  lemma {:induction false} CharIsTable(v: Sextet)
    ensures |ALPHABET| == 64 && Char(v) == ALPHABET[v] as int
  {
    AlphabetLength();
    var u, l, d, rest := UPPER, LOWER, DIGITS, "+/";
    Picked(u, l, d, rest, v);
    if v < 26 { LetterIs(v); } else if v < 52 { LetterIs(v - 26); } else if v < 62 { DigitAt(v - 52); }
  }

  /** Only the characters of the table have a value: their place in it. */
  lemma {:induction false} ValueIsTable(c: Unit, v: int)
    ensures |ALPHABET| == 64
    ensures 0 <= v && Value(c) == v <==> 0 <= v < 64 && c == ALPHABET[v] as int
  {
    AlphabetLength();
    if 0 <= v < 64 {
      CharIsTable(v);
      ValueOfChar(v);
    }
    if Value(c) >= 0 { CharOfValue(c); }
  }

  // ------------------------------------------------------------------ three bytes as four sextets

  datatype Quad = Quad(p: Sextet, q: Sextet, r: Sextet, t: Sextet)

  datatype Triple = Triple(a: Byte, b: Byte, c: Byte)

  function ToQuad(x: Triple): Quad { Quad(x.a / 4, x.a % 4 * 16 + x.b / 16, x.b % 16 * 4 + x.c / 64, x.c % 64) }

  function ToTriple(x: Quad): Triple { Triple(x.p * 4 + x.q / 16, x.q % 16 * 16 + x.r / 4, x.r % 4 * 64 + x.t) }

  lemma {:induction false} DividedBy4(q: nat, r: nat)
    requires r < 4
    ensures (q * 4 + r) / 4 == q && (q * 4 + r) % 4 == r
  {}

  lemma {:induction false} DividedBy16(q: nat, r: nat)
    requires r < 16
    ensures (q * 16 + r) / 16 == q && (q * 16 + r) % 16 == r
  {}

  lemma {:induction false} DividedBy64(q: nat, r: nat)
    requires r < 64
    ensures (q * 64 + r) / 64 == q && (q * 64 + r) % 64 == r
  {}

  lemma {:induction false} TripleOfQuad(x: Triple)
    ensures ToTriple(ToQuad(x)) == x
  {
    DividedBy16(x.a % 4, x.b / 16);
    DividedBy4(x.b % 16, x.c / 64);
    assert x.a / 4 * 4 + x.a % 4 == x.a && x.b / 16 * 16 + x.b % 16 == x.b && x.c / 64 * 64 + x.c % 64 == x.c;
  }

  lemma {:induction false} QuadOfTriple(x: Quad)
    ensures ToQuad(ToTriple(x)) == x
  {
    DividedBy4(x.p, x.q / 16);
    DividedBy16(x.q % 16, x.r / 4);
    DividedBy64(x.r % 4, x.t);
    assert x.q / 16 * 16 + x.q % 16 == x.q && x.r / 4 * 4 + x.r % 4 == x.r;
  }

  // ------------------------------------------------------------------ encoding

  function Spell(x: Quad): (t: Text)
    ensures |t| == 4
  {
    [Char(x.p), Char(x.q), Char(x.r), Char(x.t)]
  }

  function SpellTwo(x: Quad): Text { [Char(x.p), Char(x.q), Char(x.r), PAD] }

  function SpellOne(x: Quad): Text { [Char(x.p), Char(x.q), PAD, PAD] }

  function Encode(bytes: seq<Byte>): Text {
    if bytes == [] then []
    else if |bytes| == 1 then SpellOne(ToQuad(Triple(bytes[0], 0, 0)))
    else if |bytes| == 2 then SpellTwo(ToQuad(Triple(bytes[0], bytes[1], 0)))
    else Spell(ToQuad(Triple(bytes[0], bytes[1], bytes[2]))) + Encode(bytes[3..])
  }

  lemma {:induction false} VectorF()
    ensures Encode([102]) == [90, 103, 61, 61]
  {
    assert ToQuad(Triple(102, 0, 0)) == Quad(25, 32, 0, 0);
  }

  lemma {:induction false} VectorFo()
    ensures Encode([102, 111]) == [90, 109, 56, 61]
  {
    assert ToQuad(Triple(102, 111, 0)) == Quad(25, 38, 60, 0);
  }

  lemma {:induction false} VectorB()
    ensures Encode([98]) == [89, 103, 61, 61]
  {
    assert ToQuad(Triple(98, 0, 0)) == Quad(24, 32, 0, 0);
  }

  lemma {:induction false} VectorBa()
    ensures Encode([98, 97]) == [89, 109, 69, 61]
  {
    assert ToQuad(Triple(98, 97, 0)) == Quad(24, 38, 4, 0);
  }

  lemma {:induction false} VectorFoo()
    ensures Encode([102, 111, 111]) == [90, 109, 57, 118]
  {
    var s: seq<Byte> := [102, 111, 111];
    assert ToQuad(Triple(s[0], s[1], s[2])) == Quad(25, 38, 61, 47);
    assert s[3..] == [];
  }

  lemma {:induction false} VectorBar()
    ensures Encode([98, 97, 114]) == [89, 109, 70, 121]
  {
    var s: seq<Byte> := [98, 97, 114];
    assert ToQuad(Triple(s[0], s[1], s[2])) == Quad(24, 38, 5, 50);
    assert s[3..] == [];
  }

  /** The test vectors of section 10 of RFC 4648. */
  lemma {:induction false} TestVectors()
    ensures Encode([]) == [] && Encode([102]) == [90, 103, 61, 61]
    ensures Encode([102, 111]) == [90, 109, 56, 61] && Encode([102, 111, 111]) == [90, 109, 57, 118]
    ensures Encode([102, 111, 111] + [98]) == [90, 109, 57, 118] + [89, 103, 61, 61]
    ensures Encode([102, 111, 111] + [98, 97]) == [90, 109, 57, 118] + [89, 109, 69, 61]
    ensures Encode([102, 111, 111] + [98, 97, 114]) == [90, 109, 57, 118] + [89, 109, 70, 121]
  {
    VectorF();
    VectorFo();
    VectorFoo();
    VectorB();
    VectorBa();
    VectorBar();
    assert Encode([]) == [];
    hide Encode;
    EncodeAppend([102, 111, 111], [98]);
    EncodeAppend([102, 111, 111], [98, 97]);
    EncodeAppend([102, 111, 111], [98, 97, 114]);
  }

  // ------------------------------------------------------------------ decoding

  predicate InAlphabet(c: Unit) { Value(c) >= 0 }

  /** The sextets of a group: its last `pad` characters are padding, and stand for zero. */
  function Read(s: Text, pad: nat): Option<Quad>
    requires |s| == 4 && pad <= 2
  {
    if InAlphabet(s[0]) && InAlphabet(s[1])
       && (if pad >= 2 then s[2] == PAD else InAlphabet(s[2]))
       && (if pad >= 1 then s[3] == PAD else InAlphabet(s[3])) then
      CharOfValue(s[0]);
      CharOfValue(s[1]);
      if pad < 2 then
        CharOfValue(s[2]);
        if pad < 1 then CharOfValue(s[3]); Some(Quad(Value(s[0]), Value(s[1]), Value(s[2]), Value(s[3])))
        else Some(Quad(Value(s[0]), Value(s[1]), Value(s[2]), 0))
      else Some(Quad(Value(s[0]), Value(s[1]), 0, 0))
    else None
  }

  function Bytes(x: Triple, pad: nat): seq<Byte> {
    if pad == 2 then [x.a] else if pad == 1 then [x.a, x.b] else [x.a, x.b, x.c]
  }

  /** The bits beyond the bytes that a padded group stands for. */
  predicate Trailing(x: Quad, pad: nat) { (pad == 2 && x.q % 16 != 0) || (pad == 1 && x.r % 4 != 0) }

  function Group(s: Text, pad: nat): Option<seq<Byte>>
    requires |s| == 4 && pad <= 2
  {
    var x := Read(s, pad);
    if x.None? || Trailing(x.value, pad) then None else Some(Bytes(ToTriple(x.value), pad))
  }

  /** `n + 1` groups, the last with `pad` characters of padding. */
  function Groups(s: Text, n: nat, pad: nat): Option<seq<Byte>>
    requires |s| == 4 * n + 4 && pad <= 2
    decreases n
  {
    if n == 0 then Group(s, pad)
    else
      var first, rest := Group(s[..4], 0), Groups(s[4..], n - 1, pad);
      if first.None? || rest.None? then None else Some(first.value + rest.value)
  }

  function Padding(s: Text): nat
    requires |s| >= 2
  {
    (if s[|s| - 1] == PAD then 1 else 0) + (if s[|s| - 2] == PAD then 1 else 0)
  }

  function Decode(s: Text): Option<seq<Byte>> {
    if |s| % 4 != 0 then None else if s == [] then Some([]) else Groups(s, |s| / 4 - 1, Padding(s))
  }

  // ------------------------------------------------------------------ groups

  lemma {:induction false} ReadSpelled(x: Quad)
    ensures Read(Spell(x), 0) == Some(x)
    ensures x.t == 0 ==> Read(SpellTwo(x), 1) == Some(x)
    ensures x.t == 0 && x.r == 0 ==> Read(SpellOne(x), 2) == Some(x)
  {
    ValueOfChar(x.p);
    ValueOfChar(x.q);
    ValueOfChar(x.r);
    ValueOfChar(x.t);
  }

  lemma {:induction false} SpellRead(s: Text, pad: nat)
    requires |s| == 4 && pad <= 2 && Read(s, pad).Some?
    ensures var x := Read(s, pad).value;
      && s == (if pad == 2 then SpellOne(x) else if pad == 1 then SpellTwo(x) else Spell(x))
      && (pad >= 1 ==> x.t == 0) && (pad == 2 ==> x.r == 0)
  {
    CharOfValue(s[0]);
    CharOfValue(s[1]);
    if pad < 2 { CharOfValue(s[2]); }
    if pad < 1 { CharOfValue(s[3]); }
  }

  lemma {:induction false} GroupOfThree(a: Byte, b: Byte, c: Byte)
    ensures Group(Spell(ToQuad(Triple(a, b, c))), 0) == Some([a, b, c])
  {
    TripleOfQuad(Triple(a, b, c));
    ReadSpelled(ToQuad(Triple(a, b, c)));
  }

  lemma {:induction false} GroupOfTwo(a: Byte, b: Byte)
    ensures Group(SpellTwo(ToQuad(Triple(a, b, 0))), 1) == Some([a, b])
  {
    TripleOfQuad(Triple(a, b, 0));
    ReadSpelled(ToQuad(Triple(a, b, 0)));
  }

  lemma {:induction false} GroupOfOne(a: Byte)
    ensures Group(SpellOne(ToQuad(Triple(a, 0, 0))), 2) == Some([a])
  {
    TripleOfQuad(Triple(a, 0, 0));
    ReadSpelled(ToQuad(Triple(a, 0, 0)));
  }

  /** A decoded group is spelled in one way only. */
  lemma {:induction false} GroupEncoded(s: Text, pad: nat)
    requires |s| == 4 && pad <= 2 && Group(s, pad).Some?
    ensures |Group(s, pad).value| == 3 - pad && Encode(Group(s, pad).value) == s
  {
    SpellRead(s, pad);
    var x := Read(s, pad).value;
    QuadOfTriple(x);
    var y := ToTriple(x);
    assert pad == 2 ==> y.b == 0 && y.c == 0;
    assert pad == 1 ==> y.c == 0;
    assert y == Triple(y.a, y.b, y.c);
    if pad == 0 {
      assert [y.a, y.b, y.c][3..] == [];
      assert Spell(x) + [] == Spell(x);
    }
  }

  // ------------------------------------------------------------------ the bijection

  function PadOf(n: nat): nat { if n % 3 == 1 then 2 else if n % 3 == 2 then 1 else 0 }

  function GroupCount(n: nat): nat { (n + 2) / 3 }

  lemma {:induction false} PaddingLast(a: Text, b: Text)
    requires |b| >= 2
    ensures Padding(a + b) == Padding(b)
  {}

  lemma {:induction false} OneThirdLess(n: nat)
    requires n >= 3
    ensures GroupCount(n) == GroupCount(n - 3) + 1 && PadOf(n) == PadOf(n - 3)
  {}

  lemma {:induction false} NoPadding(x: Quad)
    ensures Padding(Spell(x)) == 0
  {
    ValueOfChar(x.r);
    ValueOfChar(x.t);
  }

  lemma {:induction false} ShortShape(bytes: seq<Byte>)
    requires |bytes| == 1 || |bytes| == 2
    ensures |Encode(bytes)| == 4 && Padding(Encode(bytes)) == PadOf(|bytes|)
  {
    if |bytes| == 1 {
      ValueOfChar(ToQuad(Triple(bytes[0], 0, 0)).q);
    } else {
      ValueOfChar(ToQuad(Triple(bytes[0], bytes[1], 0)).r);
    }
  }

  lemma {:induction false} EncodeShape(bytes: seq<Byte>)
    ensures |Encode(bytes)| == 4 * GroupCount(|bytes|)
    ensures bytes != [] ==> |Encode(bytes)| >= 4 && Padding(Encode(bytes)) == PadOf(|bytes|)
    decreases |bytes|
  {
    if |bytes| == 1 || |bytes| == 2 {
      ShortShape(bytes);
    } else if bytes != [] {
      var x, rest := ToQuad(Triple(bytes[0], bytes[1], bytes[2])), bytes[3..];
      EncodeShape(rest);
      OneThirdLess(|bytes|);
      if rest == [] {
        NoPadding(x);
        assert Encode(bytes) == Spell(x) + [] == Spell(x);
      } else {
        PaddingLast(Spell(x), Encode(rest));
      }
    }
  }

  lemma {:induction false} GroupsOfEncoded(bytes: seq<Byte>, n: nat)
    requires |Encode(bytes)| == 4 * n + 4 && n + 1 == GroupCount(|bytes|)
    ensures Groups(Encode(bytes), n, PadOf(|bytes|)) == Some(bytes)
    decreases n
  {
    if |bytes| == 1 {
      GroupOfOne(bytes[0]);
      assert bytes == [bytes[0]];
    } else if |bytes| == 2 {
      GroupOfTwo(bytes[0], bytes[1]);
      assert bytes == [bytes[0], bytes[1]];
    } else if |bytes| == 3 {
      GroupsOfThree(bytes);
    } else {
      GroupsOfLonger(bytes, n);
    }
  }

  lemma {:induction false} GroupsOfThree(bytes: seq<Byte>)
    requires |bytes| == 3
    ensures |Encode(bytes)| == 4 && Groups(Encode(bytes), 0, 0) == Some(bytes)
  {
    var first := Spell(ToQuad(Triple(bytes[0], bytes[1], bytes[2])));
    GroupOfThree(bytes[0], bytes[1], bytes[2]);
    assert bytes[3..] == [] && Encode(bytes) == first + [] == first;
    assert bytes == [bytes[0], bytes[1], bytes[2]];
  }

  lemma {:induction false} GroupsPrepend(first: Text, three: seq<Byte>, more: Text, rest: seq<Byte>, n: nat, pad: nat)
    requires |first| == 4 && Group(first, 0) == Some(three)
    requires |more| == 4 * n + 4 && pad <= 2 && Groups(more, n, pad) == Some(rest)
    ensures Groups(first + more, n + 1, pad) == Some(three + rest)
  {
    hide Group;
    SpelledFirst(first, more);
  }

  lemma {:induction false} EncodeFirst(bytes: seq<Byte>)
    requires |bytes| >= 3
    ensures Encode(bytes) == Spell(ToQuad(Triple(bytes[0], bytes[1], bytes[2]))) + Encode(bytes[3..])
    ensures bytes == [bytes[0], bytes[1], bytes[2]] + bytes[3..]
  {
    hide Spell, ToQuad;
  }

  lemma {:induction false} GroupsOfLonger(bytes: seq<Byte>, n: nat)
    requires |bytes| > 3 && |Encode(bytes)| == 4 * n + 4 && n + 1 == GroupCount(|bytes|)
    ensures Groups(Encode(bytes), n, PadOf(|bytes|)) == Some(bytes)
    decreases n, 0
  {
    hide Group, Groups, Spell, ToQuad, Encode;
    OneThirdLess(|bytes|);
    var rest := bytes[3..];
    EncodeFirst(bytes);
    EncodeShape(rest);
    GroupsOfEncoded(rest, n - 1);
    PrependThree(bytes, n - 1, PadOf(|rest|));
  }

  lemma {:induction false} PrependThree(bytes: seq<Byte>, n: nat, pad: nat)
    requires |bytes| > 3 && pad <= 2 && |Encode(bytes[3..])| == 4 * n + 4
    requires Groups(Encode(bytes[3..]), n, pad) == Some(bytes[3..])
    ensures |Encode(bytes)| == 4 * n + 8 && Groups(Encode(bytes), n + 1, pad) == Some(bytes)
  {
    hide Group, Groups, Spell, ToQuad, Encode;
    EncodeFirst(bytes);
    GroupOfThree(bytes[0], bytes[1], bytes[2]);
    GroupsPrepend(Spell(ToQuad(Triple(bytes[0], bytes[1], bytes[2]))), [bytes[0], bytes[1], bytes[2]],
                  Encode(bytes[3..]), bytes[3..], n, pad);
  }

  lemma {:induction false} SpelledFirst(first: Text, rest: Text)
    requires |first| == 4
    ensures (first + rest)[..4] == first && (first + rest)[4..] == rest
  {}

  /** Every byte string survives encoding. */
  lemma {:induction false} DecodeEncoded(bytes: seq<Byte>)
    ensures Decode(Encode(bytes)) == Some(bytes)
  {
    EncodeShape(bytes);
    if bytes != [] { GroupsOfEncoded(bytes, |Encode(bytes)| / 4 - 1); }
  }

  lemma {:induction false} EncodeAppend(three: seq<Byte>, rest: seq<Byte>)
    requires |three| == 3
    ensures Encode(three + rest) == Encode(three) + Encode(rest)
  {
    assert (three + rest)[3..] == rest && three[3..] == [];
    assert Spell(ToQuad(Triple(three[0], three[1], three[2]))) + [] ==
        Spell(ToQuad(Triple(three[0], three[1], three[2])));
  }

  lemma {:induction false} GroupsEncoded(s: Text, n: nat, pad: nat)
    requires |s| == 4 * n + 4 && pad <= 2 && Groups(s, n, pad).Some?
    ensures Encode(Groups(s, n, pad).value) == s
    decreases n
  {
    if n == 0 {
      GroupEncoded(s, pad);
    } else {
      GroupEncoded(s[..4], 0);
      GroupsEncoded(s[4..], n - 1, pad);
      EncodeAppend(Group(s[..4], 0).value, Groups(s[4..], n - 1, pad).value);
      assert s == s[..4] + s[4..];
    }
  }

  /** Whatever is accepted is the canonical spelling of what it decodes to. */
  lemma {:induction false} EncodeDecoded(s: Text)
    requires Decode(s).Some?
    ensures Encode(Decode(s).value) == s
  {
    if s != [] { GroupsEncoded(s, |s| / 4 - 1, Padding(s)); }
  }

  // ------------------------------------------------------------------ the loops, on 24-bit words

  function Word(x: Triple): nat { x.a * 65536 + x.b * 256 + x.c }

  function Packed(x: Quad): nat { x.p * 262144 + x.q * 4096 + x.r * 64 + x.t }

  lemma {:induction false} WordBits(x: Triple)
    ensures var v, y := Word(x), ToQuad(x);
      v / 262144 == y.p && v / 4096 % 64 == y.q && v / 64 % 64 == y.r && v % 64 == y.t
  {
    var v, y := Word(x), ToQuad(x);
    TripleOfQuad(x);
    PackedIsWord(y);
    PackedBits(y);
  }

  lemma {:induction false} PackedIsWord(y: Quad)
    ensures Word(ToTriple(y)) == Packed(y)
  {}

  lemma {:induction false} PackedBits(y: Quad)
    ensures var v := Packed(y);
      v / 262144 == y.p && v / 4096 % 64 == y.q && v / 64 % 64 == y.r && v % 64 == y.t
  {
    var v := Packed(y);
    assert v / 64 == y.p * 4096 + y.q * 64 + y.r && v / 4096 == y.p * 64 + y.q;
  }

  lemma {:induction false} TripleBits(x: Triple)
    ensures var v := Word(x); v / 65536 % 256 == x.a && v / 256 % 256 == x.b && v % 256 == x.c
  {
    var v := Word(x);
    assert v / 256 == x.a * 256 + x.b && v / 65536 == x.a;
  }

  method Spelled(v: nat, kept: nat) returns (out: Text)
    requires v < 16777216 && 2 <= kept <= 4
    ensures |out| == 4 && forall i :: 0 <= i < 4 ==> out[i] == if i >= kept then PAD else Char(SextetOf(v, i))
  {
    out := [Char(v / 262144), Char(v / 4096 % 64)];
    if kept >= 3 { out := out + [Char(v / 64 % 64)]; } else { out := out + [PAD]; }
    if kept >= 4 { out := out + [Char(v % 64)]; } else { out := out + [PAD]; }
  }

  function SextetOf(v: nat, i: nat): Sextet
    requires v < 16777216
  {
    if i == 0 then v / 262144 else if i == 1 then v / 4096 % 64 else if i == 2 then v / 64 % 64 else v % 64
  }

  method EncodeLoop(bytes: array<Byte>) returns (out: Text)
    ensures out == Encode(bytes[..])
  {
    out := [];
    var k := 0;
    assert bytes[0..] == bytes[..];
    while k + 2 < bytes.Length
      invariant 0 <= k <= bytes.Length
      invariant out + Encode(bytes[k..]) == Encode(bytes[..])
    {
      var x := Triple(bytes[k], bytes[k + 1], bytes[k + 2]);
      var four := Spelled(Word(x), 4);
      WordBits(x);
      ghost var rest := bytes[k..];
      assert rest[3..] == bytes[k + 3..] && four == Spell(ToQuad(x));
      assert out + four + Encode(bytes[k + 3..]) == out + (four + Encode(bytes[k + 3..]));
      out := out + four;
      k := k + 3;
    }
    var tail: Text := [];
    if k + 1 == bytes.Length {
      WordBits(Triple(bytes[k], 0, 0));
      tail := Spelled(bytes[k] as nat * 65536, 2);
      assert bytes[k..] == [bytes[k]] && tail == SpellOne(ToQuad(Triple(bytes[k], 0, 0)));
    } else if k + 2 == bytes.Length {
      WordBits(Triple(bytes[k], bytes[k + 1], 0));
      tail := Spelled(bytes[k] as nat * 65536 + bytes[k + 1] as nat * 256, 3);
      assert bytes[k..] == [bytes[k], bytes[k + 1]] && tail == SpellTwo(ToQuad(Triple(bytes[k], bytes[k + 1], 0)));
    } else {
      assert bytes[k..] == [];
    }
    out := out + tail;
  }

  /** The four characters of a group, one by one. */
  method ReadGroup(s: Text, k: nat, pad: nat) returns (x: Option<Quad>)
    requires k + 4 <= |s| && pad <= 2
    ensures x == Read(s[k..k + 4], pad)
  {
    var q: seq<Sextet> := [];
    ghost var g := s[k..k + 4];
    for j := 0 to 4
      invariant |q| == j
      invariant forall i :: 0 <= i < j ==> if i >= 4 - pad then g[i] == PAD && q[i] == 0 else Value(g[i]) == q[i]
    {
      var c := s[k + j];
      assert c == g[j];
      if j >= 4 - pad {
        if c != PAD { return None; }
        q := q + [0];
      } else {
        var v := Value(c);
        if v < 0 { return None; }
        CharOfValue(c);
        q := q + [v];
      }
    }
    x := Some(Quad(q[0], q[1], q[2], q[3]));
  }

  /** What has been written, followed by the groups still to be read. */
  function Prefixed(out: seq<Byte>, rest: Option<seq<Byte>>): Option<seq<Byte>> {
    if rest.None? then None else Some(out + rest.value)
  }

  lemma {:induction false} PrefixedFurther(s: Text, n: nat, pad: nat, out: seq<Byte>)
    requires n > 0 && |s| == 4 * n + 4 && pad <= 2
    ensures var some := Group(s[..4], 0);
      Prefixed(out, Groups(s, n, pad))
        == if some.None? then None else Prefixed(out + some.value, Groups(s[4..], n - 1, pad))
  {
    var some, rest := Group(s[..4], 0), Groups(s[4..], n - 1, pad);
    if some.Some? && rest.Some? { assert out + (some.value + rest.value) == out + some.value + rest.value; }
  }

  /** The bytes of one group, from a 24-bit word. */
  method GroupBytes(x: Quad, pad: nat) returns (some: seq<Byte>)
    requires pad <= 2
    ensures some == Bytes(ToTriple(x), pad)
  {
    var v: nat := Packed(x);
    PackedIsWord(x);
    TripleBits(ToTriple(x));
    some := [v / 65536 % 256];
    if pad != 2 { some := some + [v / 256 % 256]; }
    if pad < 1 { some := some + [v % 256]; }
  }

  lemma {:induction false} PrefixedNothing(rest: Option<seq<Byte>>)
    ensures Prefixed([], rest) == rest
  {
    if rest.Some? { assert [] + rest.value == rest.value; }
  }

  /** Every group but the last, which alone may be padded. */
  method FullGroups(s: Text, n: nat, pad: nat) returns (out: Option<seq<Byte>>)
    requires |s| == 4 * n + 4 && pad <= 2
    ensures Groups(s, n, pad) == if out.None? then None else Prefixed(out.value, Group(s[4 * n..], pad))
  {
    var bytes: seq<Byte> := [];
    PrefixedNothing(Groups(s, n, pad));
    assert s[4 * 0..] == s;
    for i := 0 to n
      invariant |s[4 * i..]| == 4 * (n - i) + 4
      invariant Groups(s, n, pad) == Prefixed(bytes, Groups(s[4 * i..], n - i, pad))
    {
      var x := ReadGroup(s, 4 * i, 0);
      ghost var rest := s[4 * i..];
      assert rest[..4] == s[4 * i..4 * i + 4] && rest[4..] == s[4 * (i + 1)..];
      PrefixedFurther(rest, n - i, pad, bytes);
      if x.None? { return None; }
      var some := GroupBytes(x.value, 0);
      bytes := bytes + some;
    }
    out := Some(bytes);
  }

  /** The last group: the bits its padding leaves over must be zero. */
  method LastGroup(s: Text, k: nat, pad: nat) returns (some: Option<seq<Byte>>)
    requires k + 4 <= |s| && pad <= 2
    ensures some == Group(s[k..k + 4], pad)
  {
    hide Read;
    var x := ReadGroup(s, k, pad);
    if x.None? || (pad == 2 && x.value.q % 16 != 0) || (pad == 1 && x.value.r % 4 != 0) { return None; }
    var bytes := GroupBytes(x.value, pad);
    some := Some(bytes);
  }

  method DecodeLoop(s: Text) returns (r: Option<seq<Byte>>)
    ensures r == Decode(s)
  {
    hide Groups, Group;
    var n := |s|;
    if n % 4 != 0 { return None; }
    if n == 0 { return Some([]); }
    var pad := 0;
    if s[n - 1] == PAD { pad := pad + 1; }
    if s[n - 2] == PAD { pad := pad + 1; }
    var out := FullGroups(s, n / 4 - 1, pad);
    if out.None? { return None; }
    assert s[4 * (n / 4 - 1)..] == s[n - 4..n - 4 + 4];
    var last := LastGroup(s, n - 4, pad);
    if last.None? { return None; }
    r := Some(out.value + last.value);
  }
}
