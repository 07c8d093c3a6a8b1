/** The grammar of RFC 8259 as trees, and that the parser accepts the texts of proper trees and no others. */
module JsonGrammar {
  // Sections 2 to 7 of RFC 8259. Every text is written before what follows it, so a tree and a rest make a text.

  import opened Common
  import opened Utf16
  import opened JsonModel

  // ------------------------------------------------------------------ numbers

  predicate Digit(u: Unit) { '0' as int <= u <= '9' as int }

  predicate AllDigits(t: Text) { forall i :: 0 <= i < |t| ==> Digit(t[i]) }

  /** The letter `e` or `E`, a sign if there is one, and digits. */
  datatype Exponent = Exponent(upper: bool, sign: Option<bool>, digits: Text)

  datatype Decimal = Decimal(minus: bool, whole: Text, frac: Option<Text>, exp: Option<Exponent>)

  /** No leading zero, and digits wherever there is a point or an exponent. */
  predicate ProperNumber(n: Decimal) {
    && n.whole != [] && AllDigits(n.whole) && (n.whole[0] == '0' as int ==> |n.whole| == 1)
    && (n.frac.Some? ==> n.frac.value != [] && AllDigits(n.frac.value))
    && (n.exp.Some? ==> n.exp.value.digits != [] && AllDigits(n.exp.value.digits))
  }

  function SignBefore(sign: Option<bool>, rest: Text): Text {
    match sign case None => rest case Some(plus) => [if plus then '+' as int else '-' as int] + rest
  }

  function ExpBefore(exp: Option<Exponent>, rest: Text): Text {
    match exp
    case None => rest
    case Some(e) => [if e.upper then 'E' as int else 'e' as int] + SignBefore(e.sign, e.digits + rest)
  }

  function FracBefore(frac: Option<Text>, rest: Text): Text {
    match frac case None => rest case Some(digits) => ['.' as int] + (digits + rest)
  }

  /** The number as written, before `rest`. */
  function NumberBefore(n: Decimal, rest: Text): Text {
    (if n.minus then ['-' as int] else []) + (n.whole + FracBefore(n.frac, ExpBefore(n.exp, rest)))
  }

  /** Nothing that would make a number longer. */
  predicate Ends(rest: Text) {
    rest == [] || (!Digit(rest[0]) && rest[0] != '.' as int && rest[0] != 'e' as int && rest[0] != 'E' as int)
  }

  lemma {:induction false} DigitsThen(t: Text, rest: Text)
    requires AllDigits(t) && (rest == [] || !Digit(rest[0]))
    ensures Digits(t + rest) == |t|
    decreases |t|
  {
    if t == [] {
      assert t + rest == rest;
    } else {
      assert (t + rest)[1..] == t[1..] + rest;
      DigitsThen(t[1..], rest);
    }
  }

  lemma {:induction false} DigitsAre(s: Text)
    ensures AllDigits(s[..Digits(s)]) && (Digits(s) < |s| ==> !Digit(s[Digits(s)]))
    decreases |s|
  {
    if s != [] && IsDigit(s[0]) {
      DigitsAre(s[1..]);
      assert s[..Digits(s)] == [s[0]] + s[1..][..Digits(s[1..])];
    }
  }

  lemma {:induction false} ExpThen(exp: Option<Exponent>, rest: Text)
    requires Ends(rest) && (exp.Some? ==> exp.value.digits != [] && AllDigits(exp.value.digits))
    ensures var s := ExpBefore(exp, rest);
      ExpLen(s) <= |s| && s[ExpLen(s)..] == rest && (s == [] || !Digit(s[0])) && (exp.Some? ==> s[0] != '.' as int)
  {
    var s := ExpBefore(exp, rest);
    if exp.Some? {
      var e := exp.value;
      var t := SignBefore(e.sign, e.digits + rest);
      assert s[1..] == t;
      DigitsThen(e.digits, rest);
      assert t[SignLen(t)..] == e.digits + rest;
      assert s[1 + SignLen(t)..] == e.digits + rest;
      assert (e.digits + rest)[|e.digits|..] == rest;
    } else {
      assert ExpLen(rest) == 0;
    }
  }

  lemma {:induction false} FracThen(frac: Option<Text>, exp: Option<Exponent>, rest: Text)
    requires Ends(rest) && (exp.Some? ==> exp.value.digits != [] && AllDigits(exp.value.digits))
    requires frac.Some? ==> frac.value != [] && AllDigits(frac.value)
    ensures var s := FracBefore(frac, ExpBefore(exp, rest));
      AfterInt(s) <= |s| && s[AfterInt(s)..] == rest && (s == [] || !Digit(s[0]))
  {
    var e := ExpBefore(exp, rest);
    var s := FracBefore(frac, e);
    ExpThen(exp, rest);
    hide ExpLen, ExpBefore;
    if frac.Some? {
      DigitsThen(frac.value, e);
      assert s[1..] == frac.value + e;
      assert s[1 + |frac.value|..] == e;
      assert FracLen(s) == 1 + |frac.value|;
    } else {
      assert FracLen(e) == 0;
      assert e[0..] == e;
    }
  }

  lemma {:induction false} WholeThen(w: Text, f: Text)
    requires w != [] && AllDigits(w) && (w[0] == '0' as int ==> |w| == 1) && (f == [] || !Digit(f[0]))
    ensures IntLen(w + f) == |w| && (w + f)[|w|..] == f && !At(w + f, MINUS)
  {
    assert Digit(w[0]);
    DigitsThen(w, f);
  }

  lemma {:induction false} NumberLenIs(s: Text, a: nat, b: nat, c: nat)
    requires MinusLen(s) == a && IntLen(s[a..]) == b && b > 0 && AfterInt(s[a..][b..]) == c
    ensures NumberLen(s) == a + b + c
  {
    hide MinusLen, IntLen, AfterInt;
    assert s[a + b..] == s[a..][b..];
  }

  /** A written number is read to its end. */
  lemma {:induction false} NumberThen(n: Decimal, rest: Text)
    requires ProperNumber(n) && Ends(rest)
    ensures var s := NumberBefore(n, rest); 0 < NumberLen(s) <= |s| && s[NumberLen(s)..] == rest
  {
    FracThen(n.frac, n.exp, rest);
    hide AfterInt, FracBefore, ExpBefore, NumberLen;
    SignedThen(n.minus, n.whole, FracBefore(n.frac, ExpBefore(n.exp, rest)), rest);
  }

  lemma {:induction false} SignedThen(minus: bool, w: Text, f: Text, rest: Text)
    requires w != [] && AllDigits(w) && (w[0] == '0' as int ==> |w| == 1) && (f == [] || !Digit(f[0]))
    requires AfterInt(f) <= |f| && f[AfterInt(f)..] == rest
    ensures var s := (if minus then ['-' as int] else []) + (w + f);
      0 < NumberLen(s) <= |s| && s[NumberLen(s)..] == rest
  {
    hide AfterInt, IntLen, NumberLen, MinusLen;
    WholeThen(w, f);
    var t := w + f;
    MinusThen(minus, t);
    var s: Text := (if minus then ['-' as int] else []) + t;
    LengthsThen(s, t, f, rest, if minus then 1 else 0, |w|, AfterInt(f));
  }

  lemma {:induction false} LengthsThen(s: Text, t: Text, f: Text, rest: Text, a: nat, b: nat, c: nat)
    requires MinusLen(s) == a <= |s| && s[a..] == t && IntLen(t) == b <= |t| && b > 0 && t[b..] == f
    requires AfterInt(f) == c <= |f| && f[c..] == rest
    ensures NumberLen(s) == a + b + c <= |s| && s[NumberLen(s)..] == rest
  {
    Behind(s, t, f, rest, a, b, c);
    NumberLenIs(s, a, b, c);
  }

  lemma {:induction false} MinusThen(minus: bool, t: Text)
    requires !At(t, MINUS)
    ensures var s := (if minus then ['-' as int] else []) + t;
      MinusLen(s) == (if minus then 1 else 0) && s[MinusLen(s)..] == t
  {
    if !minus { assert [] + t == t; }
  }

  lemma {:induction false} Behind(s: Text, t: Text, f: Text, rest: Text, a: nat, b: nat, c: nat)
    requires a <= |s| && s[a..] == t && b <= |t| && t[b..] == f && c <= |f| && f[c..] == rest
    ensures a + b + c <= |s| && s[a..][b..] == f && s[a + b..] == f && s[a + b + c..] == rest
  {
    assert s[a + b..] == s[a..][b..];
    assert s[a + b + c..] == s[a + b..][c..];
  }

  // ------------------------------------------------------------------ what is read is a number

  lemma {:induction false} ExpParsed(s: Text) returns (exp: Option<Exponent>)
    ensures exp.Some? ==> exp.value.digits != [] && AllDigits(exp.value.digits)
    ensures s == ExpBefore(exp, s[ExpLen(s)..])
  {
    exp := None;
    if ExpLen(s) > 0 {
      var k := 1 + SignLen(s[1..]);
      var d := s[k..];
      DigitsAre(d);
      var sign := if k == 1 then None else Some(s[1] == PLUS);
      exp := Some(Exponent(s[0] == 'E' as int, sign, d[..Digits(d)]));
      assert s[ExpLen(s)..] == d[Digits(d)..] && d == d[..Digits(d)] + d[Digits(d)..];
      assert s == [s[0]] + s[1..] && (k == 2 ==> s[1..] == [s[1]] + d);
    }
  }

  lemma {:induction false} FracParsed(s: Text) returns (frac: Option<Text>)
    ensures frac.Some? ==> frac.value != [] && AllDigits(frac.value)
    ensures s == FracBefore(frac, s[FracLen(s)..])
  {
    frac := None;
    if FracLen(s) > 0 {
      var d := s[1..];
      DigitsAre(d);
      frac := Some(d[..Digits(d)]);
      assert s[FracLen(s)..] == d[Digits(d)..] && d == d[..Digits(d)] + d[Digits(d)..];
      assert s == [s[0]] + d;
    }
  }

  lemma {:induction false} WholeParsed(s: Text)
    requires IntLen(s) > 0
    ensures var w := s[..IntLen(s)]; w != [] && AllDigits(w) && (w[0] == '0' as int ==> |w| == 1)
  {
    DigitsAre(s);
  }

  /** Whatever the parser takes for a number is one. */
  lemma {:induction false} NumberParsed(s: Text) returns (n: Decimal)
    requires NumberLen(s) > 0
    ensures ProperNumber(n) && s == NumberBefore(n, s[NumberLen(s)..])
  {
    var a := MinusLen(s);
    var t := s[a..];
    var b := IntLen(t);
    var f := t[b..];
    WholeParsed(t);
    var frac, exp := TailParsed(f);
    n := Decimal(a == 1, t[..b], frac, exp);
    hide FracBefore, ExpBefore, AfterInt;
    LengthsThen(s, t, f, f[AfterInt(f)..], a, b, AfterInt(f));
    Rejoined(s, t, f, a, b);
    hide IntLen, NumberLen;
  }

  lemma {:induction false} TailParsed(f: Text) returns (frac: Option<Text>, exp: Option<Exponent>)
    ensures frac.Some? ==> frac.value != [] && AllDigits(frac.value)
    ensures exp.Some? ==> exp.value.digits != [] && AllDigits(exp.value.digits)
    ensures f == FracBefore(frac, ExpBefore(exp, f[AfterInt(f)..]))
  {
    frac := FracParsed(f);
    var e := f[FracLen(f)..];
    exp := ExpParsed(e);
    hide FracBefore, ExpBefore, FracLen, ExpLen;
    assert f[AfterInt(f)..] == e[ExpLen(e)..];
  }

  lemma {:induction false} Rejoined(s: Text, t: Text, f: Text, a: nat, b: nat)
    requires a == MinusLen(s) && s[a..] == t && b <= |t| && t[b..] == f
    ensures s == (if a == 1 then ['-' as int] else []) + (t[..b] + f)
  {
    assert t == t[..b] + f;
  }

  // ------------------------------------------------------------------ strings

  /** A unit as it is, a two-character escape, or four hexadecimal digits. */
  datatype Piece = Plain(u: Unit) | Short(c: Unit) | Hex(a: Unit, b: Unit, c: Unit, d: Unit)

  /** The value of a hexadecimal digit, in either case of letter. */
  function HexOf(c: Unit): Option<nat> {
    if '0' as int <= c <= '9' as int then Some(c - '0' as int)
    else if 'a' as int <= c <= 'f' as int then Some(10 + c - 'a' as int)
    else if 'A' as int <= c <= 'F' as int then Some(10 + c - 'A' as int)
    else None
  }

  /** Quote, backslash, slash, backspace, form feed, line feed, carriage return, tab. */
  function ShortOf(c: Unit): Option<Unit> {
    if c == '\"' as int then Some(0x22) else if c == '\\' as int then Some(0x5C) else if c == '/' as int then Some(0x2F)
    else if c == 'b' as int then Some(0x08) else if c == 'f' as int then Some(0x0C)
    else if c == 'n' as int then Some(0x0A) else if c == 'r' as int then Some(0x0D)
    else if c == 't' as int then Some(0x09) else None
  }

  predicate ProperPiece(p: Piece) {
    match p
    case Plain(u) => u >= 0x20 && u != '\"' as int && u != '\\' as int
    case Short(c) => ShortOf(c).Some?
    case Hex(a, b, c, d) => HexOf(a).Some? && HexOf(b).Some? && HexOf(c).Some? && HexOf(d).Some?
  }

  predicate AllProper(ps: seq<Piece>) { ps == [] || (ProperPiece(ps[0]) && AllProper(ps[1..])) }

  /** The unit a piece stands for. */
  function UnitOf(p: Piece): Unit
    requires ProperPiece(p)
  {
    match p
    case Plain(u) => u
    case Short(c) => ShortOf(c).value
    case Hex(a, b, c, d) =>
      ToUnit(((HexOf(a).value * 16 + HexOf(b).value) * 16 + HexOf(c).value) * 16 + HexOf(d).value)
  }

  function Meant(ps: seq<Piece>): Text
    requires AllProper(ps)
  {
    if ps == [] then [] else [UnitOf(ps[0])] + Meant(ps[1..])
  }

  function PieceBefore(p: Piece, rest: Text): Text {
    match p
    case Plain(u) => [u] + rest
    case Short(c) => [0x5C, c] + rest
    case Hex(a, b, c, d) => [0x5C, 'u' as int, a, b, c, d] + rest
  }

  /** The contents of a string literal as written, before `rest`. */
  function PiecesBefore(ps: seq<Piece>, rest: Text): Text {
    if ps == [] then rest else PieceBefore(ps[0], PiecesBefore(ps[1..], rest))
  }

  lemma {:induction false} PieceThen(p: Piece, rest: Text)
    requires ProperPiece(p)
    ensures Chars(PieceBefore(p, rest)) == Prepend(UnitOf(p), Chars(rest))
  {
    match p
    case Plain(u) => PlainThen(u, rest);
    case Short(c) => ShortThen(c, rest);
    case Hex(a, b, c, d) => HexThen(a, b, c, d, rest);
  }

  lemma {:induction false} PlainThen(u: Unit, rest: Text)
    requires ProperPiece(Plain(u))
    ensures Chars([u] + rest) == Prepend(u, Chars(rest))
  {
    assert ([u] + rest)[1..] == rest;
  }

  lemma {:induction false} ShortThen(c: Unit, rest: Text)
    requires ShortOf(c).Some?
    ensures Chars([0x5C, c] + rest) == Prepend(ShortOf(c).value, Chars(rest))
  {
    var s := [0x5C, c] + rest;
    assert s[2..] == rest && s[1..][0] == c;
  }

  lemma {:induction false} HexThen(a: Unit, b: Unit, c: Unit, d: Unit, rest: Text)
    requires ProperPiece(Hex(a, b, c, d))
    ensures Chars([0x5C, 'u' as int, a, b, c, d] + rest) == Prepend(UnitOf(Hex(a, b, c, d)), Chars(rest))
  {
    var s := [0x5C, 'u' as int, a, b, c, d] + rest;
    assert s[6..] == rest && s[2..][..4] == [a, b, c, d] && s[1..][0] == 'u' as int;
    assert HexOf(a).value == HexValue(a) && HexOf(b).value == HexValue(b);
    assert HexOf(c).value == HexValue(c) && HexOf(d).value == HexValue(d);
    hide HexOf, HexValue;
  }

  /** A written string is read to its end, as what it means. */
  lemma {:induction false} StringThen(ps: seq<Piece>, rest: Text)
    requires AllProper(ps)
    ensures Chars(PiecesBefore(ps, [QUOTE] + rest)) == Got(Meant(ps), rest)
    decreases |ps|
  {
    if ps == [] {
      assert ([QUOTE] + rest)[1..] == rest;
    } else {
      StringThen(ps[1..], rest);
      PieceThen(ps[0], PiecesBefore(ps[1..], [QUOTE] + rest));
    }
  }

  /** The first piece of a string that is not at its end. */
  lemma {:induction false} PieceParsed(s: Text) returns (p: Piece, rest: Text)
    requires Chars(s).Got? && s[0] != QUOTE
    ensures ProperPiece(p) && s == PieceBefore(p, rest) && |rest| < |s| && Chars(rest).Got?
    ensures Chars(s).value == [UnitOf(p)] + Chars(rest).value && Chars(s).rest == Chars(rest).rest
  {
    if s[0] != BACKSLASH {
      p, rest := Plain(s[0]), s[1..];
      assert s == [s[0]] + rest;
    } else if s[1] != 'u' as int {
      p, rest := Short(s[1]), s[2..];
      assert s[1..][0] == s[1] && s == [s[0], s[1]] + rest;
    } else {
      p, rest := Hex(s[2], s[3], s[4], s[5]), s[6..];
      assert s[1..][0] == s[1];
      assert s[2..][0] == s[2] && s[2..][1] == s[3] && s[2..][2] == s[4] && s[2..][3] == s[5];
      assert s == [s[0], s[1], s[2], s[3], s[4], s[5]] + rest;
    }
    PieceThen(p, rest);
  }

  /** Whatever the parser takes for a string is one, and means what it gives. */
  lemma {:induction false} StringParsed(s: Text) returns (ps: seq<Piece>)
    requires Chars(s).Got?
    ensures AllProper(ps) && s == PiecesBefore(ps, [QUOTE] + Chars(s).rest) && Meant(ps) == Chars(s).value
    decreases |s|
  {
    if s[0] == QUOTE {
      ps := [];
      assert s == [QUOTE] + s[1..];
    } else {
      var p, rest := PieceParsed(s);
      var more := StringParsed(rest);
      ps := [p] + more;
      assert ps[1..] == more;
    }
  }
}
