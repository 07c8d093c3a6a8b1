/** Whole JSON texts: a text is parsed to a value exactly when it is the text of a proper tree that means it. */
module JsonDocuments {
  // RFC 8259 with the bound on depth, the rules on keys and on long numbers of runtime/hermit/protocol/codec.js.

  import opened Common
  import opened Utf16
  import opened JsonModel
  import opened JsonGrammar

  // ------------------------------------------------------------------ trees

  /** A text as a tree, with the white space between its tokens. `gap` stands in an array or object without members. */
  datatype Tree =
    | NullTree
    | BoolTree(b: bool)
    | NumberTree(n: Decimal)
    | StringTree(ps: seq<Piece>)
    | ArrayTree(els: Els, gap: Text)
    | ObjectTree(mems: Mems, gap: Text)

  datatype Els = NoEls | Els(pre: Text, v: Tree, post: Text, more: Els)

  datatype Mems = NoMems | Mems(pre: Text, key: seq<Piece>, mid: Text, gap: Text, v: Tree, post: Text, more: Mems)

  predicate Gap(t: Text) { forall i :: 0 <= i < |t| ==> t[i] == 0x20 || t[i] == 0x09 || t[i] == 0x0A || t[i] == 0x0D }

  const TRUE: Text := ['t' as int, 'r' as int, 'u' as int, 'e' as int]
  const FALSE: Text := ['f' as int, 'a' as int, 'l' as int, 's' as int, 'e' as int]
  const NULL: Text := ['n' as int, 'u' as int, 'l' as int, 'l' as int]

  /** The text of a tree, before `rest`. */
  function Before(v: Tree, rest: Text): Text
    decreases v
  {
    match v
    case NullTree => NULL + rest
    case BoolTree(b) => (if b then TRUE else FALSE) + rest
    case NumberTree(n) => NumberBefore(n, rest)
    case StringTree(ps) => ['\"' as int] + PiecesBefore(ps, ['\"' as int] + rest)
    case ArrayTree(els, gap) =>
      ['[' as int] + if els.NoEls? then gap + ([']' as int] + rest) else ElsBefore(els, rest)
    case ObjectTree(mems, gap) =>
      ['{' as int] + if mems.NoMems? then gap + (['}' as int] + rest) else MemsBefore(mems, rest)
  }

  function ElsBefore(els: Els, rest: Text): Text
    requires els.Els?
    decreases els
  {
    var after := if els.more.NoEls? then [']' as int] + rest else [',' as int] + ElsBefore(els.more, rest);
    els.pre + Before(els.v, els.post + after)
  }

  function MemsBefore(mems: Mems, rest: Text): Text
    requires mems.Mems?
    decreases mems
  {
    var after := if mems.more.NoMems? then ['}' as int] + rest else [',' as int] + MemsBefore(mems.more, rest);
    mems.pre + (['\"' as int] + PiecesBefore(mems.key, ['\"' as int] +
      (mems.mid + ([':' as int] + (mems.gap + Before(mems.v, mems.post + after))))))
  }

  function Written(n: Decimal): Text { NumberBefore(n, []) }

  /** A tree the rules allow: no deeper than the bound and, when strict, with short finite numbers and no key twice. */
  predicate Proper(z: Rules, v: Tree, depth: nat)
    decreases v
  {
    && depth <= z.maxDepth
    && match v
       case NullTree => true
       case BoolTree(_) => true
       case NumberTree(n) => ProperNumber(n) && (z.strict ==> |Written(n)| <= 64 && z.num(Written(n)).Some?)
       case StringTree(ps) => AllProper(ps)
       case ArrayTree(els, gap) => if els.NoEls? then Gap(gap) else gap == [] && ProperEls(z, els, depth)
       case ObjectTree(mems, gap) => if mems.NoMems? then Gap(gap) else gap == [] && ProperMems(z, mems, depth, {})
  }

  predicate ProperEls(z: Rules, els: Els, depth: nat)
    decreases els
  {
    els.Els? ==>
      && Gap(els.pre) && Gap(els.post) && Proper(z, els.v, depth + 1) && ProperEls(z, els.more, depth)
  }

  predicate ProperMems(z: Rules, mems: Mems, depth: nat, seen: set<Text>)
    decreases mems
  {
    mems.Mems? ==>
      && Gap(mems.pre) && AllProper(mems.key) && Gap(mems.mid) && Gap(mems.gap) && Gap(mems.post)
      && (z.strict ==> Meant(mems.key) !in seen)
      && Proper(z, mems.v, depth + 1) && ProperMems(z, mems.more, depth, seen + {Meant(mems.key)})
  }

  /** The value a proper tree means. */
  function Meaning(z: Rules, v: Tree, depth: nat): Json
    requires Proper(z, v, depth)
    decreases v
  {
    match v
    case NullTree => Null
    case BoolTree(b) => Bool(b)
    case NumberTree(n) => if z.num(Written(n)).Some? then Num(z.num(Written(n)).value) else Infinite(Written(n))
    case StringTree(ps) => Str(Meant(ps))
    case ArrayTree(els, _) => Arr(if els.NoEls? then INil else ElsMeaning(z, els, depth))
    case ObjectTree(mems, _) => Obj(if mems.NoMems? then FNil else MemsMeaning(z, mems, depth, {}))
  }

  function ElsMeaning(z: Rules, els: Els, depth: nat): Items
    requires ProperEls(z, els, depth)
    decreases els
  {
    if els.NoEls? then INil else ICons(Meaning(z, els.v, depth + 1), ElsMeaning(z, els.more, depth))
  }

  function MemsMeaning(z: Rules, mems: Mems, depth: nat, seen: set<Text>): Fields
    requires ProperMems(z, mems, depth, seen)
    decreases mems
  {
    if mems.NoMems? then FNil
    else
      var k, v := Meant(mems.key), Meaning(z, mems.v, depth + 1);
      var more := MemsMeaning(z, mems.more, depth, seen + {k});
      if z.strict then FCons(k, v, more) else Put(k, v, more)
  }

  // ------------------------------------------------------------------ white space

  lemma {:induction false} SkipGap(pre: Text, t: Text)
    requires Gap(pre) && (t == [] || !IsSpace(t[0]))
    ensures SkipSpace(pre + t) == t
    decreases |pre|
  {
    if pre == [] {
      assert pre + t == t;
    } else {
      assert (pre + t)[1..] == pre[1..] + t;
      SkipGap(pre[1..], t);
    }
  }

  lemma {:induction false} GapBefore(s: Text) returns (pre: Text)
    ensures Gap(pre) && s == pre + SkipSpace(s) && (SkipSpace(s) == [] || !IsSpace(SkipSpace(s)[0]))
    decreases |s|
  {
    if s != [] && IsSpace(s[0]) {
      var more := GapBefore(s[1..]);
      pre := [s[0]] + more;
      assert s == [s[0]] + s[1..] && pre + SkipSpace(s) == [s[0]] + (more + SkipSpace(s));
    } else {
      pre := [];
      assert s == [] + s;
    }
  }

  /** What follows a value inside a text. */
  lemma {:induction false} AfterValue(post: Text, c: Unit, rest: Text)
    requires Gap(post) && (c == COMMA || c == CLOSE_ARRAY || c == CLOSE_OBJECT)
    ensures Ends(post + ([c] + rest)) && SkipSpace(post + ([c] + rest)) == [c] + rest && ([c] + rest)[1..] == rest
  {
    SkipGap(post, [c] + rest);
  }

  // ------------------------------------------------------------------ a proper tree is parsed

  lemma {:induction false} WrittenBefore(n: Decimal, rest: Text)
    ensures NumberBefore(n, rest) == Written(n) + rest
  {
    var e, d := ExpBefore(n.exp, rest), ExpBefore(n.exp, []);
    assert e == d + rest by { ExpSplit(n.exp, rest); }
    var f, g := FracBefore(n.frac, e), FracBefore(n.frac, d);
    assert f == g + rest by { FracSplit(n.frac, d, rest); }
    hide ExpBefore, FracBefore;
    SignSplit(n.minus, n.whole, g, rest);
  }

  lemma {:induction false} ExpSplit(exp: Option<Exponent>, rest: Text)
    ensures ExpBefore(exp, rest) == ExpBefore(exp, []) + rest
  {
    if exp.Some? {
      var e := exp.value;
      assert e.digits + [] == e.digits;
      assert SignBefore(e.sign, e.digits + rest) == SignBefore(e.sign, e.digits) + rest;
    }
  }

  lemma {:induction false} FracSplit(frac: Option<Text>, d: Text, rest: Text)
    ensures FracBefore(frac, d + rest) == FracBefore(frac, d) + rest
  {
    if frac.Some? { assert frac.value + (d + rest) == frac.value + d + rest; }
  }

  lemma {:induction false} SignSplit(minus: bool, w: Text, g: Text, rest: Text)
    ensures (if minus then ['-' as int] else []) + (w + (g + rest)) ==
        (if minus then ['-' as int] else []) + (w + g) + rest
  {
    assert w + (g + rest) == w + g + rest;
  }

  lemma {:induction false} NumberIs(z: Rules, n: Decimal, rest: Text)
    requires ProperNumber(n) && Ends(rest) && (z.strict ==> |Written(n)| <= 64 && z.num(Written(n)).Some?)
    ensures Number(z, NumberBefore(n, rest)) ==
      Got(if z.num(Written(n)).Some? then Num(z.num(Written(n)).value) else Infinite(Written(n)), rest)
  {
    var w := Written(n);
    var s := NumberBefore(n, rest);
    WrittenBefore(n, rest);
    var seen := Window(z, s)[|w|..];
    assert Window(z, s) == w + seen;
    assert seen == [] || seen[0] == rest[0];
    WrittenBefore(n, seen);
    NumberThen(n, seen);
    assert NumberLen(w + seen) == |w| by { LengthIs(w + seen, seen, NumberLen(w + seen)); }
    assert s[..|w|] == w && s[|w|..] == rest;
  }

  lemma {:induction false} LengthIs(s: Text, rest: Text, k: nat)
    requires k <= |s| && s[k..] == rest
    ensures k == |s| - |rest|
  {}

  lemma {:induction false} NumberStarts(n: Decimal, rest: Text)
    requires ProperNumber(n)
    ensures var s := NumberBefore(n, rest); s != [] && (s[0] == MINUS || IsDigit(s[0]))
  {
    assert Digit(n.whole[0]);
  }

  lemma {:induction false} TreeStarts(z: Rules, v: Tree, depth: nat, rest: Text)
    requires Proper(z, v, depth)
    ensures Before(v, rest) != [] && !IsSpace(Before(v, rest)[0]) && Before(v, rest)[0] != CLOSE_ARRAY
  {
    if v.NumberTree? { NumberStarts(v.n, rest); }
  }

  lemma {:induction false} ScalarRead(z: Rules, v: Tree, depth: nat, pre: Text, rest: Text)
    requires Proper(z, v, depth) && Gap(pre) && Ends(rest) && !v.ArrayTree? && !v.ObjectTree?
    ensures Value(z, pre + Before(v, rest), depth) == Got(Meaning(z, v, depth), rest)
  {
    var t := Before(v, rest);
    TreeStarts(z, v, depth, rest);
    SkipGap(pre, t);
    match v
    case NullTree => assert NULL_TEXT <= t && t[4..] == rest;
    case BoolTree(b) => assert (if b then TRUE_TEXT else FALSE_TEXT) <= t && t[if b then 4 else 5..] == rest;
    case NumberTree(n) =>
      NumberStarts(n, rest);
      NumberIs(z, n, rest);
    case StringTree(ps) =>
      assert t[1..] == PiecesBefore(ps, [QUOTE] + rest);
      StringThen(ps, rest);
  }

  lemma {:induction false} ArrayOpened(z: Rules, pre: Text, body: Text, depth: nat)
    requires Gap(pre) && depth <= z.maxDepth
    ensures Value(z, pre + ([OPEN_ARRAY] + body), depth) == Array(z, body, depth)
    ensures Value(z, pre + ([OPEN_OBJECT] + body), depth) == Object(z, body, depth)
  {
    SkipGap(pre, [OPEN_ARRAY] + body);
    SkipGap(pre, [OPEN_OBJECT] + body);
    assert ([OPEN_ARRAY] + body)[1..] == body && ([OPEN_OBJECT] + body)[1..] == body;
  }

  lemma {:induction false} EmptyRead(z: Rules, gap: Text, depth: nat, rest: Text)
    requires Gap(gap)
    ensures Array(z, gap + ([CLOSE_ARRAY] + rest), depth) == Got(Arr(INil), rest)
    ensures Object(z, gap + ([CLOSE_OBJECT] + rest), depth) == Got(Obj(FNil), rest)
  {
    SkipGap(gap, [CLOSE_ARRAY] + rest);
    SkipGap(gap, [CLOSE_OBJECT] + rest);
    assert ([CLOSE_ARRAY] + rest)[1..] == rest && ([CLOSE_OBJECT] + rest)[1..] == rest;
  }

  /** A proper tree, written with any white space, is parsed to what it means. */
  lemma {:induction false} TreeRead(z: Rules, v: Tree, depth: nat, pre: Text, rest: Text)
    requires Proper(z, v, depth) && Gap(pre) && Ends(rest)
    ensures Value(z, pre + Before(v, rest), depth) == Got(Meaning(z, v, depth), rest)
    decreases v, 1
  {
    match v
    case ArrayTree(els, gap) =>
      if els.NoEls? {
        ArrayOpened(z, pre, gap + ([CLOSE_ARRAY] + rest), depth);
        EmptyRead(z, gap, depth, rest);
      } else {
        ArrayOpened(z, pre, ElsBefore(els, rest), depth);
        ElsStart(z, els, depth, rest);
        ElsRead(z, els, depth, rest);
      }
    case ObjectTree(mems, gap) =>
      if mems.NoMems? {
        ArrayOpened(z, pre, gap + ([CLOSE_OBJECT] + rest), depth);
        EmptyRead(z, gap, depth, rest);
      } else {
        ArrayOpened(z, pre, MemsBefore(mems, rest), depth);
        MemsStart(mems, rest, z, depth);
        MemsRead(z, mems, depth, {}, rest);
      }
    case _ => ScalarRead(z, v, depth, pre, rest);
  }

  lemma {:induction false} ElsStart(z: Rules, els: Els, depth: nat, rest: Text)
    requires els.Els? && ProperEls(z, els, depth)
    ensures !At(SkipSpace(ElsBefore(els, rest)), CLOSE_ARRAY)
  {
    var after := if els.more.NoEls? then [CLOSE_ARRAY] + rest else [COMMA] + ElsBefore(els.more, rest);
    TreeStarts(z, els.v, depth + 1, els.post + after);
    SkipGap(els.pre, Before(els.v, els.post + after));
  }

  lemma {:induction false} MemsStart(mems: Mems, rest: Text, z: Rules, depth: nat)
    requires mems.Mems? && Gap(mems.pre)
    ensures At(SkipSpace(MemsBefore(mems, rest)), QUOTE)
  {
    var after := if mems.more.NoMems? then [CLOSE_OBJECT] + rest else [COMMA] + MemsBefore(mems.more, rest);
    SkipGap(mems.pre, [QUOTE] + PiecesBefore(mems.key, [QUOTE] +
      (mems.mid + ([COLON] + (mems.gap + Before(mems.v, mems.post + after))))));
  }

  /** One element, and what comes behind it. */
  lemma {:induction false} ElementIs(z: Rules, s: Text, depth: nat, m: Json, post: Text, more: Els, rest: Text)
    requires Gap(post)
    requires var after := if more.NoEls? then [CLOSE_ARRAY] + rest else [COMMA] + ElsBefore(more, rest);
      Value(z, s, depth + 1) == Got(m, post + after)
    requires more.Els? && ProperEls(z, more, depth) ==>
        Elements(z, ElsBefore(more, rest), depth) == Got(ElsMeaning(z, more, depth), rest)
    requires ProperEls(z, more, depth)
    ensures Elements(z, s, depth) == Got(ICons(m, ElsMeaning(z, more, depth)), rest)
  {
    hide Value, ElsBefore;
    if more.NoEls? {
      AfterValue(post, CLOSE_ARRAY, rest);
    } else {
      AfterValue(post, COMMA, ElsBefore(more, rest));
    }
  }

  lemma {:induction false} ElsRead(z: Rules, els: Els, depth: nat, rest: Text)
    requires els.Els? && ProperEls(z, els, depth)
    ensures Elements(z, ElsBefore(els, rest), depth) == Got(ElsMeaning(z, els, depth), rest)
    decreases els, 0
  {
    var after := if els.more.NoEls? then [CLOSE_ARRAY] + rest else [COMMA] + ElsBefore(els.more, rest);
    assert Ends(els.post + after) by {
      if els.more.NoEls? { AfterValue(els.post, CLOSE_ARRAY, rest); }
      else { AfterValue(els.post, COMMA, ElsBefore(els.more, rest)); }
    }
    hide Value, Elements, Members, Before, Meaning;
    TreeRead(z, els.v, depth + 1, els.pre, els.post + after);
    if els.more.Els? { ElsRead(z, els.more, depth, rest); }
    ElementIs(z, els.pre + Before(els.v, els.post + after), depth, Meaning(z, els.v, depth + 1), els.post, els.more,
        rest);
  }

  lemma {:induction false} KeyRead(pre: Text, key: seq<Piece>, mid: Text, tail: Text)
    requires Gap(pre) && AllProper(key) && Gap(mid)
    ensures var s := pre + ([QUOTE] + PiecesBefore(key, [QUOTE] + (mid + ([COLON] + tail))));
      && At(SkipSpace(s), QUOTE) && Chars(SkipSpace(s)[1..]) == Got(Meant(key), mid + ([COLON] + tail))
      && SkipSpace(mid + ([COLON] + tail)) == [COLON] + tail && ([COLON] + tail)[1..] == tail
  {
    var t := [QUOTE] + PiecesBefore(key, [QUOTE] + (mid + ([COLON] + tail)));
    SkipGap(pre, t);
    assert t[1..] == PiecesBefore(key, [QUOTE] + (mid + ([COLON] + tail)));
    StringThen(key, mid + ([COLON] + tail));
    SkipGap(mid, [COLON] + tail);
  }

  /** One member, and what comes behind it. */
  lemma {:induction false} MemberIs(z: Rules, s: Text, depth: nat, seen: set<Text>, k: Text, mid: Text, tail: Text,
      m: Json,
      post: Text, more: Mems, rest: Text)
    requires Gap(post) && (z.strict ==> k !in seen) && ProperMems(z, more, depth, seen + {k})
    requires At(SkipSpace(s), QUOTE) && Chars(SkipSpace(s)[1..]) == Got(k, mid)
    requires SkipSpace(mid) == [COLON] + tail && ([COLON] + tail)[1..] == tail
    requires var after := if more.NoMems? then [CLOSE_OBJECT] + rest else [COMMA] + MemsBefore(more, rest);
      Value(z, tail, depth + 1) == Got(m, post + after)
    requires more.Mems? ==>
      Members(z, MemsBefore(more, rest), depth, seen + {k}) == Got(MemsMeaning(z, more, depth, seen + {k}), rest)
    ensures var fs := MemsMeaning(z, more, depth, seen + {k});
      Members(z, s, depth, seen) == Got(if z.strict then FCons(k, m, fs) else Put(k, m, fs), rest)
  {
    hide Value, MemsBefore, Chars;
    if more.NoMems? {
      AfterValue(post, CLOSE_OBJECT, rest);
    } else {
      AfterValue(post, COMMA, MemsBefore(more, rest));
    }
  }

  lemma {:induction false} MemsRead(z: Rules, mems: Mems, depth: nat, seen: set<Text>, rest: Text)
    requires mems.Mems? && ProperMems(z, mems, depth, seen)
    ensures Members(z, MemsBefore(mems, rest), depth, seen) == Got(MemsMeaning(z, mems, depth, seen), rest)
    decreases mems, 0
  {
    hide Value, Elements, Members, Before, Meaning, Chars, PiecesBefore;
    var after := if mems.more.NoMems? then [CLOSE_OBJECT] + rest else [COMMA] + MemsBefore(mems.more, rest);
    assert Ends(mems.post + after) by {
      if mems.more.NoMems? { AfterValue(mems.post, CLOSE_OBJECT, rest); }
      else { AfterValue(mems.post, COMMA, MemsBefore(mems.more, rest)); }
    }
    var k, tail := Meant(mems.key), mems.gap + Before(mems.v, mems.post + after);
    KeyRead(mems.pre, mems.key, mems.mid, tail);
    TreeRead(z, mems.v, depth + 1, mems.gap, mems.post + after);
    if mems.more.Mems? { MemsRead(z, mems.more, depth, seen + {k}, rest); }
    MemberIs(z, MemsBefore(mems, rest), depth, seen, k, mems.mid + ([COLON] + tail), tail,
        Meaning(z, mems.v, depth + 1),
             mems.post, mems.more, rest);
  }

  // ------------------------------------------------------------------ what is parsed is a proper tree

  lemma {:induction false} NumberTreeParsed(z: Rules, t: Text, depth: nat) returns (v: Tree)
    requires Number(z, t).Got? && depth <= z.maxDepth
    ensures Proper(z, v, depth) && t == Before(v, Number(z, t).rest) && Meaning(z, v, depth) == Number(z, t).value
  {
    var w := Window(z, t);
    var k := NumberLen(w);
    var n := NumberParsed(w);
    v := NumberTree(n);
    WrittenIs(n, w, k);
    WindowStarts(z, t, k);
    WrittenBefore(n, t[k..]);
    NumberTreeIs(z, t, depth, n, k);
  }

  lemma {:induction false} NumberTreeIs(z: Rules, t: Text, depth: nat, n: Decimal, k: nat)
    requires depth <= z.maxDepth && ProperNumber(n) && 0 < k == NumberLen(Window(z, t)) && k <= |t|
        && (z.strict ==> k <= 64)
    requires Written(n) == t[..k] && NumberBefore(n, t[k..]) == t && Number(z, t).Got?
    ensures Proper(z, NumberTree(n), depth) && t == Before(NumberTree(n), Number(z, t).rest)
    ensures Meaning(z, NumberTree(n), depth) == Number(z, t).value
  {
    hide NumberLen, NumberBefore, Window, Written;
  }

  lemma {:induction false} WrittenIs(n: Decimal, w: Text, k: nat)
    requires k <= |w| && w == NumberBefore(n, w[k..])
    ensures Written(n) == w[..k]
  {
    WrittenBefore(n, w[k..]);
    hide NumberBefore;
    assert w == w[..k] + w[k..];
    SameLength(Written(n), w[..k], w[k..]);
  }

  lemma {:induction false} WindowStarts(z: Rules, t: Text, k: nat)
    requires k <= |Window(z, t)|
    ensures k <= |t| && t[..k] == Window(z, t)[..k] && t == t[..k] + t[k..] && (z.strict ==> k <= 64)
  {}

  lemma {:induction false} SameLength(a: Text, b: Text, rest: Text)
    requires a + rest == b + rest
    ensures a == b
  {
    assert |a| == |b|;
    assert (a + rest)[..|a|] == a && (b + rest)[..|b|] == b;
  }

  lemma {:induction false} ScalarParsed(z: Rules, t: Text, depth: nat) returns (v: Tree)
    requires Value(z, t, depth).Got? && t != [] && !IsSpace(t[0]) && t[0] != OPEN_ARRAY && t[0] != OPEN_OBJECT
    ensures Proper(z, v, depth) && t == Before(v, Value(z, t, depth).rest)
    ensures Meaning(z, v, depth) == Value(z, t, depth).value
  {
    assert SkipSpace(t) == t;
    if t[0] == QUOTE {
      var ps := StringParsed(t[1..]);
      v := StringTree(ps);
      assert t == [QUOTE] + t[1..];
    } else if t[0] == MINUS || IsDigit(t[0]) {
      v := NumberTreeParsed(z, t, depth);
    } else if TRUE_TEXT <= t {
      v := BoolTree(true);
      assert t == TRUE_TEXT + t[4..];
    } else if FALSE_TEXT <= t {
      v := BoolTree(false);
      assert t == FALSE_TEXT + t[5..];
    } else {
      v := NullTree;
      assert t == NULL_TEXT + t[4..];
    }
  }

  /** Whatever is parsed was the text of a proper tree, and the value is what the tree means. */
  lemma {:induction false} TreeParsed(z: Rules, s: Text, depth: nat) returns (pre: Text, v: Tree)
    requires Value(z, s, depth).Got?
    ensures Gap(pre) && Proper(z, v, depth) && s == pre + Before(v, Value(z, s, depth).rest)
    ensures Meaning(z, v, depth) == Value(z, s, depth).value
    decreases |s|, 2
  {
    pre := GapBefore(s);
    var t := SkipSpace(s);
    ValueSkips(z, s, depth);
    hide *;
    if t[0] == OPEN_ARRAY {
      var els, gap := ArrayParsed(z, t[1..], depth);
      v := ArrayTree(els, gap);
    } else if t[0] == OPEN_OBJECT {
      var mems, gap := ObjectParsed(z, t[1..], depth);
      v := ObjectTree(mems, gap);
    } else {
      v := ScalarParsed(z, t, depth);
    }
    assert t == [t[0]] + t[1..];
  }

  /** White space before a value makes no difference to it. */
  lemma {:induction false} ValueSkips(z: Rules, s: Text, depth: nat)
    requires Value(z, s, depth).Got?
    ensures var t := SkipSpace(s);
      && depth <= z.maxDepth && t != [] && |t| <= |s| && Value(z, t, depth) == Value(z, s, depth)
      && (t[0] == OPEN_ARRAY ==> Value(z, s, depth) == Array(z, t[1..], depth))
      && (t[0] == OPEN_OBJECT ==> Value(z, s, depth) == Object(z, t[1..], depth))
  {
    SkipTwice(s);
  }

  lemma {:induction false} SkipTwice(s: Text)
    ensures SkipSpace(SkipSpace(s)) == SkipSpace(s)
  {
    var pre := GapBefore(s);
  }

  lemma {:induction false} ArrayParsed(z: Rules, s: Text, depth: nat) returns (els: Els, gap: Text)
    requires Array(z, s, depth).Got? && depth <= z.maxDepth
    ensures Proper(z, ArrayTree(els, gap), depth)
    ensures [OPEN_ARRAY] + s == Before(ArrayTree(els, gap), Array(z, s, depth).rest)
    ensures Meaning(z, ArrayTree(els, gap), depth) == Array(z, s, depth).value
    decreases |s|, 4
  {
    var t := SkipSpace(s);
    if At(t, CLOSE_ARRAY) {
      els := NoEls;
      gap := GapBefore(s);
      assert t == [CLOSE_ARRAY] + t[1..];
    } else {
      els := ElsParsed(z, s, depth);
      gap := [];
    }
  }

  lemma {:induction false} ElsParsed(z: Rules, s: Text, depth: nat) returns (els: Els)
    requires Elements(z, s, depth).Got? && depth <= z.maxDepth
    ensures els.Els? && ProperEls(z, els, depth) && s == ElsBefore(els, Elements(z, s, depth).rest)
    ensures ElsMeaning(z, els, depth) == Elements(z, s, depth).value
    decreases |s|, 3
  {
    var p := Value(z, s, depth + 1);
    var pre, v := TreeParsed(z, s, depth + 1);
    var post := GapBefore(p.rest);
    var w := SkipSpace(p.rest);
    assert w == [w[0]] + w[1..];
    hide Value, Before, Meaning, Proper, SkipSpace;
    if At(w, COMMA) {
      var more := ElsParsed(z, w[1..], depth);
      els := Els(pre, v, post, more);
    } else {
      els := Els(pre, v, post, NoEls);
    }
  }

  lemma {:induction false} ObjectParsed(z: Rules, s: Text, depth: nat) returns (mems: Mems, gap: Text)
    requires Object(z, s, depth).Got? && depth <= z.maxDepth
    ensures Proper(z, ObjectTree(mems, gap), depth)
    ensures [OPEN_OBJECT] + s == Before(ObjectTree(mems, gap), Object(z, s, depth).rest)
    ensures Meaning(z, ObjectTree(mems, gap), depth) == Object(z, s, depth).value
    decreases |s|, 4
  {
    var t := SkipSpace(s);
    if At(t, CLOSE_OBJECT) {
      mems := NoMems;
      gap := GapBefore(s);
      assert t == [CLOSE_OBJECT] + t[1..];
    } else {
      mems := MemsParsed(z, s, depth, {});
      gap := [];
    }
  }

  lemma {:induction false} MemsParsed(z: Rules, s: Text, depth: nat, seen: set<Text>) returns (mems: Mems)
    requires Members(z, s, depth, seen).Got? && depth <= z.maxDepth
    ensures mems.Mems? && ProperMems(z, mems, depth, seen) && s == MemsBefore(mems, Members(z, s, depth, seen).rest)
    ensures MemsMeaning(z, mems, depth, seen) == Members(z, s, depth, seen).value
    decreases |s|, 3
  {
    var pre, key, mid, tail := MemberParts(z, s, depth, seen);
    var k, p := Meant(key), Value(z, tail, depth + 1);
    hide Value, Chars, PiecesBefore, Members;
    var gap, v := TreeParsed(z, tail, depth + 1);
    var post := GapBefore(p.rest);
    var w := SkipSpace(p.rest);
    hide Before, Meaning, Proper, AllProper, Meant;
    assert w == [w[0]] + w[1..];
    if At(w, COMMA) {
      var more := MemsParsed(z, w[1..], depth, seen + {k});
      mems := Mems(pre, key, mid, gap, v, post, more);
    } else {
      mems := Mems(pre, key, mid, gap, v, post, NoMems);
    }
  }

  /** The key of a member and the text behind its colon. */
  lemma {:induction false} MemberParts(z: Rules, s: Text, depth: nat, seen: set<Text>)
    returns (pre: Text, key: seq<Piece>, mid: Text, tail: Text)
    requires Members(z, s, depth, seen).Got?
    ensures Gap(pre) && AllProper(key) && Gap(mid) && |tail| < |s| && (z.strict ==> Meant(key) !in seen)
    ensures s == pre + ([QUOTE] + PiecesBefore(key, [QUOTE] + (mid + ([COLON] + tail))))
    ensures var k, p := Meant(key), Value(z, tail, depth + 1);
      p.Got? && |p.rest| < |tail| && |SkipSpace(p.rest)| <= |p.rest| && MemberGoes(z, s, depth, seen, k, p)
  {
    MembersUnfold(z, s, depth, seen);
    var t := SkipSpace(s);
    var afterKey := Chars(t[1..]).rest;
    var u := SkipSpace(afterKey);
    tail := u[1..];
    hide Members, Value, MemberGoes;
    key := StringParsed(t[1..]);
    pre := GapBefore(s);
    mid := GapBefore(afterKey);
    hide Chars, PiecesBefore, AllProper, Meant, SkipSpace;
    HeadBehind(t, QUOTE);
    HeadBehind(u, COLON);
  }

  lemma {:induction false} HeadBehind(t: Text, c: Unit)
    requires At(t, c)
    ensures t == [c] + t[1..]
  {}

  lemma {:induction false} MembersUnfold(z: Rules, s: Text, depth: nat, seen: set<Text>)
    requires Members(z, s, depth, seen).Got?
    ensures var t := SkipSpace(s);
      At(t, QUOTE) && Chars(t[1..]).Got? && (z.strict ==> Chars(t[1..]).value !in seen)
      && var u := SkipSpace(Chars(t[1..]).rest);
        At(u, COLON) && |u[1..]| < |s|
        && var p := Value(z, u[1..], depth + 1);
          p.Got? && |p.rest| < |u[1..]| && |SkipSpace(p.rest)| <= |p.rest|
          && MemberGoes(z, s, depth, seen, Chars(t[1..]).value, p)
  {
    hide Value, Chars, SkipSpace;
  }

  /** What a member's value and the character behind it make of the members. */
  predicate MemberGoes(z: Rules, s: Text, depth: nat, seen: set<Text>, k: Text, p: Parsed<Json>)
    requires p.Got?
  {
    var w := SkipSpace(p.rest);
    if At(w, COMMA) then
      var q := Members(z, w[1..], depth, seen + {k});
      q.Got? && Members(z, s, depth, seen) ==
          Got(if z.strict then FCons(k, p.value, q.value) else Put(k, p.value, q.value), q.rest)
    else At(w, CLOSE_OBJECT) && Members(z, s, depth, seen) == Got(FCons(k, p.value, FNil), w[1..])
  }

  // ------------------------------------------------------------------ whole texts

  /** A tree with white space before and behind it. */
  datatype Document = Document(pre: Text, v: Tree, post: Text)

  predicate ProperDocument(z: Rules, d: Document) { Gap(d.pre) && Gap(d.post) && Proper(z, d.v, 0) }

  function TextOf(d: Document): Text { d.pre + Before(d.v, d.post) }

  /** The text is that of the document, and the document means the value. */
  predicate Means(z: Rules, d: Document, s: Text, j: Json) {
    ProperDocument(z, d) && TextOf(d) == s && Meaning(z, d.v, 0) == j
  }

  /** The text of a proper document is parsed to what it means. */
  lemma {:induction false} DocumentParsed(z: Rules, d: Document)
    requires ProperDocument(z, d)
    ensures Parse(z, TextOf(d)) == Ok(Meaning(z, d.v, 0))
  {
    TreeRead(z, d.v, 0, d.pre, d.post);
    SkipGap(d.post, []);
    assert d.post + [] == d.post;
  }

  /** And nothing else is: a text is parsed to a value exactly when it is that of a proper document that means it. */
  lemma {:induction false} ParsedIff(z: Rules, s: Text, j: Json)
    ensures Parse(z, s) == Ok(j) <==> exists d: Document :: Means(z, d, s, j)
  {
    if Parse(z, s) == Ok(j) {
      var pre, v := TreeParsed(z, s, 0);
      var post := GapBefore(Value(z, s, 0).rest);
      assert Value(z, s, 0).rest == post + [] == post;
      var d := Document(pre, v, post);
      assert Means(z, d, s, j);
    }
    if d: Document :| Means(z, d, s, j) { DocumentParsed(z, d); }
  }

  // ------------------------------------------------------------------ how a value is printed

  /** A lower-case hexadecimal digit. */
  predicate LowerHex(c: Unit, n: nat) {
    n < 16 && c == (if n < 10 then '0' as int + n else 'a' as int + (n - 10))
  }

  /** `\u` and the four digits of a unit. */
  predicate EscapedAs(t: Text, u: Unit) {
    && |t| == 6 && t[0] == '\\' as int && t[1] == 'u' as int
    && LowerHex(t[2], u / 4096) && LowerHex(t[3], u / 256 % 16) && LowerHex(t[4], u / 16 % 16) && LowerHex(t[5], u % 16)
  }

  /** Two characters for what has a name, six for other controls and for half a pair, and every other unit itself. */
  lemma {:induction false} UnitPrinted(u: Unit)
    ensures var t := PrintString([u]);
      && |t| >= 3 && t[0] == '\"' as int && t[|t| - 1] == '\"' as int
      && var x := t[1..|t| - 1];
        if u == '\"' as int || u == '\\' as int then x == ['\\' as int, u]
        else if u == 8 then x == ['\\' as int, 'b' as int]
        else if u == 9 then x == ['\\' as int, 't' as int]
        else if u == 10 then x == ['\\' as int, 'n' as int]
        else if u == 12 then x == ['\\' as int, 'f' as int]
        else if u == 13 then x == ['\\' as int, 'r' as int]
        else if u < 0x20 || 0xD800 <= u < 0xE000 then EscapedAs(x, u)
        else x == [u]
  {
    assert [u][1..] == [];
    var x := PrintUnit(u, true);
    assert PrintChars([u]) == x + [];
    var t := PrintString([u]);
    assert t == [QUOTE] + x + [QUOTE] && t[1..|t| - 1] == x;
  }

  /** A pair of surrogates is printed as it is, and so the texts on both sides of it as they are alone. */
  lemma {:induction false} PairPrinted(h: Unit, l: Unit, rest: Text)
    requires 0xD800 <= h < 0xDC00 && 0xDC00 <= l < 0xE000
    ensures PrintChars([h, l] + rest) == [h, l] + PrintChars(rest)
  {
    assert ([h, l] + rest)[2..] == rest;
  }

  lemma {:induction false} LiteralPrinted(w: Special)
    ensures Print(Null) == NULL && Print(Bool(true)) == TRUE && Print(Bool(false)) == FALSE
        && Print(NotFinite(w)) == NULL
    ensures Print(Arr(INil)) == ['[' as int, ']' as int] && Print(Obj(FNil)) == ['{' as int, '}' as int]
  {}

  /** No white space, and the elements in their order. */
  lemma {:induction false} ArrayPrinted(v: Json, xs: Items)
    ensures Print(Arr(ICons(v, xs))) ==
      if xs.INil? then ['[' as int] + (Print(v) + [']' as int])
      else ['[' as int] + (Print(v) + [',' as int] + Print(Arr(xs))[1..])
  {
    hide PrintString;
    if xs.ICons? {
      assert Print(Arr(xs)) == [OPEN_ARRAY] + PrintItems(xs);
      assert Print(Arr(xs))[1..] == PrintItems(xs);
      assert PrintItems(ICons(v, xs)) == Print(v) + [COMMA] + PrintItems(xs);
    }
  }

  /** And the members in theirs. */
  lemma {:induction false} ObjectPrinted(k: Text, v: Json, fs: Fields)
    ensures Print(Obj(FCons(k, v, fs))) ==
      if fs.FNil? then ['{' as int] + (PrintString(k) + [':' as int] + Print(v) + ['}' as int])
      else ['{' as int] + (PrintString(k) + [':' as int] + Print(v) + [',' as int] + Print(Obj(fs))[1..])
  {
    hide PrintString;
    if fs.FCons? {
      assert Print(Obj(fs)) == [OPEN_OBJECT] + PrintFields(fs);
      assert Print(Obj(fs))[1..] == PrintFields(fs);
      assert PrintFields(FCons(k, v, fs)) == PrintString(k) + [COLON] + Print(v) + [COMMA] + PrintFields(fs);
    }
  }
}
