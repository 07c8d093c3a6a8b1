/** What strict parsing accepts, and that it undoes printing exactly within the depth bound. */
module JsonTheorems {
  import opened Common
  import opened Utf16
  import opened JsonModel

  // ------------------------------------------------------------------ strings

  lemma {:induction false} HexDigitValue(n: nat)
    requires n < 16
    ensures HexValue(HexDigit(n)) == n
  {}

  lemma {:induction false} HexSplit(u: Unit)
    ensures HexUnit(u / 4096, u / 256 % 16, u / 16 % 16, u % 16) == u && u / 4096 < 16
  {
    var a, b := u / 16, u / 256;
    assert b == a / 16 && u / 4096 == b / 16;
    assert u == a * 16 + u % 16 && a == b * 16 + a % 16 && b == b / 16 * 16 + b % 16;
  }

  lemma {:induction false} HexRead(u: Unit, tail: Text)
    ensures FourHex(HexEscape(u)[2..] + tail) && ReadHex(HexEscape(u)[2..] + tail) == u
  {
    var s := HexEscape(u)[2..] + tail;
    HexSplit(u);
    HexDigitValue(u / 4096);
    HexDigitValue(u / 256 % 16);
    HexDigitValue(u / 16 % 16);
    HexDigitValue(u % 16);
    assert s[0] == HexDigit(u / 4096) && s[1] == HexDigit(u / 256 % 16) && s[2] == HexDigit(u / 16 % 16)
        && s[3] == HexDigit(u % 16);
  }

  /** One printed unit is read as that unit. */
  lemma {:induction false} EscapedRead(u: Unit, tail: Text)
    ensures Chars(Escaped(u) + tail) == Prepend(u, Chars(tail))
  {
    var e := Escaped(u);
    var s := e + tail;
    if |e| == 2 {
      assert s[0] == e[0] && s[1] == e[1] && s[2..] == tail && s[1..][0] == s[1];
    } else {
      HexRead(u, tail);
      assert s[0] == e[0] && s[1..][0] == e[1] && s[2..] == e[2..] + tail && s[6..] == tail;
    }
  }

  lemma {:induction false} PlainRead(u: Unit, tail: Text)
    requires u >= 0x20 && u != QUOTE && u != BACKSLASH
    ensures Chars([u] + tail) == Prepend(u, Chars(tail))
  {
    assert ([u] + tail)[1..] == tail;
  }

  lemma {:induction false} UnitRead(u: Unit, tail: Text)
    ensures Chars(PrintUnit(u, true) + tail) == Prepend(u, Chars(tail))
  {
    if u < 0x20 || u == QUOTE || u == BACKSLASH || High(u) || Low(u) {
      EscapedRead(u, tail);
    } else {
      PlainRead(u, tail);
    }
  }

  lemma {:induction false} Peel(a: Text, b: Text, c: Text, rest: Text)
    ensures a + b + c + rest == a + (b + c + rest)
  {}

  lemma {:induction false} PeelTwo(x: Unit, y: Unit, b: Text, c: Text, rest: Text)
    ensures [x, y] + b + c + rest == [x] + ([y] + (b + c + rest))
  {}

  lemma {:induction false} PairRead(x: Unit, y: Unit, tail: Text)
    requires High(x) && Low(y)
    ensures Chars([x] + ([y] + tail)) == Prepend(x, Prepend(y, Chars(tail)))
  {
    PlainRead(x, [y] + tail);
    PlainRead(y, tail);
  }

  /** A printed string is read back, whatever follows its closing quote. */
  lemma {:induction false} StringRead(s: Text, rest: Text)
    ensures Chars(PrintChars(s) + [QUOTE] + rest) == Got(s, rest)
    decreases |s|
  {
    if s == [] {
      assert ([QUOTE] + rest)[1..] == rest && [] + [QUOTE] + rest == [QUOTE] + rest;
    } else if Paired(s) {
      PeelTwo(s[0], s[1], PrintChars(s[2..]), [QUOTE], rest);
      PairRead(s[0], s[1], PrintChars(s[2..]) + [QUOTE] + rest);
      StringRead(s[2..], rest);
      assert [s[0]] + ([s[1]] + s[2..]) == s;
    } else {
      Peel(PrintUnit(s[0], true), PrintChars(s[1..]), [QUOTE], rest);
      UnitRead(s[0], PrintChars(s[1..]) + [QUOTE] + rest);
      StringRead(s[1..], rest);
      assert [s[0]] + s[1..] == s;
    }
  }

  // ------------------------------------------------------------------ numbers

  /** What may follow a number in a printed text. */
  predicate Delimits(rest: Text) { rest == [] || rest[0] == COMMA || rest[0] == CLOSE_ARRAY || rest[0] == CLOSE_OBJECT }

  lemma {:induction false} DigitsStop(s: Text, rest: Text)
    requires Delimits(rest)
    ensures Digits(s + rest) == Digits(s)
    decreases |s|
  {
    if s == [] {
      assert s + rest == rest;
    } else {
      assert (s + rest)[1..] == s[1..] + rest;
      DigitsStop(s[1..], rest);
    }
  }

  lemma {:induction false} IntStop(s: Text, rest: Text)
    requires Delimits(rest)
    ensures IntLen(s + rest) == IntLen(s)
  {
    DigitsStop(s, rest);
    if s == [] { assert s + rest == rest; }
  }

  lemma {:induction false} FracStop(s: Text, rest: Text)
    requires Delimits(rest)
    ensures FracLen(s + rest) == FracLen(s)
  {
    if s == [] {
      assert s + rest == rest;
    } else {
      assert (s + rest)[1..] == s[1..] + rest;
      DigitsStop(s[1..], rest);
    }
  }

  lemma {:induction false} ExpStop(s: Text, rest: Text)
    requires Delimits(rest)
    ensures ExpLen(s + rest) == ExpLen(s)
  {
    if s == [] {
      assert s + rest == rest;
    } else {
      assert (s + rest)[1..] == s[1..] + rest;
      if s[1..] == [] { assert s[1..] + rest == rest; }
      var k := 1 + SignLen(s[1..]);
      assert SignLen(s[1..] + rest) == SignLen(s[1..]);
      assert (s + rest)[k..] == s[k..] + rest;
      DigitsStop(s[k..], rest);
    }
  }

  lemma {:induction false} DropAppend(s: Text, rest: Text, k: nat)
    requires k <= |s|
    ensures (s + rest)[k..] == s[k..] + rest
  {}

  lemma {:induction false} MinusStop(s: Text, rest: Text)
    requires Delimits(rest)
    ensures MinusLen(s + rest) == MinusLen(s)
  {
    if s == [] { assert s + rest == rest; }
  }

  lemma {:induction false} AfterIntStop(s: Text, rest: Text)
    requires Delimits(rest)
    ensures AfterInt(s + rest) == AfterInt(s)
  {
    FracStop(s, rest);
    DropAppend(s, rest, FracLen(s));
    ExpStop(s[FracLen(s)..], rest);
  }

  /** A number ends where it is delimited. */
  lemma {:induction false} NumberStop(s: Text, rest: Text)
    requires Delimits(rest)
    ensures NumberLen(s + rest) == NumberLen(s)
  {
    hide MinusLen, IntLen, AfterInt;
    var a := MinusLen(s);
    var b := IntLen(s[a..]);
    MinusStop(s, rest);
    DropAppend(s, rest, a);
    IntStop(s[a..], rest);
    DropAppend(s, rest, a + b);
    AfterIntStop(s[a + b..], rest);
  }

  lemma {:induction false} NumberRead(z: Rules, t: Text, rest: Text)
    requires GoodNumber(z, t) && Delimits(rest)
    ensures Number(z, t + rest) == Got(Num(t), rest)
  {
    var seen := Window(z, t + rest)[|t|..];
    assert Window(z, t + rest) == t + seen;
    assert seen == [] || seen[0] == rest[0];
    NumberStop(t, seen);
    assert (t + rest)[..|t|] == t && (t + rest)[|t|..] == rest;
  }

  // ------------------------------------------------------------------ values

  /** A printed value begins with a character that is neither a space nor a bracket that closes. */
  predicate Starts(s: Text) { s != [] && !IsSpace(s[0]) && s[0] != CLOSE_ARRAY && s[0] != CLOSE_OBJECT }

  lemma {:induction false} NumberStarts(t: Text)
    requires NumberLen(t) > 0
    ensures t != [] && (t[0] == MINUS || IsDigit(t[0]))
  {
    if MinusLen(t) == 0 { assert t[0..] == t; }
  }

  lemma {:induction false} PrintStarts(z: Rules, v: Json)
    requires Good(z, v)
    ensures Starts(Print(v))
  {
    if v.Num? { NumberStarts(v.printed); }
  }

  lemma {:induction false} NoSpace(s: Text, rest: Text)
    requires Starts(s)
    ensures SkipSpace(s + rest) == s + rest && (s + rest)[0] == s[0]
  {}

  /** What parsing gives for a value printed at some depth: the value, or the complaint that it is too deep. */
  function Outcome<T>(z: Rules, deep: nat, v: T, rest: Text): Parsed<T> {
    if deep <= z.maxDepth then Got(v, rest) else Bad(TooDeep)
  }

  lemma {:induction false} StringValueRead(z: Rules, x: Text, depth: nat, rest: Text)
    requires depth <= z.maxDepth
    ensures Value(z, PrintString(x) + rest, depth) == Got(Str(x), rest)
  {
    StringRead(x, rest);
    Peel([QUOTE], PrintChars(x), [QUOTE], rest);
    var s, tail := PrintString(x) + rest, PrintChars(x) + [QUOTE] + rest;
    assert s == [QUOTE] + tail;
    assert s[1..] == tail && SkipSpace(s) == s;
  }

  lemma {:induction false} NumberValueRead(z: Rules, t: Text, depth: nat, rest: Text)
    requires GoodNumber(z, t) && Delimits(rest) && depth <= z.maxDepth
    ensures Value(z, t + rest, depth) == Got(Num(t), rest)
  {
    NumberStarts(t);
    NoSpace(t, rest);
    ValueOfNumber(z, t + rest, depth);
    NumberRead(z, t, rest);
  }

  lemma {:induction false} ValueOfNumber(z: Rules, s: Text, depth: nat)
    requires s != [] && (s[0] == MINUS || IsDigit(s[0])) && depth <= z.maxDepth
    ensures Value(z, s, depth) == Number(z, s)
  {}

  lemma {:induction false} WordRead(z: Rules, depth: nat, rest: Text)
    requires depth <= z.maxDepth
    ensures Value(z, TRUE_TEXT + rest, depth) == Got(Bool(true), rest)
    ensures Value(z, FALSE_TEXT + rest, depth) == Got(Bool(false), rest)
    ensures Value(z, NULL_TEXT + rest, depth) == Got(Null, rest)
  {
    LiteralRead(TRUE_TEXT, rest);
    LiteralRead(FALSE_TEXT, rest);
    LiteralRead(NULL_TEXT, rest);
  }

  lemma {:induction false} ScalarRead(z: Rules, v: Json, depth: nat, rest: Text)
    requires Good(z, v) && Delimits(rest) && !v.Arr? && !v.Obj?
    ensures Value(z, Print(v) + rest, depth) == Outcome(z, depth, v, rest)
  {
    if depth <= z.maxDepth {
      match v
      case Null => WordRead(z, depth, rest);
      case Bool(b) => WordRead(z, depth, rest);
      case Num(t) => NumberValueRead(z, t, depth, rest);
      case Str(x) => StringValueRead(z, x, depth, rest);
    }
  }

  lemma {:induction false} LiteralRead(word: Text, rest: Text)
    ensures word <= word + rest && (word + rest)[|word|..] == rest
  {}

  lemma {:induction false} EmptyRead(z: Rules, depth: nat, rest: Text)
    requires depth <= z.maxDepth
    ensures Value(z, Print(Arr(INil)) + rest, depth) == Got(Arr(INil), rest)
    ensures Value(z, Print(Obj(FNil)) + rest, depth) == Got(Obj(FNil), rest)
  {
    var a, o := [OPEN_ARRAY, CLOSE_ARRAY] + rest, [OPEN_OBJECT, CLOSE_OBJECT] + rest;
    assert SkipSpace(a) == a && a[1..] == [CLOSE_ARRAY] + rest && a[1..][1..] == rest;
    assert SkipSpace(o) == o && o[1..] == [CLOSE_OBJECT] + rest && o[1..][1..] == rest;
  }

  lemma {:induction false} ArrayOpens(z: Rules, body: Text, depth: nat, p: Parsed<Items>)
    requires depth <= z.maxDepth && Starts(body) && Elements(z, body, depth) == p
    ensures Value(z, [OPEN_ARRAY] + body, depth) == if p.Got? then Got(Arr(p.value), p.rest) else Bad(p.error)
  {
    var s := [OPEN_ARRAY] + body;
    assert SkipSpace(s) == s && s[1..] == body;
    assert SkipSpace(body) == body;
  }

  lemma {:induction false} ObjectOpens(z: Rules, body: Text, depth: nat, p: Parsed<Fields>)
    requires depth <= z.maxDepth && Starts(body) && Members(z, body, depth, {}) == p
    ensures Value(z, [OPEN_OBJECT] + body, depth) == if p.Got? then Got(Obj(p.value), p.rest) else Bad(p.error)
  {
    var s := [OPEN_OBJECT] + body;
    assert SkipSpace(s) == s && s[1..] == body;
    assert SkipSpace(body) == body;
  }

  lemma {:induction false} Opened(c: Unit, body: Text, rest: Text)
    requires Starts(body)
    ensures [c] + body + rest == [c] + (body + rest) && Starts(body + rest)
  {}

  lemma {:induction false} ArrayRead(z: Rules, xs: Items, depth: nat, rest: Text)
    requires Good(z, Arr(xs)) && xs != INil && depth <= z.maxDepth && Delimits(rest)
    ensures Value(z, Print(Arr(xs)) + rest, depth) == Outcome(z, depth + ItemsDepth(xs), Arr(xs), rest)
    decreases xs, 2
  {
    ItemsRead(z, xs, depth, rest);
    ItemsStart(z, xs);
    Opened(OPEN_ARRAY, PrintItems(xs), rest);
    ArrayOpens(z, PrintItems(xs) + rest, depth, Outcome(z, depth + ItemsDepth(xs), xs, rest));
  }

  lemma {:induction false} ObjectRead(z: Rules, fs: Fields, depth: nat, rest: Text)
    requires Good(z, Obj(fs)) && fs != FNil && depth <= z.maxDepth && Delimits(rest)
    ensures Value(z, Print(Obj(fs)) + rest, depth) == Outcome(z, depth + FieldsDepth(fs), Obj(fs), rest)
    decreases fs, 2
  {
    hide Value, Elements, Members, PrintFields;
    UnseenNone(fs);
    FieldsRead(z, fs, depth, {}, rest);
    FieldsStart(fs);
    Opened(OPEN_OBJECT, PrintFields(fs), rest);
    ObjectOpens(z, PrintFields(fs) + rest, depth, Outcome(z, depth + FieldsDepth(fs), fs, rest));
  }

  /** Parsing undoes printing, at every depth that is allowed and at no other. */
  lemma {:induction false} ValueRead(z: Rules, v: Json, depth: nat, rest: Text)
    requires Good(z, v) && Delimits(rest)
    ensures Value(z, Print(v) + rest, depth) == Outcome(z, depth + Depth(v), v, rest)
    decreases v, 3
  {
    if depth <= z.maxDepth {
      match v
      case Arr(INil) => EmptyRead(z, depth, rest);
      case Obj(FNil) => EmptyRead(z, depth, rest);
      case Arr(xs) => ArrayRead(z, xs, depth, rest);
      case Obj(fs) => ObjectRead(z, fs, depth, rest);
      case _ => ScalarRead(z, v, depth, rest);
    }
  }

  lemma {:induction false} ItemsStart(z: Rules, xs: Items)
    requires GoodItems(z, xs) && xs != INil
    ensures Starts(PrintItems(xs))
  {
    PrintStarts(z, xs.head);
  }

  lemma {:induction false} FieldsStart(fs: Fields)
    requires fs != FNil
    ensures Starts(PrintFields(fs)) && PrintFields(fs)[0] == QUOTE
  {}

  lemma {:induction false} DelimiterRead(c: Unit, tail: Text)
    requires c == COMMA || c == CLOSE_ARRAY || c == CLOSE_OBJECT || c == COLON
    ensures SkipSpace([c] + tail) == [c] + tail && ([c] + tail)[1..] == tail
  {}

  function ConsItem(p: Parsed<Json>, q: Parsed<Items>): Parsed<Items> {
    if p.Bad? then Bad(p.error) else if q.Bad? then Bad(q.error) else Got(ICons(p.value, q.value), q.rest)
  }

  lemma {:induction false} LastElement(z: Rules, s: Text, depth: nat, rest: Text)
    requires Value(z, s, depth + 1).Got? ==> Value(z, s, depth + 1).rest == [CLOSE_ARRAY] + rest
    ensures Elements(z, s, depth) == ConsItem(Value(z, s, depth + 1), Got(INil, rest))
  {
    DelimiterRead(CLOSE_ARRAY, rest);
  }

  lemma {:induction false} NextElement(z: Rules, s: Text, depth: nat, later: Text)
    requires Value(z, s, depth + 1).Got? ==> Value(z, s, depth + 1).rest == [COMMA] + later
    ensures Elements(z, s, depth) == ConsItem(Value(z, s, depth + 1), Elements(z, later, depth))
  {
    DelimiterRead(COMMA, later);
  }

  lemma {:induction false} OutcomeItem(z: Rules, a: nat, v: Json, tail: Text, b: nat, xs: Items, rest: Text)
    ensures ConsItem(Outcome(z, a, v, tail), Outcome(z, b, xs, rest)) == Outcome(z, Max(a, b), ICons(v, xs), rest)
    ensures ConsItem(Outcome(z, a, v, tail), Got(xs, rest)) == Outcome(z, a, ICons(v, xs), rest)
  {}

  lemma {:induction false} ItemText(v: Text, c: Unit, more: Text, rest: Text)
    ensures v + [c] + more + rest == v + ([c] + (more + rest))
    ensures v + [c] + rest == v + ([c] + rest)
  {}

  /** The last element, printed as `text`. */
  lemma {:induction false} LastItem(z: Rules, text: Text, v: Json, deep: nat, depth: nat, rest: Text)
    requires Value(z, text + ([CLOSE_ARRAY] + rest), depth + 1) == Outcome(z, deep, v, [CLOSE_ARRAY] + rest)
    ensures Elements(z, text + [CLOSE_ARRAY] + rest, depth) == Outcome(z, deep, ICons(v, INil), rest)
  {
    ItemText(text, CLOSE_ARRAY, [], rest);
    OutcomeItem(z, deep, v, [CLOSE_ARRAY] + rest, 0, INil, rest);
    LastElement(z, text + ([CLOSE_ARRAY] + rest), depth, rest);
  }

  /** An element printed as `text`, before others printed as `more`. */
  lemma {:induction false} NextItem(
    z: Rules, text: Text, v: Json, deep: nat, more: Text, xs: Items, below: nat, depth: nat,
    rest: Text, later: Text, tail: Text)
    requires later == more + rest && tail == [COMMA] + later
    requires Value(z, text + tail, depth + 1) == Outcome(z, deep, v, tail)
    requires Elements(z, later, depth) == Outcome(z, below, xs, rest)
    ensures Elements(z, text + [COMMA] + more + rest, depth) == Outcome(z, Max(deep, below), ICons(v, xs), rest)
  {
    ItemText(text, COMMA, more, rest);
    OutcomeItem(z, deep, v, tail, below, xs, rest);
    NextElement(z, text + tail, depth, later);
  }

  lemma {:induction false} ItemsPrinted(xs: Items)
    requires xs != INil
    ensures PrintItems(xs) ==
      if xs.tail == INil then Print(xs.head) + [CLOSE_ARRAY] else Print(xs.head) + [COMMA] + PrintItems(xs.tail)
  {}

  lemma {:induction false} FieldsPrinted(fs: Fields)
    requires fs != FNil
    ensures PrintFields(fs) ==
      if fs.rest == FNil then PrintString(fs.key) + [COLON] + Print(fs.value) + [CLOSE_OBJECT]
      else PrintString(fs.key) + [COLON] + Print(fs.value) + [COMMA] + PrintFields(fs.rest)
  {}

  lemma {:induction false} OneItemRead(z: Rules, v: Json, depth: nat, rest: Text)
    requires Good(z, v)
    ensures Elements(z, PrintItems(ICons(v, INil)) + rest, depth) ==
        Outcome(z, depth + 1 + Depth(v), ICons(v, INil), rest)
    decreases v, 4
  {
    hide Value, Elements, Members, Print, PrintItems;
    ItemsPrinted(ICons(v, INil));
    ValueRead(z, v, depth + 1, [CLOSE_ARRAY] + rest);
    LastItem(z, Print(v), v, depth + 1 + Depth(v), depth, rest);
  }

  lemma {:induction false} MoreItemsRead(z: Rules, v: Json, more: Items, depth: nat, rest: Text)
    requires Good(z, v) && more != INil
    requires Elements(z, PrintItems(more) + rest, depth) == Outcome(z, depth + ItemsDepth(more), more, rest)
    ensures Elements(z, PrintItems(ICons(v, more)) + rest, depth)
         == Outcome(z, Max(depth + 1 + Depth(v), depth + ItemsDepth(more)), ICons(v, more), rest)
    decreases v, 4
  {
    hide Value, Elements, Members, Print, PrintItems;
    ItemsPrinted(ICons(v, more));
    var later := PrintItems(more) + rest;
    var tail := [COMMA] + later;
    ValueRead(z, v, depth + 1, tail);
    NextItem(z, Print(v), v, depth + 1 + Depth(v), PrintItems(more), more, depth + ItemsDepth(more), depth, rest, later,
        tail);
  }

  lemma {:induction false} ManyItemsRead(z: Rules, v: Json, more: Items, depth: nat, rest: Text)
    requires Good(z, v) && GoodItems(z, more) && more != INil
    ensures Elements(z, PrintItems(ICons(v, more)) + rest, depth)
         == Outcome(z, Max(depth + 1 + Depth(v), depth + ItemsDepth(more)), ICons(v, more), rest)
    decreases ICons(v, more), 0
  {
    hide Value, Elements, Members, Print, PrintItems, GoodItems, Good, ItemsDepth, Depth;
    ItemsRead(z, more, depth, rest);
    MoreItemsRead(z, v, more, depth, rest);
  }

  lemma {:induction false} ItemsRead(z: Rules, xs: Items, depth: nat, rest: Text)
    requires GoodItems(z, xs) && xs != INil
    ensures Elements(z, PrintItems(xs) + rest, depth) == Outcome(z, depth + ItemsDepth(xs), xs, rest)
    decreases xs, 1
  {
    hide Value, Elements, Members, Array, Object, Print, PrintItems, PrintFields, PrintString, PrintChars;
    hide Depth, FieldsDepth, Good, GoodFields, Outcome;
    if xs.tail == INil {
      OneItemRead(z, xs.head, depth, rest);
    } else {
      ManyItemsRead(z, xs.head, xs.tail, depth, rest);
    }
  }

  /** Keys already seen do not occur again. */
  predicate Unseen(fs: Fields, seen: set<Text>) { fs.FCons? ==> fs.key !in seen && Unseen(fs.rest, seen) }

  lemma {:induction false} UnseenNext(fs: Fields, seen: set<Text>, k: Text)
    requires Unseen(fs, seen) && !HasKey(fs, k)
    ensures Unseen(fs, seen + {k})
    decreases fs
  {
    if fs.FCons? { UnseenNext(fs.rest, seen, k); }
  }

  lemma {:induction false} UnseenNone(fs: Fields)
    ensures Unseen(fs, {})
    decreases fs
  {
    if fs.FCons? { UnseenNone(fs.rest); }
  }

  /** The key and the colon before a value. */
  lemma {:induction false} KeyRead(k: Text, tail: Text)
    ensures var s := PrintString(k) + [COLON] + tail;
      && SkipSpace(s) == s && At(s, QUOTE) && Chars(s[1..]) == Got(k, [COLON] + tail)
      && SkipSpace([COLON] + tail) == [COLON] + tail && ([COLON] + tail)[1..] == tail
  {
    var s := PrintString(k) + [COLON] + tail;
    assert s[1..] == PrintChars(k) + [QUOTE] + ([COLON] + tail);
    StringRead(k, [COLON] + tail);
    DelimiterRead(COLON, tail);
  }

  function ConsField(k: Text, p: Parsed<Json>, q: Parsed<Fields>): Parsed<Fields> {
    if p.Bad? then Bad(p.error) else if q.Bad? then Bad(q.error) else Got(FCons(k, p.value, q.value), q.rest)
  }

  lemma {:induction false} LastMember(z: Rules, k: Text, s: Text, depth: nat, seen: set<Text>, rest: Text)
    requires k !in seen
    requires Value(z, s, depth + 1).Got? ==> Value(z, s, depth + 1).rest == [CLOSE_OBJECT] + rest
    ensures Members(z, PrintString(k) + [COLON] + s, depth, seen) ==
        ConsField(k, Value(z, s, depth + 1), Got(FNil, rest))
  {
    KeyRead(k, s);
    DelimiterRead(CLOSE_OBJECT, rest);
  }

  lemma {:induction false} NextMember(z: Rules, k: Text, s: Text, depth: nat, seen: set<Text>, later: Text)
    requires k !in seen
    requires Value(z, s, depth + 1).Got? ==> Value(z, s, depth + 1).rest == [COMMA] + later
    requires var p := Members(z, later, depth, seen + {k}); p.Got? ==> !HasKey(p.value, k)
    ensures Members(z, PrintString(k) + [COLON] + s, depth, seen)
         == ConsField(k, Value(z, s, depth + 1), Members(z, later, depth, seen + {k}))
  {
    KeyRead(k, s);
    DelimiterRead(COMMA, later);
  }

  lemma {:induction false} OutcomeField(z: Rules, k: Text, a: nat, v: Json, tail: Text, b: nat, fs: Fields, rest: Text)
    ensures ConsField(k, Outcome(z, a, v, tail), Outcome(z, b, fs, rest)) ==
        Outcome(z, Max(a, b), FCons(k, v, fs), rest)
    ensures ConsField(k, Outcome(z, a, v, tail), Got(fs, rest)) == Outcome(z, a, FCons(k, v, fs), rest)
  {}

  lemma {:induction false} MemberText(k: Text, v: Text, c: Unit, more: Text, rest: Text)
    ensures k + [COLON] + v + [c] + more + rest == k + [COLON] + (v + ([c] + (more + rest)))
    ensures k + [COLON] + v + [c] + rest == k + [COLON] + (v + ([c] + rest))
  {}

  lemma {:induction false} LastField(z: Rules, k: Text, text: Text, v: Json, deep: nat, depth: nat, seen: set<Text>,
      rest: Text)
    requires k !in seen
    requires Value(z, text + ([CLOSE_OBJECT] + rest), depth + 1) == Outcome(z, deep, v, [CLOSE_OBJECT] + rest)
    ensures Members(z, PrintString(k) + [COLON] + text + [CLOSE_OBJECT] + rest, depth, seen)
         == Outcome(z, deep, FCons(k, v, FNil), rest)
  {
    MemberText(PrintString(k), text, CLOSE_OBJECT, [], rest);
    OutcomeField(z, k, deep, v, [CLOSE_OBJECT] + rest, 0, FNil, rest);
    LastMember(z, k, text + ([CLOSE_OBJECT] + rest), depth, seen, rest);
  }

  lemma {:induction false} NextField(
    z: Rules, k: Text, text: Text, v: Json, deep: nat, more: Text, fs: Fields, below: nat, depth: nat, seen: set<Text>,
    rest: Text, later: Text, tail: Text)
    requires k !in seen && !HasKey(fs, k) && later == more + rest && tail == [COMMA] + later
    requires Value(z, text + tail, depth + 1) == Outcome(z, deep, v, tail)
    requires Members(z, later, depth, seen + {k}) == Outcome(z, below, fs, rest)
    ensures Members(z, PrintString(k) + [COLON] + text + [COMMA] + more + rest, depth, seen)
         == Outcome(z, Max(deep, below), FCons(k, v, fs), rest)
  {
    MemberText(PrintString(k), text, COMMA, more, rest);
    OutcomeField(z, k, deep, v, tail, below, fs, rest);
    NextMember(z, k, text + tail, depth, seen, later);
  }

  lemma {:induction false} OneFieldRead(z: Rules, k: Text, v: Json, depth: nat, seen: set<Text>, rest: Text)
    requires Good(z, v) && k !in seen
    ensures Members(z, PrintFields(FCons(k, v, FNil)) + rest, depth, seen)
         == Outcome(z, depth + 1 + Depth(v), FCons(k, v, FNil), rest)
    decreases v, 4
  {
    hide Value, Elements, Members, Print, PrintFields, PrintString;
    FieldsPrinted(FCons(k, v, FNil));
    ValueRead(z, v, depth + 1, [CLOSE_OBJECT] + rest);
    LastField(z, k, Print(v), v, depth + 1 + Depth(v), depth, seen, rest);
  }

  lemma {:induction false} MoreFieldsRead(z: Rules, k: Text, v: Json, more: Fields, depth: nat, seen: set<Text>,
      rest: Text)
    requires Good(z, v) && k !in seen && more != FNil && !HasKey(more, k)
    requires Members(z, PrintFields(more) + rest, depth, seen + {k}) ==
        Outcome(z, depth + FieldsDepth(more), more, rest)
    ensures Members(z, PrintFields(FCons(k, v, more)) + rest, depth, seen)
         == Outcome(z, Max(depth + 1 + Depth(v), depth + FieldsDepth(more)), FCons(k, v, more), rest)
    decreases v, 4
  {
    hide Value, Elements, Members, Print, PrintFields, PrintString;
    FieldsPrinted(FCons(k, v, more));
    var later := PrintFields(more) + rest;
    var tail := [COMMA] + later;
    ValueRead(z, v, depth + 1, tail);
    NextField(z, k, Print(v), v, depth + 1 + Depth(v), PrintFields(more), more, depth + FieldsDepth(more), depth, seen,
              rest, later, tail);
  }

  lemma {:induction false} FieldsRead(z: Rules, fs: Fields, depth: nat, seen: set<Text>, rest: Text)
    requires GoodFields(z, fs) && fs != FNil && Unseen(fs, seen)
    ensures Members(z, PrintFields(fs) + rest, depth, seen) == Outcome(z, depth + FieldsDepth(fs), fs, rest)
    decreases fs, 0
  {
    hide Value, Elements, Members, Array, Object, Print, PrintItems, PrintFields, PrintString, PrintChars;
    hide Depth, ItemsDepth, Good, GoodItems, Outcome;
    if fs.rest == FNil {
      OneFieldRead(z, fs.key, fs.value, depth, seen, rest);
    } else {
      UnseenNext(fs.rest, seen, fs.key);
      FieldsRead(z, fs.rest, depth, seen + {fs.key}, rest);
      MoreFieldsRead(z, fs.key, fs.value, fs.rest, depth, seen, rest);
    }
  }

  lemma {:induction false} ParseIs(z: Rules, s: Text, p: Parsed<Json>)
    requires Value(z, s, 0) == p && (p.Got? ==> p.rest == [])
    ensures Parse(z, s) == if p.Got? then Ok(p.value) else Err(p.error)
  {}

  /** The round trip: a printed value is parsed to itself if its depth is within the bound, and refused if not. */
  lemma {:induction false} ParsePrinted(z: Rules, v: Json)
    requires Good(z, v)
    ensures Parse(z, Print(v)) == if Depth(v) <= z.maxDepth then Ok(v) else Err(TooDeep)
  {
    ValueRead(z, v, 0, []);
    assert Print(v) + [] == Print(v);
    ParseIs(z, Print(v), Outcome(z, Depth(v), v, []));
  }

  /** Two values that print alike are the same value. */
  lemma {:induction false} PrintInjective(z: Rules, v: Json, w: Json)
    requires Good(z, v) && Good(z, w) && Print(v) == Print(w)
    ensures v == w
  {
    var deep := z.(maxDepth := Max(Depth(v), Depth(w)));
    GoodAnyDepth(z, deep, v);
    GoodAnyDepth(z, deep, w);
    ParsePrinted(deep, v);
    ParsePrinted(deep, w);
  }

  lemma {:induction false} GoodAnyDepth(z: Rules, y: Rules, v: Json)
    requires Good(z, v) && y.num == z.num
    ensures Good(y, v)
    decreases v
  {
    match v
    case Arr(xs) => GoodItemsAnyDepth(z, y, xs);
    case Obj(fs) => GoodFieldsAnyDepth(z, y, fs);
    case _ =>
  }

  lemma {:induction false} GoodItemsAnyDepth(z: Rules, y: Rules, xs: Items)
    requires GoodItems(z, xs) && y.num == z.num
    ensures GoodItems(y, xs)
    decreases xs
  {
    if xs.ICons? {
      GoodAnyDepth(z, y, xs.head);
      GoodItemsAnyDepth(z, y, xs.tail);
    }
  }

  lemma {:induction false} GoodFieldsAnyDepth(z: Rules, y: Rules, fs: Fields)
    requires GoodFields(z, fs) && y.num == z.num
    ensures GoodFields(y, fs)
    decreases fs
  {
    if fs.FCons? {
      GoodAnyDepth(z, y, fs.value);
      GoodFieldsAnyDepth(z, y, fs.rest);
    }
  }

  // ------------------------------------------------------------------ what is accepted

  /** No object of the value has a key twice. */
  predicate Distinct(v: Json) {
    match v case Arr(xs) => DistinctItems(xs) case Obj(fs) => DistinctFields(fs) case _ => true
  }

  predicate DistinctItems(xs: Items) { xs.ICons? ==> Distinct(xs.head) && DistinctItems(xs.tail) }

  predicate DistinctFields(fs: Fields) {
    fs.FCons? ==> !HasKey(fs.rest, fs.key) && Distinct(fs.value) && DistinctFields(fs.rest)
  }

  predicate Accepted(z: Rules, v: Json, depth: nat) { Distinct(v) && depth + Depth(v) <= z.maxDepth }

  lemma {:induction false} ValueAccepted(z: Rules, s: Text, depth: nat)
    requires Value(z, s, depth).Got?
    ensures Accepted(z, Value(z, s, depth).value, depth)
    decreases |s|, 2
  {
    var t := SkipSpace(s);
    if t[0] == OPEN_OBJECT {
      ObjectAccepted(z, t[1..], depth);
    } else if t[0] == OPEN_ARRAY {
      ArrayAccepted(z, t[1..], depth);
    }
  }

  lemma {:induction false} ObjectAccepted(z: Rules, s: Text, depth: nat)
    requires Object(z, s, depth).Got? && depth <= z.maxDepth
    ensures Accepted(z, Object(z, s, depth).value, depth)
    decreases |s|, 1
  {
    if !At(SkipSpace(s), CLOSE_OBJECT) { MembersAccepted(z, s, depth, {}); }
  }

  lemma {:induction false} ArrayAccepted(z: Rules, s: Text, depth: nat)
    requires Array(z, s, depth).Got? && depth <= z.maxDepth
    ensures Accepted(z, Array(z, s, depth).value, depth)
    decreases |s|, 4
  {
    if !At(SkipSpace(s), CLOSE_ARRAY) { ElementsAccepted(z, s, depth); }
  }

  lemma {:induction false} UnseenLacks(fs: Fields, seen: set<Text>, k: Text)
    requires Unseen(fs, seen) && k in seen
    ensures !HasKey(fs, k)
    decreases fs
  {
    if fs.FCons? { UnseenLacks(fs.rest, seen, k); }
  }

  lemma {:induction false} UnseenFewer(fs: Fields, seen: set<Text>, fewer: set<Text>)
    requires Unseen(fs, seen) && fewer <= seen
    ensures Unseen(fs, fewer)
    decreases fs
  {
    if fs.FCons? { UnseenFewer(fs.rest, seen, fewer); }
  }

  lemma {:induction false} WithoutLacks(fs: Fields, k: Text, j: Text)
    requires !HasKey(fs, j) || (j == k && DistinctFields(fs))
    ensures !HasKey(Without(fs, k), j)
    decreases fs
  {
    if fs.FCons? && fs.key != k { WithoutLacks(fs.rest, k, j); }
  }

  lemma {:induction false} WithoutDistinct(fs: Fields, k: Text)
    requires DistinctFields(fs)
    ensures DistinctFields(Without(fs, k)) && FieldsDepth(Without(fs, k)) <= FieldsDepth(fs)
    decreases fs
  {
    if fs.FCons? && fs.key != k {
      WithoutDistinct(fs.rest, k);
      WithoutLacks(fs.rest, k, fs.key);
    }
  }

  lemma {:induction false} LookupDistinct(fs: Fields, k: Text)
    requires DistinctFields(fs) && HasKey(fs, k)
    ensures Distinct(Lookup(fs, k)) && 1 + Depth(Lookup(fs, k)) <= FieldsDepth(fs)
    decreases fs
  {
    if fs.key != k { LookupDistinct(fs.rest, k); }
  }

  lemma {:induction false} PutDistinct(k: Text, v: Json, fs: Fields)
    requires DistinctFields(fs) && Distinct(v)
    ensures DistinctFields(Put(k, v, fs)) && FieldsDepth(Put(k, v, fs)) <= Max(1 + Depth(v), FieldsDepth(fs))
  {
    if HasKey(fs, k) {
      LookupDistinct(fs, k);
      WithoutDistinct(fs, k);
      WithoutLacks(fs, k, k);
    }
  }

  lemma {:induction false} MembersAccepted(z: Rules, s: Text, depth: nat, seen: set<Text>)
    requires Members(z, s, depth, seen).Got? && depth <= z.maxDepth
    ensures var fs := Members(z, s, depth, seen).value;
      DistinctFields(fs) && depth + FieldsDepth(fs) <= z.maxDepth && (z.strict ==> Unseen(fs, seen))
    decreases |s|, 0
  {
    hide Put, Value, Chars, SkipSpace, Depth, Distinct;
    var t := SkipSpace(s);
    var key := Chars(t[1..]);
    var k, u := key.value, SkipSpace(key.rest);
    ValueAccepted(z, u[1..], depth + 1);
    var w := SkipSpace(Value(z, u[1..], depth + 1).rest);
    if At(w, COMMA) {
      MembersAccepted(z, w[1..], depth, seen + {k});
      var more := Members(z, w[1..], depth, seen + {k}).value;
      if z.strict {
        UnseenLacks(more, seen + {k}, k);
        UnseenFewer(more, seen + {k}, seen);
      } else {
        PutDistinct(k, Value(z, u[1..], depth + 1).value, more);
      }
    }
  }

  lemma {:induction false} ElementsAccepted(z: Rules, s: Text, depth: nat)
    requires Elements(z, s, depth).Got? && depth <= z.maxDepth
    ensures var xs := Elements(z, s, depth).value; DistinctItems(xs) && depth + ItemsDepth(xs) <= z.maxDepth
    decreases |s|, 3
  {
    ValueAccepted(z, s, depth + 1);
    var w := SkipSpace(Value(z, s, depth + 1).rest);
    if At(w, COMMA) { ElementsAccepted(z, w[1..], depth); }
  }

  /** Whatever text is accepted, no object has a duplicate key and nothing nests past the bound. */
  lemma {:induction false} ParseAccepts(z: Rules, s: Text)
    requires Parse(z, s).Ok?
    ensures Distinct(Parse(z, s).value) && Depth(Parse(z, s).value) <= z.maxDepth
  {
    ValueAccepted(z, s, 0);
  }

  // ------------------------------------------------------------------ numbers that have no text

  /** A value prints like what is left of it once it is read again. */
  lemma {:induction false} PrintNulled(v: Json)
    ensures Print(Nulled(v)) == Print(v)
    decreases v
  {
    match v
    case Arr(xs) => PrintNulledItems(xs);
    case Obj(fs) => PrintNulledFields(fs);
    case _ =>
  }

  lemma {:induction false} PrintNulledItems(xs: Items)
    ensures PrintItems(NulledItems(xs)) == PrintItems(xs)
    decreases xs
  {
    if xs.ICons? {
      PrintNulled(xs.head);
      PrintNulledItems(xs.tail);
      ItemsPrinted(xs);
      ItemsPrinted(NulledItems(xs));
    }
  }

  lemma {:induction false} PrintNulledFields(fs: Fields)
    ensures PrintFields(NulledFields(fs)) == PrintFields(fs)
    decreases fs
  {
    if fs.FCons? {
      PrintNulled(fs.value);
      PrintNulledFields(fs.rest);
      FieldsPrinted(fs);
      FieldsPrinted(NulledFields(fs));
    }
  }

  /** Nothing is lost exactly when every number is finite. */
  lemma {:induction false} NulledSame(v: Json)
    ensures Nulled(v) == v <==> Finite(v)
    decreases v
  {
    match v
    case Arr(xs) => NulledItemsSame(xs);
    case Obj(fs) => NulledFieldsSame(fs);
    case _ =>
  }

  lemma {:induction false} NulledItemsSame(xs: Items)
    ensures NulledItems(xs) == xs <==> FiniteItems(xs)
    decreases xs
  {
    if xs.ICons? {
      NulledSame(xs.head);
      NulledItemsSame(xs.tail);
    }
  }

  lemma {:induction false} NulledFieldsSame(fs: Fields)
    ensures NulledFields(fs) == fs <==> FiniteFields(fs)
    decreases fs
  {
    if fs.FCons? {
      NulledSame(fs.value);
      NulledFieldsSame(fs.rest);
    }
  }

  lemma {:induction false} NulledKeys(fs: Fields, k: Text)
    ensures HasKey(NulledFields(fs), k) <==> HasKey(fs, k)
    ensures HasKey(fs, k) ==> Lookup(NulledFields(fs), k) == Nulled(Lookup(fs, k))
    ensures NulledFields(Without(fs, k)) == Without(NulledFields(fs), k)
    decreases fs
  {
    if fs.FCons? { NulledKeys(fs.rest, k); }
  }

  /** Written and read, a value is what is left of it, at every depth that is allowed and at no other. */
  lemma {:induction false} ParseWritten(z: Rules, v: Json)
    requires Sound(z, v)
    ensures Parse(z, Print(v)) == if Depth(v) <= z.maxDepth then Ok(Nulled(v)) else Err(TooDeep)
  {
    PrintNulled(v);
    NulledDepth(v);
    ParsePrinted(z, Nulled(v));
  }

  lemma {:induction false} NulledDepth(v: Json)
    ensures Depth(Nulled(v)) == Depth(v)
    decreases v
  {
    match v
    case Arr(xs) => NulledItemsDepth(xs);
    case Obj(fs) => NulledFieldsDepth(fs);
    case _ =>
  }

  lemma {:induction false} NulledItemsDepth(xs: Items)
    ensures ItemsDepth(NulledItems(xs)) == ItemsDepth(xs)
    decreases xs
  {
    if xs.ICons? {
      NulledDepth(xs.head);
      NulledItemsDepth(xs.tail);
    }
  }

  lemma {:induction false} NulledFieldsDepth(fs: Fields)
    ensures FieldsDepth(NulledFields(fs)) == FieldsDepth(fs)
    decreases fs
  {
    if fs.FCons? {
      NulledDepth(fs.value);
      NulledFieldsDepth(fs.rest);
    }
  }

  lemma {:induction false} NulledDistinct(v: Json)
    ensures Distinct(Nulled(v)) <==> Distinct(v)
    decreases v
  {
    match v
    case Arr(xs) => NulledItemsDistinct(xs);
    case Obj(fs) => NulledFieldsDistinct(fs);
    case _ =>
  }

  lemma {:induction false} NulledItemsDistinct(xs: Items)
    ensures DistinctItems(NulledItems(xs)) <==> DistinctItems(xs)
    decreases xs
  {
    if xs.ICons? {
      NulledDistinct(xs.head);
      NulledItemsDistinct(xs.tail);
    }
  }

  lemma {:induction false} NulledFieldsDistinct(fs: Fields)
    ensures DistinctFields(NulledFields(fs)) <==> DistinctFields(fs)
    decreases fs
  {
    if fs.FCons? {
      NulledKeys(fs.rest, fs.key);
      NulledDistinct(fs.value);
      NulledFieldsDistinct(fs.rest);
    }
  }
}
