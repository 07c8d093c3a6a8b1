/** The strict JSON parser: one text, one shared index, loops for objects, arrays and strings. */
module StrictJson {
  import opened Common
  import opened Utf16
  import opened JsonModel

  lemma {:induction false} Later(s: Text, i: nat, k: nat)
    requires i + k <= |s|
    ensures s[i..][k..] == s[i + k..]
  {}

  // ------------------------------------------------------------------ what a loop has gathered so far

  function AppendItem(xs: Items, v: Json): Items {
    match xs case INil => ICons(v, INil) case ICons(w, rest) => ICons(w, AppendItem(rest, v))
  }

  function JoinItems(xs: Items, ys: Items): Items {
    match xs case INil => ys case ICons(v, rest) => ICons(v, JoinItems(rest, ys))
  }

  function AfterItems(xs: Items, p: Parsed<Items>): Parsed<Items> {
    match p case Bad(e) => Bad(e) case Got(ys, rest) => Got(JoinItems(xs, ys), rest)
  }

  lemma {:induction false} JoinItem(xs: Items, v: Json, ys: Items)
    ensures JoinItems(AppendItem(xs, v), ys) == JoinItems(xs, ICons(v, ys))
    decreases xs
  {
    if xs.ICons? { JoinItem(xs.tail, v, ys); }
  }

  lemma {:induction false} JoinLastItem(xs: Items, v: Json)
    ensures JoinItems(xs, ICons(v, INil)) == AppendItem(xs, v)
    decreases xs
  {
    if xs.ICons? { JoinLastItem(xs.tail, v); }
  }

  function AppendField(fs: Fields, k: Text, v: Json): Fields {
    match fs case FNil => FCons(k, v, FNil) case FCons(j, w, rest) => FCons(j, w, AppendField(rest, k, v))
  }

  function JoinFields(fs: Fields, gs: Fields): Fields {
    match fs case FNil => gs case FCons(k, v, rest) => FCons(k, v, JoinFields(rest, gs))
  }

  function AfterFields(fs: Fields, p: Parsed<Fields>): Parsed<Fields> {
    match p case Bad(e) => Bad(e) case Got(gs, rest) => Got(JoinFields(fs, gs), rest)
  }

  lemma {:induction false} JoinField(fs: Fields, k: Text, v: Json, gs: Fields)
    ensures JoinFields(AppendField(fs, k, v), gs) == JoinFields(fs, FCons(k, v, gs))
    decreases fs
  {
    if fs.FCons? { JoinField(fs.rest, k, v, gs); }
  }

  lemma {:induction false} JoinLastField(fs: Fields, k: Text, v: Json)
    ensures JoinFields(fs, FCons(k, v, FNil)) == AppendField(fs, k, v)
    decreases fs
  {
    if fs.FCons? { JoinLastField(fs.rest, k, v); }
  }

  function AfterChars(out: Text, p: Parsed<Text>): Parsed<Text> {
    match p case Bad(e) => Bad(e) case Got(t, rest) => Got(out + t, rest)
  }

  lemma {:induction false} OneMoreChar(out: Text, u: Unit, p: Parsed<Text>)
    ensures AfterChars(out, Prepend(u, p)) == AfterChars(out + [u], p)
  {
    if p.Got? { assert out + ([u] + p.value) == out + [u] + p.value; }
  }

  // ------------------------------------------------------------------ one member, one element

  /** A key and its colon. */
  function KeyOf(s: Text, seen: set<Text>): (p: Parsed<Text>)
    ensures p.Got? ==> |p.rest| < |s|
  {
    var t := SkipSpace(s);
    if !At(t, QUOTE) then Bad(Key)
    else
      match Chars(t[1..])
      case Bad(e) => Bad(e)
      case Got(k, afterKey) =>
        if k in seen then Bad(Duplicate)
        else
          var u := SkipSpace(afterKey);
          if At(u, COLON) then Got(k, u[1..]) else Bad(Colon)
  }

  function Member(z: StrictRules, s: Text, depth: nat, seen: set<Text>): (p: Parsed<(Text, Json)>)
    ensures p.Got? ==> |p.rest| < |s|
  {
    match KeyOf(s, seen)
    case Bad(e) => Bad(e)
    case Got(k, afterColon) =>
      match Value(z, afterColon, depth + 1)
      case Bad(e) => Bad(e)
      case Got(v, rest) => Got((k, v), rest)
  }

  /** What stands between two members or elements, or behind the last. */
  datatype Between = More | Closed | Neither

  function Next(s: Text, close: Unit): (Between, Text) {
    var w := SkipSpace(s);
    if At(w, COMMA) then (More, w[1..]) else if At(w, close) then (Closed, w[1..]) else (Neither, w)
  }

  lemma {:induction false} MembersStep(z: StrictRules, s: Text, depth: nat, seen: set<Text>, out: Fields)
    ensures var m := Member(z, s, depth, seen);
      AfterFields(out, Members(z, s, depth, seen)) ==
        if m.Bad? then Bad(m.error)
        else
          var (between, after) := Next(m.rest, CLOSE_OBJECT);
          var with := AppendField(out, m.value.0, m.value.1);
          match between
          case More => AfterFields(with, Members(z, after, depth, seen + {m.value.0}))
          case Closed => Got(with, after)
          case Neither => Bad(Comma)
  {
    var m := Member(z, s, depth, seen);
    if m.Got? {
      var (between, after) := Next(m.rest, CLOSE_OBJECT);
      JoinLastField(out, m.value.0, m.value.1);
      if between == More {
        var q := Members(z, after, depth, seen + {m.value.0});
        if q.Got? { JoinField(out, m.value.0, m.value.1, q.value); }
      }
    }
  }

  lemma {:induction false} ElementsStep(z: StrictRules, s: Text, depth: nat, out: Items)
    ensures var m := Value(z, s, depth + 1);
      AfterItems(out, Elements(z, s, depth)) ==
        if m.Bad? then Bad(m.error)
        else
          var (between, after) := Next(m.rest, CLOSE_ARRAY);
          var with := AppendItem(out, m.value);
          match between
          case More => AfterItems(with, Elements(z, after, depth))
          case Closed => Got(with, after)
          case Neither => Bad(Comma)
  {
    var m := Value(z, s, depth + 1);
    if m.Got? {
      var (between, after) := Next(m.rest, CLOSE_ARRAY);
      JoinLastItem(out, m.value);
      if between == More {
        var q := Elements(z, after, depth);
        if q.Got? { JoinItem(out, m.value, q.value); }
      }
    }
  }

  // ------------------------------------------------------------------ the parser

  /** How a method reports what the parse of a rest of the text gave. */
  ghost predicate Follows<T>(r: Result<T, Error>, p: Parsed<T>, rest: Text) {
    match p case Bad(e) => r == Err(e) case Got(v, after) => r == Ok(v) && rest == after
  }

  class Parser {
    const text: Text
    const z: StrictRules
    var i: nat

    constructor (text: Text, z: StrictRules)
      ensures this.text == text && this.z == z && i == 0
    {
      this.text, this.z, i := text, z, 0;
    }

    ghost predicate Within()
      reads this
    {
      i <= |text|
    }

    method Space()
      requires Within()
      modifies this
      ensures Within() && i >= old(i) && text[i..] == SkipSpace(text[old(i)..])
    {
      while i < |text| && IsSpace(text[i])
        invariant Within() && i >= old(i)
        invariant SkipSpace(text[i..]) == SkipSpace(text[old(i)..])
      {
        Later(text, i, 1);
        i := i + 1;
      }
    }

    /** One escape after the backslash that `i` stands at. */
    method EscapeChar() returns (r: Result<Unit, Error>)
      requires i < |text| && text[i] == BACKSLASH
      modifies this
      ensures Within() && i >= old(i)
      ensures r.Ok? ==> i > old(i) && Chars(text[old(i)..]) == Prepend(r.value, Chars(text[i..]))
      ensures r.Err? ==> Chars(text[old(i)..]) == Bad(r.error)
    {
      ghost var s := text[i..];
      Later(text, i, 1);
      i := i + 1;
      if i >= |text| { return Err(Escape); }
      Later(text, old(i), 2);
      var e := text[i];
      assert s[1] == e && s[1..][0] == e;
      if e == 0x75 {
        if i + 5 > |text| { return Err(Escape); }
        assert s[2..][0] == text[i + 1] && s[2..][1] == text[i + 2] && s[2..][2] == text[i + 3]
            && s[2..][3] == text[i + 4];
        var a, b, c, d := HexValue(text[i + 1]), HexValue(text[i + 2]), HexValue(text[i + 3]), HexValue(text[i + 4]);
        if a < 0 || b < 0 || c < 0 || d < 0 { return Err(Escape); }
        Later(text, old(i), 6);
        i := i + 5;
        r := Ok(ToUnit(HexUnit(a, b, c, d)));
      } else {
        var u := Unescaped(e);
        if u.None? { return Err(Escape); }
        i := i + 1;
        r := Ok(u.value);
      }
    }

    /** A string literal: `i` stands at its opening quote. */
    method String() returns (r: Result<Text, Error>)
      requires i < |text| && text[i] == QUOTE
      modifies this
      ensures Within() && i > old(i) && Follows(r, Chars(text[old(i) + 1..]), text[i..])
    {
      i := i + 1;
      ghost var p := Chars(text[i..]);
      var out: Text := [];
      assert p == AfterChars(out, p) by { if p.Got? { assert [] + p.value == p.value; } }
      while true
        invariant Within() && i > old(i)
        invariant p == AfterChars(out, Chars(text[i..]))
        decreases |text| - i
      {
        if i >= |text| { return Err(Unterminated); }
        var c := text[i];
        ghost var s := text[i..];
        Later(text, i, 1);
        assert s[0] == c;
        if c == QUOTE {
          i := i + 1;
          assert out + [] == out;
          return Ok(out);
        }
        if c < 0x20 { return Err(Control); }
        if c == BACKSLASH {
          var e := EscapeChar();
          if e.Err? { return Err(e.error); }
          OneMoreChar(out, e.value, Chars(text[i..]));
          out := out + [e.value];
        } else {
          OneMoreChar(out, c, Chars(text[i + 1..]));
          out := out + [c];
          i := i + 1;
        }
      }
    }

    method ReadNumber() returns (r: Result<Json, Error>)
      requires Within()
      modifies this
      ensures Within() && i >= old(i) && Follows(r, Number(z, text[old(i)..]), text[i..])
      ensures r.Ok? ==> i > old(i)
    {
      var rest := text[i..];
      var n := NumberLen(Window(z, rest));
      if n == 0 { return Err(NotNumber); }
      var printed := z.num(rest[..n]);
      Later(text, i, n);
      i := i + n;
      if printed.None? { return Err(NonFinite); }
      r := Ok(Num(printed.value));
    }

    method Literal(word: Text) returns (found: bool)
      requires Within()
      modifies this
      ensures Within() && (found <==> word <= text[old(i)..])
      ensures i == if found then old(i) + |word| else old(i)
      ensures found ==> text[i..] == text[old(i)..][|word|..]
    {
      found := word <= text[i..];
      if found {
        Later(text, i, |word|);
        i := i + |word|;
      }
    }

    method ReadValue(depth: nat) returns (r: Result<Json, Error>)
      requires Within()
      modifies this
      ensures Within() && i >= old(i) && Follows(r, Value(z, text[old(i)..], depth), text[i..])
      ensures r.Ok? ==> i > old(i)
      decreases |text| - i, 2
    {
      if depth > z.maxDepth { return Err(TooDeep); }
      Space();
      if i >= |text| { return Err(End); }
      var c := text[i];
      assert text[i..][0] == c;
      Later(text, i, 1);
      if c == OPEN_OBJECT {
        r := ReadObject(depth);
      } else if c == OPEN_ARRAY {
        r := ReadArray(depth);
      } else if c == QUOTE {
        var s := String();
        r := if s.Ok? then Ok(Str(s.value)) else Err(s.error);
      } else if c == MINUS || IsDigit(c) {
        r := ReadNumber();
      } else {
        r := Word();
      }
    }

    method Word() returns (r: Result<Json, Error>)
      requires Within()
      modifies this
      ensures Within() && i >= old(i) && (r.Ok? ==> i > old(i))
      ensures var t := text[old(i)..];
        Follows(r, if TRUE_TEXT <= t then Got(Bool(true), t[4..])
                   else if FALSE_TEXT <= t then Got(Bool(false), t[5..])
                   else if NULL_TEXT <= t then Got(Null, t[4..])
                   else Bad(Token), text[i..])
    {
      var found := Literal(TRUE_TEXT);
      if found { return Ok(Bool(true)); }
      found := Literal(FALSE_TEXT);
      if found { return Ok(Bool(false)); }
      found := Literal(NULL_TEXT);
      if found { return Ok(Null); }
      r := Err(Token);
    }

    method Separator(close: Unit) returns (between: Between)
      requires Within()
      modifies this
      ensures Within() && i >= old(i) && (between, text[i..]) == Next(text[old(i)..], close)
      ensures between != Neither ==> i > old(i)
    {
      Space();
      if i >= |text| { return Neither; }
      Later(text, i, 1);
      if text[i] == COMMA {
        i := i + 1;
        return More;
      }
      if text[i] == close {
        i := i + 1;
        return Closed;
      }
      between := Neither;
    }

    method StandsAt(c: Unit) returns (yes: bool)
      requires Within()
      modifies this
      ensures Within() && i >= old(i) && text[i..] == SkipSpace(text[old(i)..])
      ensures yes <==> At(SkipSpace(text[old(i)..]), c)
      ensures yes ==> i < |text| && text[i] == c && text[i..][1..] == text[i + 1..]
    {
      Space();
      yes := i < |text| && text[i] == c;
      if yes { Later(text, i, 1); }
    }

    /** A character expected after any space. */
    method Skip(c: Unit) returns (yes: bool)
      requires Within()
      modifies this
      ensures Within() && i >= old(i) && (yes <==> At(SkipSpace(text[old(i)..]), c))
      ensures text[i..] == if yes then SkipSpace(text[old(i)..])[1..] else SkipSpace(text[old(i)..])
    {
      yes := StandsAt(c);
      if yes { i := i + 1; }
    }

    method ReadArray(depth: nat) returns (r: Result<Json, Error>)
      requires i < |text|
      modifies this
      ensures Within() && i > old(i) && Follows(r, Array(z, text[old(i) + 1..], depth), text[i..])
      decreases |text| - i, 1
    {
      i := i + 1;
      ghost var s := text[i..];
      var none := Skip(CLOSE_ARRAY);
      if none { return Ok(Arr(INil)); }
      r := ReadElements(depth);
      ElementsSkip(z, s, depth);
    }

    method ReadElements(depth: nat) returns (r: Result<Json, Error>)
      requires Within()
      modifies this
      ensures Within() && i >= old(i)
      ensures var p := Elements(z, text[old(i)..], depth);
        Follows(r, if p.Got? then Got(Arr(p.value), p.rest) else Bad(p.error), text[i..])
      decreases |text| - i, 3
    {
      var out := INil;
      ghost var p := Elements(z, text[i..], depth);
      while true
        invariant Within() && i >= old(i)
        invariant p == AfterItems(out, Elements(z, text[i..], depth))
        decreases |text| - i
      {
        ElementsStep(z, text[i..], depth, out);
        var v := ReadValue(depth + 1);
        if v.Err? { return Err(v.error); }
        var between := Separator(CLOSE_ARRAY);
        if between == Neither { return Err(Comma); }
        out := AppendItem(out, v.value);
        if between == Closed { return Ok(Arr(out)); }
      }
    }

    method ReadKey(seen: set<Text>) returns (r: Result<Text, Error>)
      requires Within()
      modifies this
      ensures Within() && i >= old(i) && Follows(r, KeyOf(text[old(i)..], seen), text[i..])
      ensures r.Ok? ==> i > old(i)
    {
      var quote := StandsAt(QUOTE);
      if !quote { return Err(Key); }
      r := String();
      if r.Err? { return; }
      if r.value in seen { return Err(Duplicate); }
      var colon := Skip(COLON);
      if !colon { return Err(Colon); }
    }

    method ReadMember(depth: nat, seen: set<Text>) returns (r: Result<(Text, Json), Error>)
      requires Within()
      modifies this
      ensures Within() && i >= old(i) && Follows(r, Member(z, text[old(i)..], depth, seen), text[i..])
      ensures r.Ok? ==> i > old(i)
      decreases |text| - i, 0
    {
      var k := ReadKey(seen);
      if k.Err? { return Err(k.error); }
      var v := ReadValue(depth + 1);
      r := if v.Ok? then Ok((k.value, v.value)) else Err(v.error);
    }

    method ReadObject(depth: nat) returns (r: Result<Json, Error>)
      requires i < |text|
      modifies this
      ensures Within() && i > old(i) && Follows(r, Object(z, text[old(i) + 1..], depth), text[i..])
      decreases |text| - i, 1
    {
      i := i + 1;
      ghost var s := text[i..];
      var none := Skip(CLOSE_OBJECT);
      if none { return Ok(Obj(FNil)); }
      r := ReadMembers(depth);
      SpaceTwice(s);
    }

    method ReadMembers(depth: nat) returns (r: Result<Json, Error>)
      requires Within()
      modifies this
      ensures Within() && i >= old(i)
      ensures var p := Members(z, text[old(i)..], depth, {});
        Follows(r, if p.Got? then Got(Obj(p.value), p.rest) else Bad(p.error), text[i..])
      decreases |text| - i, 1
    {
      var out := FNil;
      var seen: set<Text> := {};
      ghost var p := Members(z, text[i..], depth, {});
      while true
        invariant Within() && i >= old(i)
        invariant p == AfterFields(out, Members(z, text[i..], depth, seen))
        decreases |text| - i
      {
        MembersStep(z, text[i..], depth, seen, out);
        var m := ReadMember(depth, seen);
        if m.Err? { return Err(m.error); }
        var between := Separator(CLOSE_OBJECT);
        if between == Neither { return Err(Comma); }
        out := AppendField(out, m.value.0, m.value.1);
        if between == Closed { return Ok(Obj(out)); }
        seen := seen + {m.value.0};
      }
    }
  }

  lemma {:induction false} SpaceTwice(s: Text)
    ensures SkipSpace(SkipSpace(s)) == SkipSpace(s)
    decreases |s|
  {
    if s != [] && IsSpace(s[0]) { SpaceTwice(s[1..]); }
  }

  lemma {:induction false} ElementsSkip(z: StrictRules, s: Text, depth: nat)
    ensures Elements(z, SkipSpace(s), depth) == Elements(z, s, depth)
  {
    SpaceTwice(s);
    assert Value(z, SkipSpace(s), depth + 1) == Value(z, s, depth + 1);
  }

  method StrictParse(text: Text, z: StrictRules) returns (r: Result<Json, Error>)
    ensures r == Parse(z, text)
  {
    var p := new Parser(text, z);
    assert text[0..] == text;
    var v := p.ReadValue(0);
    if v.Err? { return Err(v.error); }
    p.Space();
    if p.i != |text| { return Err(Trailing); }
    r := v;
  }
}
