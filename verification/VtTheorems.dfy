/** Bounds and cutting of terminal output. */
module VtTheorems {
  // Neither the parser nor the screen leaves its bounds, and how a stream is cut into writes does not show.

  import opened Common
  import opened Utf16
  import opened ScreenModel
  import opened ScreenSafety
  import opened VtModel
  import Splitting

  // ------------------------------------------------------------------ bounds

  predicate Bounded(v: Vt) {
    && |v.params| <= MAX_PARAMS && |v.intermediates| <= MAX_INTERMEDIATES && |v.osc| <= MAX_OSC
    && (v.printBuf != [] ==> v.mode == Ground)
  }

  predicate Clean(t: Text) { |t| <= MAX_TITLE && forall u :: u in t ==> !Unprintable(u) }

  predicate TitlesClean(s: Screen) { forall t :: t in s.titles ==> Clean(t) }

  lemma {:induction false} ControlNext(s: Screen, u: Unit)
    requires Inv(s)
    ensures Next(s, Control(s, u))
  {
    NextSelf(s);
    ControlsMove(s, 0, 0);
    LinesNext(s);
    SettingsNext(s, 0, 0, [], false, false);
  }

  lemma {:induction false} MotionNext(s: Screen, f: Unit, ps: seq<Param>)
    requires Inv(s)
    ensures Next(s, Motion(s, f, ps))
  {
    NextSelf(s);
    MotionsMove(s, Arg(ps, 0, 1));
    ControlsMove(s, Arg(ps, 0, 1), Arg(ps, 1, 1));
  }

  lemma {:induction false} EditingNext(s: Screen, f: Unit, ps: seq<Param>)
    requires Inv(s)
    ensures Next(s, Editing(s, f, ps))
  {
    NextSelf(s);
    DisplayNext(s, Arg(ps, 0, 0));
    RowOperations(s, Arg(ps, 0, 0));
    RowOperations(s, Arg(ps, 0, 1));
    LineOperations(s, Arg(ps, 0, 1));
    ScrollUpNext(s, Arg(ps, 0, 1));
  }

  lemma {:induction false} SettingNext(s: Screen, f: Unit, ps: seq<Param>, priv: bool)
    requires Inv(s) && (f == 0x75 ==> SavedFits(s))
    ensures Next(s, Setting(s, f, ps, priv))
  {
    NextSelf(s);
    SettingsNext(s, Arg(ps, 0, 1), Arg(ps, 1, s.rows), Zeroed(ps), priv, true);
    SettingsNext(s, 0, 0, Given(ps), priv, true);
    SettingsNext(s, 0, 0, Given(ps), priv, false);
    if f == 0x75 { RestoreNext(s); }
  }

  lemma {:induction false} DispatchNext(s: Screen, f: Unit, params: Text)
    requires Inv(s) && (f == 0x75 ==> SavedFits(s))
    ensures Next(s, Dispatch(s, f, params))
  {
    MotionNext(s, f, Params(params));
    EditingNext(s, f, Params(params));
    SettingNext(s, f, Params(params), Private(params));
  }

  lemma {:induction false} ShortNext(s: Screen, u: Unit)
    requires Inv(s) && (u == 0x38 ==> SavedFits(s))
    ensures Next(s, Short(s, u))
  {
    NextSelf(s);
    SettingsNext(s, 0, 0, [], false, false);
    if u == 0x38 { RestoreNext(s); }
    LinesNext(s);
    FeedNext(s);
    ResetNext(s);
  }

  lemma {:induction false} OscNext(v: Vt)
    requires Inv(v.term)
    ensures Next(v.term, DispatchOsc(v).term)
  {
    NextSelf(v.term);
    if TitleOf(v.osc).Some? { TitleNext(v.term, TitleOf(v.osc).value); }
  }

  lemma {:induction false} FlushNext(v: Vt)
    requires Inv(v.term)
    ensures Next(v.term, Flush(v).term)
  {
    PutAllNext(v.term, Characters(v.printBuf));
  }

  lemma {:induction false} GroundNext(v: Vt, u: Unit)
    requires Inv(v.term)
    ensures Next(v.term, InGround(v, u).term)
  {
    NextSelf(v.term);
    FlushNext(v);
    var w := Flush(v).term;
    ControlNext(w, u);
    NextTrans(v.term, w, Control(w, u));
  }

  /** The unit ends a sequence that restores the cursor. */
  predicate Restores(v: Vt, u: Unit) {
    || (v.mode == Csi && u == 0x75)
    || ((v.mode == Esc || v.mode == OscEsc || v.mode == DcsEsc) && u == 0x38)
  }

  /** The cursor is never restored to a place that a smaller screen has left outside. */
  predicate NeverOutside(v: Vt, data: Text)
    decreases |data|
  {
    data == [] || ((Restores(v, data[0]) ==> SavedFits(v.term)) && NeverOutside(Accept(v, data[0]), data[1..]))
  }

  lemma {:induction false} EscNext(v: Vt, u: Unit)
    requires Inv(v.term) && (u == 0x38 ==> SavedFits(v.term))
    ensures Next(v.term, InEsc(v, u).term)
  {
    hide Next, Inv, SavedFits, Short;
    NextSelf(v.term);
    ShortNext(v.term, u);
  }

  lemma {:induction false} CsiNext(v: Vt, u: Unit)
    requires Inv(v.term) && (u == 0x75 ==> SavedFits(v.term))
    ensures Next(v.term, InCsi(v, u).term)
  {
    hide Next, Inv, SavedFits, Control, Dispatch;
    NextSelf(v.term);
    ControlNext(v.term, u);
    DispatchNext(v.term, u, v.params);
  }

  lemma {:induction false} QuietNext(v: Vt, u: Unit)
    requires Inv(v.term)
    ensures Next(v.term, InOsc(v, u).term) && Next(v.term, InDcs(v, u).term) && Next(v.term, Ignoring(v, u).term)
  {
    hide Next, Inv, DispatchOsc;
    NextSelf(v.term);
    OscNext(v);
  }

  lemma {:induction false} StringNext(v: Vt, u: Unit)
    requires Inv(v.term) && (u == 0x38 ==> SavedFits(v.term))
    ensures Next(v.term, StringEsc(v, u).term)
  {
    hide Next, Inv, SavedFits, InEsc, DispatchOsc;
    NextSelf(v.term);
    OscNext(v);
    EscNext(v.(osc := [], overflow := false, mode := Esc, intermediates := []), u);
  }

  lemma {:induction false} AcceptNext(v: Vt, u: Unit)
    requires Inv(v.term) && (Restores(v, u) ==> SavedFits(v.term))
    ensures Next(v.term, Accept(v, u).term)
  {
    hide Next, Inv, SavedFits, InEsc, InCsi, StringEsc, InOsc, InDcs, Ignoring, InGround;
    match v.mode
    case Ground => GroundNext(v, u);
    case Esc => EscNext(v, u);
    case Csi => CsiNext(v, u);
    case OscEsc => StringNext(v, u);
    case DcsEsc => StringNext(v, u);
    case _ => QuietNext(v, u);
  }

  /**
   * No stream of units takes the screen out of bounds, and every row it changes is marked for painting, so long as the
   * cursor is not restored to a place that an earlier resize left outside.
   */
  lemma {:induction false} StreamNext(v: Vt, data: Text)
    requires Inv(v.term) && NeverOutside(v, data)
    ensures Next(v.term, Feed(v, data).term)
    decreases |data|
  {
    hide Inv, SavedFits, Next, Accept, Restores;
    if data == [] {
      NextSelf(v.term);
    } else {
      AcceptNext(v, data[0]);
      NextInv(v.term, Accept(v, data[0]).term);
      StreamNext(Accept(v, data[0]), data[1..]);
      NextTrans(v.term, Accept(v, data[0]).term, Feed(v, data).term);
    }
  }

  /** With a saved cursor on the screen, or none, that is no restriction: every stream keeps the bounds. */
  lemma {:induction false} FeedKeeps(v: Vt, data: Text)
    requires Good(v.term)
    ensures NeverOutside(v, data) && Next(v.term, Feed(v, data).term) && Good(Feed(v, data).term)
  {
    StaysInside(v, data);
    StreamNext(v, data);
  }

  lemma {:induction false} StaysInside(v: Vt, data: Text)
    requires Inv(v.term) && SavedFits(v.term)
    ensures NeverOutside(v, data)
    decreases |data|
  {
    hide Inv, SavedFits, Next, Accept;
    if data != [] {
      AcceptNext(v, data[0]);
      NextInv(v.term, Accept(v, data[0]).term);
      StaysInside(Accept(v, data[0]), data[1..]);
    }
  }

  /** A new save puts an end to the restriction, wherever the old one was. */
  lemma {:induction false} SavedAgain(v: Vt, a: Text, b: Text)
    requires Inv(v.term) && NeverOutside(v, a) && SavedFits(Feed(v, a).term)
    ensures NeverOutside(v, a + b)
    decreases |a|
  {
    hide Inv, SavedFits, Next, Accept, Restores;
    if a == [] {
      assert a + b == b;
      StaysInside(v, b);
    } else {
      assert (a + b)[1..] == a[1..] + b;
      AcceptNext(v, a[0]);
      NextInv(v.term, Accept(v, a[0]).term);
      SavedAgain(Accept(v, a[0]), a[1..], b);
    }
  }

  lemma {:induction false} WriteKeeps(v: Vt, data: Text)
    requires Inv(v.term) && NeverOutside(v, data)
    ensures Next(v.term, Write(v, data).term)
  {
    StreamNext(v, data);
    FlushNext(Feed(v, data));
    NextTrans(v.term, Feed(v, data).term, Write(v, data).term);
  }

  // ------------------------------------------------------------------ the parser's own bounds

  lemma {:induction false} AcceptBounded(v: Vt, u: Unit)
    requires Bounded(v)
    ensures Bounded(Accept(v, u))
  {
    hide PrintText, Control, Dispatch, Short, TitleOf, Title;
  }

  /**
   * Whatever arrives, what the parser retains is bounded, and only in its ground state is anything yet to be printed.
   */
  lemma {:induction false} FeedBounded(v: Vt, data: Text)
    requires Bounded(v)
    ensures Bounded(Feed(v, data))
    decreases |data|
  {
    if data != [] {
      AcceptBounded(v, data[0]);
      FeedBounded(Accept(v, data[0]), data[1..]);
    }
  }

  lemma {:induction false} FeedAppend(v: Vt, a: Text, b: Text)
    ensures Feed(v, a + b) == Feed(Feed(v, a), b)
    decreases |a|
  {
    if a == [] {
      assert a + b == b;
    } else {
      assert (a + b)[1..] == a[1..] + b;
      FeedAppend(Accept(v, a[0]), a[1..], b);
    }
  }

  // ------------------------------------------------------------------ titles

  lemma {:induction false} TitleIsClean(osc: Text)
    requires TitleOf(osc).Some?
    ensures Clean(TitleOf(osc).value)
  {
    var t := Printable(osc[Splitting.Index(osc, SEMICOLON) + 1..]);
    if |t| > MAX_TITLE { assert forall u :: u in t[..MAX_TITLE] ==> u in t; }
  }

  lemma {:induction false} PrintQuiet(s: Screen, chars: seq<Text>)
    ensures PutAll(s, chars).titles == s.titles
    decreases |chars|
  {
    if chars != [] { PrintQuiet(Put(s, chars[0]), chars[1..]); }
  }

  lemma {:induction false} MotionQuiet(s: Screen, f: Unit, ps: seq<Param>)
    ensures Motion(s, f, ps).titles == s.titles
  {}

  lemma {:induction false} EditingQuiet(s: Screen, f: Unit, ps: seq<Param>)
    ensures Editing(s, f, ps).titles == s.titles
  {
    hide Up, Down, Over, Fill, Retain, Total;
  }

  lemma {:induction false} SettingQuiet(s: Screen, f: Unit, ps: seq<Param>, priv: bool)
    ensures Setting(s, f, ps, priv).titles == s.titles
  {
    hide Painted;
  }

  lemma {:induction false} DispatchQuiet(s: Screen, f: Unit, params: Text)
    ensures Dispatch(s, f, params).titles == s.titles
  {
    hide Params, Motion, Editing, Setting;
    var ps := Params(params);
    MotionQuiet(s, f, ps);
    EditingQuiet(s, f, ps);
    SettingQuiet(s, f, ps, Private(params));
  }

  lemma {:induction false} OthersQuiet(s: Screen, u: Unit)
    ensures Control(s, u).titles == s.titles && Short(s, u).titles == s.titles
  {}

  lemma {:induction false} OscClean(v: Vt)
    requires TitlesClean(v.term)
    ensures TitlesClean(DispatchOsc(v).term)
  {
    if TitleOf(v.osc).Some? { TitleIsClean(v.osc); }
  }

  lemma {:induction false} AcceptClean(v: Vt, u: Unit)
    requires TitlesClean(v.term)
    ensures TitlesClean(Accept(v, u).term)
  {
    hide Control, Dispatch, Short, DispatchOsc, PutAll, Characters;
    PrintQuiet(v.term, Characters(v.printBuf));
    OthersQuiet(v.term, u);
    OthersQuiet(Flush(v).term, u);
    DispatchQuiet(v.term, u, v.params);
    OscClean(v);
  }

  /** Every title handed on is short and has no control character, whatever the stream. */
  lemma {:induction false} WriteClean(v: Vt, data: Text)
    requires TitlesClean(v.term)
    ensures TitlesClean(Write(v, data).term)
    decreases |data|
  {
    if data == [] {
      PrintQuiet(v.term, Characters(v.printBuf));
    } else {
      AcceptClean(v, data[0]);
      WriteClean(Accept(v, data[0]), data[1..]);
    }
  }

  // ------------------------------------------------------------------ cutting the stream

  function First(s: Text): nat { if Paired(s) then 2 else 1 }

  lemma {:induction false} FirstSame(a: Text, b: Text)
    requires a != [] && !Joins(a, b)
    ensures First(a + b) == First(a) <= |a|
    ensures (a + b)[..First(a)] == a[..First(a)] && (a + b)[First(a)..] == a[First(a)..] + b
  {
    assert (a + b)[0] == a[0];
    if |a| >= 2 {
      assert (a + b)[1] == a[1];
    } else {
      assert a[0] == a[|a| - 1] && (b != [] ==> (a + b)[1] == b[0]);
    }
  }

  lemma {:induction false} FirstCharacter(s: Text)
    requires s != []
    ensures First(s) <= |s| && Characters(s) == [s[..First(s)]] + Characters(s[First(s)..])
  {}

  lemma {:induction false} CharactersAppend(a: Text, b: Text)
    requires !Joins(a, b)
    ensures Characters(a + b) == Characters(a) + Characters(b)
    decreases |a|
  {
    if a == [] {
      assert a + b == b && Characters(a) == [];
    } else {
      hide Characters, First;
      FirstSame(a, b);
      FirstCharacter(a);
      FirstCharacter(a + b);
      CharactersAppend(a[First(a)..], b);
    }
  }

  lemma {:induction false} PutAllAppend(s: Screen, a: seq<Text>, b: seq<Text>)
    ensures PutAll(s, a + b) == PutAll(PutAll(s, a), b)
    decreases |a|
  {
    hide Put;
    if a == [] {
      assert a + b == b;
    } else {
      assert (a + b)[1..] == a[1..] + b;
      PutAllAppend(Put(s, a[0]), a[1..], b);
    }
  }

  lemma {:induction false} PrintAppend(s: Screen, x: Text, y: Text)
    requires !Joins(x, y)
    ensures PrintText(s, x + y) == PrintText(PrintText(s, x), y)
  {
    CharactersAppend(x, y);
    PutAllAppend(s, Characters(x), Characters(y));
  }

  /** The first unit that is not ignored is the second half of a pair. */
  predicate StartsLow(data: Text) { data != [] && (Low(data[0]) || (data[0] == DEL && StartsLow(data[1..]))) }

  predicate EndsHigh(x: Text) { x != [] && High(x[|x| - 1]) }

  /** `w` is `v` with the first part `x` of what it collected printed already. */
  predicate Ahead(v: Vt, w: Vt, x: Text) {
    && v.printBuf == x + w.printBuf && (x != [] ==> v.mode == Ground) && !Joins(x, w.printBuf)
    && w == v.(term := PrintText(v.term, x), printBuf := w.printBuf)
  }

  lemma {:induction false} AheadFlush(v: Vt, w: Vt, x: Text)
    requires Ahead(v, w, x)
    ensures Flush(v) == Flush(w)
  {
    hide PrintText;
    PrintAppend(v.term, x, w.printBuf);
  }

  lemma {:induction false} AheadAll(v: Vt, w: Vt, x: Text, data: Text)
    requires Ahead(v, w, x)
    requires w.printBuf == [] && EndsHigh(x) ==> !StartsLow(data)
    ensures Flush(Feed(v, data)) == Flush(Feed(w, data))
    decreases |data|
  {
    hide PrintText, Control, Flush;
    AheadFlush(v, w, x);
    if x == [] {
      NothingAhead(v, w);
    } else if data != [] {
      var u := data[0];
      if u == DEL {
        AheadAll(v, w, x, data[1..]);
      } else if u >= 0x20 && u != CSI8 {
        var v1, w1 := v.(printBuf := v.printBuf + [u]), w.(printBuf := w.printBuf + [u]);
        assert v.printBuf + [u] == x + (w.printBuf + [u]);
        AheadAll(v1, w1, x, data[1..]);
      } else {
        assert Accept(v, u) == Accept(w, u);
      }
    }
  }

  lemma {:induction false} NothingAhead(v: Vt, w: Vt)
    requires Ahead(v, w, [])
    ensures v == w
  {
    assert [] + w.printBuf == w.printBuf;
  }

  /** What is collected after `a` ends with the first half of a pair, and the second half comes first in `b`. */
  predicate Torn(v: Vt, a: Text, b: Text) { EndsHigh(Feed(v, a).printBuf) && StartsLow(b) }

  /** Writing a stream in two parts is writing it at once, unless the cut is in the middle of a printed character. */
  lemma {:induction false} CuttingIsInvisible(v: Vt, a: Text, b: Text)
    requires Bounded(v) && !Torn(v, a, b)
    ensures Write(Write(v, a), b) == Write(v, a + b)
  {
    hide Flush;
    var p := Feed(v, a);
    FeedBounded(v, a);
    FeedAppend(v, a, b);
    FlushAhead(p);
    AheadAll(p, Flush(p), p.printBuf, b);
  }

  lemma {:induction false} FlushAhead(p: Vt)
    requires Bounded(p)
    ensures Ahead(p, Flush(p), p.printBuf) && Flush(p).printBuf == []
  {
    hide PrintText;
    assert p.printBuf + [] == p.printBuf;
  }

  lemma {:induction false} LastPrinted(s: Screen, chars: seq<Text>, ch: Text)
    requires Inv(s)
    ensures var t := PutAll(s, chars + [ch]);
      t.cursor.y < |t.grid| && Shown(t) < |t.grid[t.cursor.y]| && t.grid[t.cursor.y][Shown(t)].ch == ch
  {
    hide Put, Inv, Next;
    PutAllAppend(s, chars, [ch]);
    assert [ch][1..] == [];
    PutAllNext(s, chars);
    NextInv(s, PutAll(s, chars));
    PutShows(PutAll(s, chars), ch);
  }

  lemma {:induction false} OneCharacter(u: Unit)
    ensures Characters([u]) == [[u]] && (StartsLow([u]) <==> Low(u))
  {
    assert [u][1..] == [] && [u][..1] == [u];
  }

  lemma {:induction false} FeedOne(v: Vt, u: Unit)
    ensures Feed(v, [u]) == Accept(v, u)
  {
    hide Accept;
    assert [u][1..] == [];
  }

  /** The two halves of a character in two writes are two cells; in one write they are one. */
  lemma {:induction false} TornShows(s: Screen, x: Text, u: Unit)
    requires Inv(s) && EndsHigh(x) && Low(u)
    ensures PrintText(PrintText(s, x), [u]) != PrintText(s, x + [u])
  {
    hide PutAll, Inv;
    var q, h := x[..|x| - 1], x[|x| - 1];
    var last := [h, u];
    assert x == q + [h] && x + [u] == q + last && last[2..] == [] && last[..2] == last;
    CharactersAppend(q, [h]);
    CharactersAppend(q, last);
    OneCharacter(h);
    OneCharacter(u);
    assert Characters(last) == [last] by { assert Characters([]) == []; }
    assert Characters(x) == Characters(q) + [[h]] && Characters(x + [u]) == Characters(q) + [[h, u]];
    TornCells(s, Characters(q), h, u);
  }

  lemma {:induction false} TornCells(s: Screen, base: seq<Text>, h: Unit, u: Unit)
    requires Inv(s)
    ensures PutAll(PutAll(s, base + [[h]]), [[u]]) != PutAll(s, base + [[h, u]])
  {
    hide Put, PutAll, Inv;
    PutAllAppend(s, base + [[h]], [[u]]);
    LastPrinted(s, base + [[h]], [u]);
    LastPrinted(s, base, [h, u]);
    assert |[u]| != |[h, u]|;
  }

  /** Cut before its last unit, a stream shows the same exactly when that unit is not the other half of a character. */
  lemma {:induction false} CuttingIff(v: Vt, a: Text, u: Unit)
    requires Bounded(v) && Inv(v.term) && NeverOutside(v, a)
    ensures Write(Write(v, a), [u]) == Write(v, a + [u]) <==> !Torn(v, a, [u])
  {
    hide Flush, PrintText, Inv, Next;
    if Torn(v, a, [u]) {
      var p := Feed(v, a);
      FeedBounded(v, a);
      StreamNext(v, a);
      NextInv(v.term, p.term);
      FeedAppend(v, a, [u]);
      OneCharacter(u);
      TornWrites(p, u);
    } else {
      CuttingIsInvisible(v, a, [u]);
    }
  }

  lemma {:induction false} TornWrites(p: Vt, u: Unit)
    requires Bounded(p) && Inv(p.term) && EndsHigh(p.printBuf) && Low(u)
    ensures Flush(Feed(Flush(p), [u])) != Flush(Feed(p, [u]))
  {
    hide PrintText, Inv;
    FeedOne(p, u);
    FeedOne(Flush(p), u);
    assert Flush(p).printBuf + [u] == [u];
    TornShows(p.term, p.printBuf, u);
  }

  function Joined(chunks: seq<Text>): Text { if chunks == [] then [] else chunks[0] + Joined(chunks[1..]) }

  /** Every write but for ignored units begins with a whole character. */
  predicate WholeCharacters(chunks: seq<Text>) { forall c :: c in chunks ==> !StartsLow(c) }

  lemma {:induction false} StartsAppend(a: Text, b: Text)
    requires !StartsLow(a) && !StartsLow(b)
    ensures !StartsLow(a + b)
    decreases |a|
  {
    if a == [] {
      assert a + b == b;
    } else if a[0] == DEL {
      assert (a + b)[1..] == a[1..] + b;
      StartsAppend(a[1..], b);
    }
  }

  lemma {:induction false} StartsJoined(chunks: seq<Text>)
    requires WholeCharacters(chunks)
    ensures !StartsLow(Joined(chunks))
    decreases |chunks|
  {
    if chunks != [] {
      assert chunks[0] in chunks && forall c :: c in chunks[1..] ==> c in chunks;
      StartsJoined(chunks[1..]);
      StartsAppend(chunks[0], Joined(chunks[1..]));
    }
  }

  /** However a stream is cut between its characters, the parser and the screen end the same. */
  lemma {:induction false} AnyCuttingIsInvisible(v: Vt, chunks: seq<Text>)
    requires Bounded(v) && v.printBuf == [] && WholeCharacters(chunks)
    ensures WriteAll(v, chunks) == Write(v, Joined(chunks))
    decreases |chunks|
  {
    if chunks != [] {
      var w, rest := Write(v, chunks[0]), chunks[1..];
      assert forall c :: c in rest ==> c in chunks;
      FeedBounded(v, chunks[0]);
      StartsJoined(rest);
      AnyCuttingIsInvisible(w, rest);
      CuttingIsInvisible(v, chunks[0], Joined(rest));
    }
  }
}
