/** What each control sequence of the terminal does to the screen. */
module VtMeaning {
  // runtime/hermit/src/renderer/vt/parser.js and screen.js together: from the characters a program sends to the fields
  // of the screen. `Flush(v).term` is the screen with what was collected before the sequence printed on it.

  import opened Common
  import opened Utf16
  import opened Numerals
  import opened ScreenModel
  import opened ScreenMeaning
  import opened VtModel
  import opened VtTheorems
  import opened VtSequences
  import ScreenSafety
  import Splitting

  predicate FinalChar(f: char) { 0x40 <= f as int <= 0x7E }

  /** `ESC [ n ; … f` */
  function Escape(ns: seq<nat>, f: char): Text
    requires ns != [] && FinalChar(f)
  {
    Sequence(ns, f as int)
  }

  /** Between characters, with a screen in bounds. */
  predicate Ready(v: Vt) { v.mode == Ground && ScreenSafety.Inv(Flush(v).term) }

  /** The screen after a sequence of one number. */
  function After(v: Vt, n: nat, f: char): Screen
    requires FinalChar(f)
  {
    Feed(v, Escape([n], f)).term
  }

  lemma {:induction false} AfterOne(v: Vt, n: nat, f: char)
    requires v.mode == Ground && n <= MAX_PARAM_VALUE && FinalChar(f)
    ensures After(v, n, f) == Operation(Flush(v).term, [Number(n)], f as int)
    ensures Feed(v, Escape([n], f)).mode == Ground && Feed(v, Escape([n], f)).printBuf == []
  {
    ShortNumber(n);
    assert List([n]) == NatText(n);
    SequenceDecoded(v, [n], f as int);
    assert Numbers([n]) == [Number(n)];
    hide Operation, NatText;
  }

  lemma {:induction false} AfterTwo(v: Vt, n: nat, m: nat, f: char)
    requires v.mode == Ground && n <= MAX_PARAM_VALUE && m <= MAX_PARAM_VALUE && FinalChar(f)
    ensures Feed(v, Escape([n, m], f)).term == Operation(Flush(v).term, [Number(n), Number(m)], f as int)
  {
    hide Operation, NatText;
    ShortNumber(n);
    ShortNumber(m);
    assert [n, m][1..] == [m];
    assert |List([n, m])| == |NatText(n)| + 1 + |NatText(m)|;
    SequenceDecoded(v, [n, m], f as int);
    assert Numbers([n, m]) == [Number(n), Number(m)];
  }

  // ------------------------------------------------------------------ motion

  lemma {:induction false} MotionNamed(s: Screen, n: nat)
    ensures var ps := [Number(n)];
      && Operation(s, ps, 0x41) == CursorUp(s, n) && Operation(s, ps, 0x42) == CursorDown(s, n)
      && Operation(s, ps, 0x43) == CursorForward(s, n) && Operation(s, ps, 0x44) == CursorBack(s, n)
      && Operation(s, ps, 0x45) == CursorNextLine(s, n) && Operation(s, ps, 0x46) == CursorPrevLine(s, n)
      && Operation(s, ps, 0x47) == CursorCol(s, n) && Operation(s, ps, 0x60) == CursorCol(s, n)
      && Operation(s, ps, 0x64) == CursorLine(s, n)
      && Operation(s, ps, 0x48) == CursorPos(s, n, 1) && Operation(s, ps, 0x66) == CursorPos(s, n, 1)
  {}

  /** Up and down stop at the region, the others at the screen; a count of zero is one; nothing but the cursor moves. */
  lemma {:induction false} MotionMeans(v: Vt, n: nat)
    requires Ready(v) && n <= MAX_PARAM_VALUE
    ensures var s := Flush(v).term; var x, y, p := s.cursor.x, s.cursor.y, Steps(n);
      && WentTo(s, After(v, n, 'A'), x, Higher(s.top, y - p))
      && WentTo(s, After(v, n, 'B'), x, Lower(s.bottom, y + p))
      && WentTo(s, After(v, n, 'C'), Lower(s.cols - 1, x + p), y)
      && WentTo(s, After(v, n, 'D'), Higher(0, x - p), y)
      && WentTo(s, After(v, n, 'E'), 0, Lower(s.bottom, y + p))
      && WentTo(s, After(v, n, 'F'), 0, Higher(s.top, y - p))
      && WentTo(s, After(v, n, 'G'), Lower(s.cols - 1, p - 1), y)
      && WentTo(s, After(v, n, '`'), Lower(s.cols - 1, p - 1), y)
      && WentTo(s, After(v, n, 'd'), x, Lower(s.rows - 1, p - 1))
      && WentTo(s, After(v, n, 'H'), 0, Lower(s.rows - 1, p - 1))
      && WentTo(s, After(v, n, 'f'), 0, Lower(s.rows - 1, p - 1))
  {
    hide After, Operation, WentTo;
    MotionsMean(Flush(v).term, n, 1);
    MotionNamed(Flush(v).term, n);
    AfterOne(v, n, 'A');
    AfterOne(v, n, 'B');
    AfterOne(v, n, 'C');
    AfterOne(v, n, 'D');
    AfterOne(v, n, 'E');
    AfterOne(v, n, 'F');
    AfterOne(v, n, 'G');
    AfterOne(v, n, '`');
    AfterOne(v, n, 'd');
    AfterOne(v, n, 'H');
    AfterOne(v, n, 'f');
  }

  // ------------------------------------------------------------------ editing

  lemma {:induction false} EditingNamed(s: Screen, n: nat)
    ensures var ps := [Number(n)];
      && Operation(s, ps, 0x4A) == EraseInDisplay(s, n) && Operation(s, ps, 0x4B) == EraseInLine(s, n)
      && Operation(s, ps, 0x4C) == InsertLines(s, n) && Operation(s, ps, 0x4D) == DeleteLines(s, n)
      && Operation(s, ps, 0x40) == InsertChars(s, n) && Operation(s, ps, 0x50) == DeleteChars(s, n)
      && Operation(s, ps, 0x58) == EraseChars(s, n)
      && Operation(s, ps, 0x53) == ScrollUp(s, n) && Operation(s, ps, 0x54) == ScrollDown(s, n)
  {}

  lemma {:induction false} LineErased(v: Vt, n: nat)
    requires Ready(v) && n <= MAX_PARAM_VALUE
    ensures After(v, n, 'K') == EraseInLine(Flush(v).term, n)
  {
    hide After, Operation;
    EditingNamed(Flush(v).term, n);
    AfterOne(v, n, 'K');
  }

  /** Within the cursor's row: `K` blanks, `X` blanks a count, `@` makes room, `P` takes away; nothing else changes. */
  lemma {:induction false} RowMeans(v: Vt, n: nat)
    requires Ready(v) && n <= MAX_PARAM_VALUE
    ensures var s := Flush(v).term; var x, k := s.cursor.x, Taken(n, s.cols);
      && Blanked(s, After(v, 0, 'K'), x, s.cols)
      && Blanked(s, After(v, 1, 'K'), 0, x + 1)
      && (n >= 2 ==> Blanked(s, After(v, n, 'K'), 0, s.cols))
      && Blanked(s, After(v, n, 'X'), x, x + k)
      && PushedRight(s, After(v, n, '@'), k)
      && PulledLeft(s, After(v, n, 'P'), k)
  {
    hide After, Operation, Blanked, PushedRight, PulledLeft, EraseInLine, Flush;
    var s := Flush(v).term;
    ErasedMeans(s, n);
    ShiftedMeans(s, n);
    LineErased(v, 0);
    LineErased(v, 1);
    LineErased(v, n);
    EditingNamed(s, n);
    AfterOne(v, n, 'X');
    AfterOne(v, n, '@');
    AfterOne(v, n, 'P');
  }

  /** Across rows: `J` clears, `L` and `M` move the lines below the cursor within the region, `S` and `T` the region. */
  lemma {:induction false} RowsMean(v: Vt, n: nat)
    requires Ready(v) && n <= MAX_PARAM_VALUE
    ensures var s := Flush(v).term; var inside, k := s.top <= s.cursor.y <= s.bottom, Taken(n, s.rows);
      && Cleared(s, After(v, n, 'J'), n)
      && (!inside ==> After(v, n, 'L') == s && After(v, n, 'M') == s)
      && (inside ==> OnlyRows(s, After(v, n, 'L')) && RowsDown(s, After(v, n, 'L'), s.cursor.y, s.bottom, k))
      && (inside ==> OnlyRows(s, After(v, n, 'M')) && RowsUp(s, After(v, n, 'M'), s.cursor.y, s.bottom, k))
      && Scrolled(s, After(v, n, 'S'), k)
      && OnlyRows(s, After(v, n, 'T')) && RowsDown(s, After(v, n, 'T'), s.top, s.bottom, k)
  {
    hide After, Operation, Cleared, OnlyRows, RowsUp, RowsDown, Scrolled;
    var s := Flush(v).term;
    DisplayMeans(s, n);
    LinesMean(s, n);
    ScrollMeans(s, n);
    EditingNamed(s, n);
    AfterOne(v, n, 'J');
    AfterOne(v, n, 'L');
    AfterOne(v, n, 'M');
    AfterOne(v, n, 'S');
    AfterOne(v, n, 'T');
  }

  // ------------------------------------------------------------------ two numbers

  /** `H` and `f` with a row and a column; `r` sets the region, or nothing when it would not be one. */
  lemma {:induction false} PairMeans(v: Vt, n: nat, m: nat)
    requires Ready(v) && n <= MAX_PARAM_VALUE && m <= MAX_PARAM_VALUE
    ensures var s := Flush(v).term; var x, y := Lower(s.cols - 1, Steps(m) - 1), Lower(s.rows - 1, Steps(n) - 1);
      && WentTo(s, Feed(v, Escape([n, m], 'H')).term, x, y) && WentTo(s, Feed(v, Escape([n, m], 'f')).term, x, y)
      && RegionSet(s, Feed(v, Escape([n, m], 'r')).term, n, m)
      && RegionSet(s, After(v, n, 'r'), n, s.rows)
  {
    hide After, WentTo, RegionSet, Feed;
    var s := Flush(v).term;
    MotionsMean(s, n, m);
    RegionMeans(s, n, m);
    RegionMeans(s, n, s.rows);
    PairNamed(s, n, m);
    hide Operation;
    AfterTwo(v, n, m, 'H');
    AfterTwo(v, n, m, 'f');
    AfterTwo(v, n, m, 'r');
    AfterOne(v, n, 'r');
  }

  lemma {:induction false} PairNamed(s: Screen, n: nat, m: nat)
    ensures var ps := [Number(n), Number(m)];
      && Operation(s, ps, 0x48) == CursorPos(s, n, m) && Operation(s, ps, 0x66) == CursorPos(s, n, m)
      && Operation(s, ps, 0x72) == SetScrollRegion(s, n, m)
    ensures Operation(s, [Number(n)], 0x72) == SetScrollRegion(s, n, s.rows)
  {}

  // ------------------------------------------------------------------ no number

  /** A sequence without a number. */
  function Bare(f: char): Text
    requires FinalChar(f)
  {
    [ESC, 0x5B, f as int]
  }

  lemma {:induction false} BareDecoded(v: Vt, f: char)
    requires v.mode == Ground && FinalChar(f)
    ensures Feed(v, Bare(f)).term == Operation(Flush(v).term, [], f as int)
  {
    hide Dispatch, Flush, Motion, Editing, Setting, Control, Short;
    FeedTwo(v);
    assert Bare(f) == [ESC, 0x5B] + [f as int];
    FeedAppend(v, [ESC, 0x5B], [f as int]);
    FeedOne(Flush(v).(mode := Mode.Csi, params := [], intermediates := []), f as int);
    DispatchNothing(Flush(v).term, f as int);
  }

  lemma {:induction false} DispatchNothing(s: Screen, f: Unit)
    ensures Dispatch(s, f, []) == Operation(s, [], f)
  {
    hide Motion, Editing, Setting;
    assert Params([]) == [];
  }

  predicate CountsFromOne(f: char) {
    f in {'A', 'B', 'C', 'D', 'E', 'F', 'G', '`', 'd', 'L', 'M', '@', 'P', 'X', 'S', 'T'}
  }

  /** Without a number a count is one, an erasure goes from the cursor on, the cursor goes home, the region is all. */
  lemma {:induction false} DefaultsMean(v: Vt, f: char)
    requires Ready(v) && FinalChar(f)
    ensures CountsFromOne(f) ==> Feed(v, Bare(f)).term == After(v, 1, f)
    ensures f == 'J' || f == 'K' || f == 'm' ==> Feed(v, Bare(f)).term == After(v, 0, f)
    ensures f == 'H' || f == 'f' || f == 'r' ==>
      Feed(v, Bare(f)).term == Feed(v, Escape([1, if f == 'r' then Flush(v).term.rows else 1], f)).term
  {
    var s := Flush(v).term;
    hide After, Feed, Flush;
    BareDecoded(v, f);
    AfterOne(v, 1, f);
    AfterOne(v, 0, f);
    AfterTwo(v, 1, 1, f);
    AfterTwo(v, 1, s.rows, f);
    NothingNamed(s, f);
    hide Operation;
  }

  lemma {:induction false} NothingNamed(s: Screen, f: char)
    requires FinalChar(f)
    ensures CountsFromOne(f) ==> Operation(s, [], f as int) == Operation(s, [Number(1)], f as int)
    ensures f == 'J' || f == 'K' || f == 'm' ==> Operation(s, [], f as int) == Operation(s, [Number(0)], f as int)
    ensures f == 'H' || f == 'f' ==> Operation(s, [], f as int) == Operation(s, [Number(1), Number(1)], f as int)
    ensures f == 'r' ==> Operation(s, [], f as int) == Operation(s, [Number(1), Number(s.rows)], f as int)
  {
    assert Zeroed([]) == [] && Zeroed([Number(0)]) == [Number(0)];
  }

  // ------------------------------------------------------------------ short sequences

  /** `ESC` and one character. */
  lemma {:induction false} ShortDecoded(v: Vt, u: Unit)
    requires v.mode == Ground && u !in {0x5B, 0x5D, 0x50} && !Intermediate(u)
    ensures Feed(v, [ESC, u]).term == Short(Flush(v).term, u) && Feed(v, [ESC, u]).mode == Ground
  {
    hide Flush, Short;
    assert [ESC, u] == [ESC] + [u];
    FeedAppend(v, [ESC], [u]);
    FeedOne(v, ESC);
    FeedOne(Flush(v).(mode := Esc, intermediates := []), u);
  }

  /**
   * `7` and `8` keep and restore place and pen, `D`, `E` and `M` go a line down, to the next line and a line up, `H`
   * sets a tab stop, and `c` resets all but what was kept and what scrolled off.
   */
  lemma {:induction false} ShortMeans(v: Vt)
    requires Ready(v)
    ensures var s := Flush(v).term;
      && Feed(v, [ESC, '7' as int]).term == s.(saved := Some(Saved(s.cursor.x, s.cursor.y, s.pen)))
      && (s.saved.None? ==> Feed(v, [ESC, '8' as int]).term == s)
      && (s.saved.Some? ==>
            Feed(v, [ESC, '8' as int]).term ==
            s.(cursor := Cursor(s.saved.value.x, s.saved.value.y, s.cursor.visible), pen := s.saved.value.pen))
      && LineDown(s, Feed(v, [ESC, 'D' as int]).term)
      && LineDown(s.(cursor := Cursor(0, s.cursor.y, s.cursor.visible), wrapNext := false),
          Feed(v, [ESC, 'E' as int]).term)
      && LineUp(s, Feed(v, [ESC, 'M' as int]).term)
      && Feed(v, [ESC, 'H' as int]).term == s.(tabs := s.tabs + {s.cursor.x})
      && WasReset(s, Feed(v, [ESC, 'c' as int]).term)
  {
    var s := Flush(v).term;
    FeedsMean(s);
    var s1 := s.(cursor := Cursor(0, s.cursor.y, s.cursor.visible), wrapNext := false);
    assert ScreenSafety.Inv(s1);
    FeedsMean(s1);
    hide LineDown, LineUp;
    ShortDecoded(v, '7' as int);
    ShortDecoded(v, '8' as int);
    ShortDecoded(v, 'D' as int);
    ShortDecoded(v, 'E' as int);
    ShortDecoded(v, 'M' as int);
    ShortDecoded(v, 'H' as int);
    ShortDecoded(v, 'c' as int);
    hide Feed, Flush;
    ResetMeans(s);
  }

  /** An empty screen, the cursor visible at its beginning, no region, no style, a stop in every eighth column. */
  ghost predicate WasReset(s: Screen, t: Screen) {
    && s.rows >= 1
    && t == s.(grid := t.grid, dirty := t.dirty, tabs := t.tabs, cursor := Cursor(0, 0, true), pen := UNSTYLED,
        top := 0,
               bottom := s.rows - 1)
    && |t.grid| == s.rows && (forall y :: 0 <= y < s.rows ==> Empty(t.grid[y], s.cols))
    && (forall x: nat :: x in t.tabs <==> x < s.cols && x % 8 == 0)
  }

  lemma {:induction false} ResetMeans(s: Screen)
    requires ScreenSafety.Inv(s)
    ensures WasReset(s, Reset(s))
  {
    BlankIsEmpty(s.cols);
    forall y | 0 <= y < s.rows ensures Empty(Reset(s).grid[y], s.cols) {}
  }

  /** `s` and `u` are `7` and `8`, with a number or without; a final character with no meaning does nothing. */
  lemma {:induction false} OthersMean(v: Vt, n: nat, f: char, u: Unit)
    requires Ready(v) && n <= MAX_PARAM_VALUE && FinalChar(f)
    ensures After(v, n, 's') == Feed(v, Bare('s')).term == Feed(v, [ESC, '7' as int]).term
    ensures After(v, n, 'u') == Feed(v, Bare('u')).term == Feed(v, [ESC, '8' as int]).term
    ensures !HasMeaning(f) ==> After(v, n, f) == Flush(v).term && Feed(v, Bare(f)).term == Flush(v).term
    ensures 0x30 <= u && !MeansShort(u) ==> Feed(v, [ESC, u]).term == Flush(v).term
  {
    hide Feed, Flush, After;
    var s := Flush(v).term;
    AfterOne(v, n, 's');
    AfterOne(v, n, 'u');
    AfterOne(v, n, f);
    BareDecoded(v, 's');
    BareDecoded(v, 'u');
    BareDecoded(v, f);
    ShortDecoded(v, '7' as int);
    ShortDecoded(v, '8' as int);
    if 0x30 <= u && u !in {0x5B, 0x5D, 0x50} { ShortDecoded(v, u); }
    OthersNamed(s, n, f, u);
    hide Operation, Short;
  }

  /** A short sequence, or the beginning of a long one. */
  predicate MeansShort(u: Unit) {
    u == '7' as int || u == '8' as int || u == 'D' as int || u == 'E' as int || u == 'M' as int || u == 'H' as int
    || u == 'c' as int || u == '[' as int || u == ']' as int || u == 'P' as int
  }

  predicate HasMeaning(f: char) {
    CountsFromOne(f) || f in {'H', 'f', 'J', 'K', 'r', 'm', 'h', 'l', 's', 'u'}
  }

  lemma {:induction false} OthersNamed(s: Screen, n: nat, f: char, u: Unit)
    requires FinalChar(f)
    ensures Operation(s, [Number(n)], 's' as int) == Operation(s, [], 's' as int) == Short(s, '7' as int)
    ensures Operation(s, [Number(n)], 'u' as int) == Operation(s, [], 'u' as int) == Short(s, '8' as int)
    ensures !HasMeaning(f) ==> Operation(s, [Number(n)], f as int) == s && Operation(s, [], f as int) == s
    ensures 0x30 <= u && u !in {0x37, 0x38, 0x44, 0x45, 0x4D, 0x48, 0x63} ==> Short(s, u) == s
  {
    if !HasMeaning(f) { NoMeaning(f); }
  }

  lemma {:induction false} NoMeaning(f: char)
    requires FinalChar(f) && !HasMeaning(f)
    ensures !IsMotion(f as int) && !IsEditing(f as int) && f as int !in {0x72, 0x6D, 0x68, 0x6C, 0x73, 0x75}
  {
    assert f as int as char == f;
  }

  // ------------------------------------------------------------------ control characters

  /** The bell, a step back, the next stop, a line down, and the beginning of the line. */
  lemma {:induction false} ControlsMean(v: Vt, u: Unit)
    requires Ready(v) && u < 0x20 && u != ESC
    ensures var s, t := Flush(v).term, Feed(v, [u]).term;
      && (u == 0x07 ==> t == s.(bells := s.bells + 1))
      && (u == 0x08 ==> WentTo(s, t, Higher(0, s.cursor.x - 1), s.cursor.y))
      && (u == 0x09 ==> TabbedTo(s, t))
      && (u == 0x0A || u == 0x0B || u == 0x0C ==> exists w :: LineDown(s, w) && t == w.(wrapNext := false))
      && (u == 0x0D ==> WentTo(s, t, 0, s.cursor.y))
      && (u !in {0x07, 0x08, 0x09, 0x0A, 0x0B, 0x0C, 0x0D} ==> t == s)
  {
    hide Flush, Stop, LineDown;
    var s := Flush(v).term;
    FeedOne(v, u);
    FeedsMean(s);
    ScreenSafety.StopFits(s.tabs, s.cols, s.cursor.x + 1);
    assert LineDown(s, LineFeedScroll(s));
  }

  /** The first stop behind the cursor, or the last column if there is none. */
  ghost predicate TabbedTo(s: Screen, t: Screen) {
    && WentTo(s, t, t.cursor.x, s.cursor.y) && t.cursor.x < s.cols
    && (t.cursor.x in s.tabs || t.cursor.x == s.cols - 1)
    && (s.cursor.x + 1 < s.cols ==> s.cursor.x < t.cursor.x)
    && forall z :: s.cursor.x < z < t.cursor.x ==> z !in s.tabs
  }

  // ------------------------------------------------------------------ a printed character

  /** A character that is printed as it is: no control, no half of a pair. */
  predicate Plain(u: Unit) { u >= 0x20 && u != DEL && u != CSI8 && !High(u) && !Low(u) }

  /** The cell at the cursor has the character in the pen, and the cursor is behind it or waits at the edge. */
  ghost predicate Drawn(s: Screen, t: Screen, u: Unit) {
    && s.cursor.y < s.rows == |s.grid| == |t.grid|
    && t == s.(grid := t.grid, dirty := t.dirty,
               cursor := if s.cursor.x + 1 < s.cols then Cursor(s.cursor.x + 1, s.cursor.y, s.cursor.visible)
                   else s.cursor,
               wrapNext := s.cursor.x + 1 >= s.cols || s.wrapNext)
    && (forall y :: 0 <= y < s.rows && y != s.cursor.y ==> t.grid[y] == s.grid[y])
    && |t.grid[s.cursor.y]| == s.cols == |s.grid[s.cursor.y]|
    && forall x :: 0 <= x < s.cols ==>
         t.grid[s.cursor.y][x] == if x == s.cursor.x then Cell([u], s.pen) else s.grid[s.cursor.y][x]
  }

  /**
   * A character that is written is drawn where the cursor is; in a full line it is drawn at the beginning of the
   * next.
   */
  lemma {:induction false} PrintMeans(v: Vt, u: Unit)
    requires Ready(v) && v.printBuf == [] && Plain(u)
    ensures var s, t := v.term, Write(v, [u]).term;
      && (!s.wrapNext ==> Drawn(s, t, u))
      && (s.wrapNext ==>
            exists w :: LineDown(s.(cursor := Cursor(0, s.cursor.y, s.cursor.visible)), w)
              && Drawn(w.(wrapNext := false), t, u))
  {
    NothingCollected(v);
    WritePuts(v, u);
    hide PutAll, Put, Drawn, LineDown, Feed, Write, Characters, Flush;
    if v.term.wrapNext { PutOnNext(v.term, u); } else { PutDraws(v.term, u); }
  }

  lemma {:induction false} NothingCollected(v: Vt)
    requires v.printBuf == []
    ensures Flush(v) == v
  {
    assert Characters([]) == [];
  }

  lemma {:induction false} WritePuts(v: Vt, u: Unit)
    requires v.mode == Ground && v.printBuf == [] && Plain(u)
    ensures Write(v, [u]).term == Put(v.term, [u])
  {
    hide Put, Flush;
    FeedOne(v, u);
    assert [] + [u] == [u];
    assert Accept(v, u) == v.(printBuf := [u]);
    OneCharacter(v.term, u);
    assert Flush(v.(printBuf := [u])).term == PrintText(v.term, [u]) by { FlushPrints(v.(printBuf := [u])); }
  }

  lemma {:induction false} FlushPrints(v: Vt)
    ensures Flush(v).term == PrintText(v.term, v.printBuf)
  {}

  lemma {:induction false} OneCharacter(s: Screen, u: Unit)
    ensures PrintText(s, [u]) == Put(s, [u])
  {
    hide Put;
    assert [u][1..] == [] && [u][..1] == [u];
    assert Characters([]) == [] && Characters([u]) == [[u]] + Characters([]);
    assert Characters([u]) == [[u]] && [[u]][1..] == [];
    assert PutAll(s, [[u]]) == PutAll(Put(s, [u]), []);
  }

  lemma {:induction false} PutDraws(s: Screen, u: Unit)
    requires ScreenSafety.Inv(s) && !s.wrapNext
    ensures Drawn(s, Put(s, [u]), u)
  {
    var row := CursorRow(s)[s.cursor.x := Cell([u], s.pen)];
    RowReplaced(s, row);
    assert Put(s, [u]) == Advance(WithRow(s, row));
  }

  lemma {:induction false} PutOnNext(s: Screen, u: Unit)
    requires ScreenSafety.Inv(s) && s.wrapNext
    ensures exists w :: LineDown(s.(cursor := Cursor(0, s.cursor.y, s.cursor.visible)), w)
              && Drawn(w.(wrapNext := false), Put(s, [u]), u)
  {
    var s1 := s.(cursor := Cursor(0, s.cursor.y, s.cursor.visible));
    assert ScreenSafety.Inv(s1);
    FeedsMean(s1);
    var w := LineFeedScroll(s1);
    ScreenSafety.FeedNext(s1);
    assert Wrapped(s) == w.(wrapNext := false) && Wrapped(w.(wrapNext := false)) == w.(wrapNext := false);
    assert ScreenSafety.Inv(w.(wrapNext := false));
    PutDraws(w.(wrapNext := false), u);
    hide LineDown, Drawn, LineFeedScroll, Wrapped;
    assert Put(s, [u]) == Put(w.(wrapNext := false), [u]);
  }

  // ------------------------------------------------------------------ the pen

  lemma {:induction false} AfterMany(v: Vt, ns: seq<nat>, f: char)
    requires v.mode == Ground && Writable(ns) && FinalChar(f)
    ensures Feed(v, Escape(ns, f)).term == Operation(Flush(v).term, Numbers(ns), f as int)
    ensures Feed(v, Escape(ns, f)).mode == Ground && Feed(v, Escape(ns, f)).printBuf == []
  {
    hide Operation, List;
    SequenceDecoded(v, ns, f as int);
  }

  /** Numbers that fit in one sequence. */
  predicate Writable(ns: seq<nat>) {
    0 < |ns| <= 32 && |List(ns)| <= MAX_PARAMS && forall n :: n in ns ==> n <= MAX_PARAM_VALUE
  }

  /** What one number of `m` makes of the pen, style by style. */
  predicate Styled(p: Pen, n: nat, q: Pen) {
    if n == 0 then q == UNSTYLED
    else
      && q.bold == (n == 1 || (p.bold && n != 22)) && q.dim == (n == 2 || (p.dim && n != 22))
      && q.italic == (n == 3 || (p.italic && n != 23)) && q.underline == (n == 4 || (p.underline && n != 24))
      && q.inverse == (n == 7 || (p.inverse && n != 27)) && q.hidden == (n == 8 || (p.hidden && n != 28))
      && q.strike == (n == 9 || (p.strike && n != 29))
      && q.fg == (if 30 <= n < 38 then Palette(Number(n - 30)) else if 90 <= n < 98 then Palette(Number(n - 82))
                  else if n == 39 then Theme else p.fg)
      && q.bg == (if 40 <= n < 48 then Palette(Number(n - 40)) else if 100 <= n < 108 then Palette(Number(n - 92))
                  else if n == 49 then Theme else p.bg)
  }

  lemma {:induction false} OneStroke(pen: Pen, n: nat)
    requires n != 38 && n != 48
    ensures Styled(pen, n, Painted(pen, [Number(n)]))
  {
    assert Drop([Number(n)], 1) == [];
    assert Painted(pen, [Number(n)]) == Attribute(pen, n);
    if n < 10 {
      StyleOn(pen, n);
    } else if n < 25 {
      StyleOff(pen, n);
    } else if n < 30 {
      StyleOffToo(pen, n);
    } else {
      ColorSet(pen, n);
    }
  }

  lemma {:induction false} StyleOn(pen: Pen, n: nat)
    requires n < 10
    ensures Styled(pen, n, Attribute(pen, n))
  {}

  lemma {:induction false} StyleOff(pen: Pen, n: nat)
    requires 10 <= n < 25
    ensures Styled(pen, n, Attribute(pen, n))
  {}

  lemma {:induction false} StyleOffToo(pen: Pen, n: nat)
    requires 25 <= n < 30
    ensures Styled(pen, n, Attribute(pen, n))
  {}

  lemma {:induction false} ColorSet(pen: Pen, n: nat)
    requires 30 <= n && n != 38 && n != 48
    ensures Styled(pen, n, Attribute(pen, n))
  {}

  lemma {:induction false} SgrNamed(s: Screen, ns: seq<nat>)
    requires ns != []
    ensures Operation(s, Numbers(ns), 0x6D) == s.(pen := Painted(s.pen, Numbers(ns)))
  {
    hide Painted;
    assert Zeroed(Numbers(ns)) == Numbers(ns);
  }

  /** A style or one of the sixteen colors: nothing but the pen changes. */
  lemma {:induction false} StyleMeans(v: Vt, n: nat)
    requires v.mode == Ground && n <= MAX_PARAM_VALUE && n != 38 && n != 48
    ensures var s, t := Flush(v).term, After(v, n, 'm'); t == s.(pen := t.pen) && Styled(s.pen, n, t.pen)
  {
    hide After, Operation, Styled, Flush;
    var s := Flush(v).term;
    AfterOne(v, n, 'm');
    assert Numbers([n]) == [Number(n)];
    SgrNamed(s, [n]);
    OneStroke(s.pen, n);
  }

  /** One color: `38;5;k` and `38;2;r;g;b` for the text, with 48 for the ground. */
  predicate ColorList(ns: seq<nat>) {
    || (|ns| == 3 && (ns[0] == 38 || ns[0] == 48) && ns[1] == 5)
    || (|ns| == 5 && (ns[0] == 38 || ns[0] == 48) && ns[1] == 2)
  }

  function ColorOf(ns: seq<nat>): Color
    requires ColorList(ns)
  {
    if ns[1] == 5 then Palette(Number(ns[2])) else Rgb(ns[2], ns[3], ns[4])
  }

  function Colored(p: Pen, ns: seq<nat>): Pen
    requires ColorList(ns)
  {
    if ns[0] == 38 then p.(fg := ColorOf(ns)) else p.(bg := ColorOf(ns))
  }

  lemma {:induction false} ColorFirst(pen: Pen, a: seq<nat>, b: seq<nat>)
    requires ColorList(a)
    ensures Painted(pen, Numbers(a + b)) == Painted(Colored(pen, a), Numbers(b))
  {
    var ps := Numbers(a + b);
    assert At(ps, 0) == Number(a[0]) && At(ps, 1) == Number(a[1]) && At(ps, 2) == Number(a[2]);
    assert |a| == 5 ==> At(ps, 3) == Number(a[3]) && At(ps, 4) == Number(a[4]);
    assert Stroke(pen, ps) == (Colored(pen, a), |a|);
    assert Drop(ps, |a|) == Numbers(b);
  }

  lemma {:induction false} StyleFirst(pen: Pen, n: nat, b: seq<nat>)
    requires n != 38 && n != 48
    ensures Painted(pen, Numbers([n] + b)) == Painted(Painted(pen, [Number(n)]), Numbers(b))
  {
    var ps := Numbers([n] + b);
    assert ps[0] == Number(n) && Drop(ps, 1) == Numbers(b) && Drop([Number(n)], 1) == [];
    assert Stroke(pen, ps) == Stroke(pen, [Number(n)]);
    assert Painted(pen, [Number(n)]) == Painted(Stroke(pen, [Number(n)]).0, []);
  }

  lemma {:induction false} ColorMeans(v: Vt, ns: seq<nat>)
    requires v.mode == Ground && Writable(ns) && ColorList(ns)
    ensures var s := Flush(v).term; Feed(v, Escape(ns, 'm')).term == s.(pen := Colored(s.pen, ns))
  {
    hide Operation, Flush, Feed, List, Colored;
    var s := Flush(v).term;
    AfterMany(v, ns, 'm');
    SgrNamed(s, ns);
    ColorFirst(s.pen, ns, []);
    assert ns + [] == ns && Painted(Colored(s.pen, ns), Numbers([])) == Colored(s.pen, ns);
  }

  /** Several in one sequence are as many sequences, one after another. */
  lemma {:induction false} StylesCompose(v: Vt, a: seq<nat>, b: seq<nat>)
    requires v.mode == Ground && (ColorList(a) || (|a| == 1 && a[0] != 38 && a[0] != 48))
    requires b != [] && Writable(a) && Writable(b) && Writable(a + b)
    ensures Feed(v, Escape(a + b, 'm')).term == Feed(Feed(v, Escape(a, 'm')), Escape(b, 'm')).term
  {
    hide Operation, Flush, Feed, List, Colored, Painted;
    var s, w := Flush(v).term, Feed(v, Escape(a, 'm'));
    AfterMany(v, a + b, 'm');
    AfterMany(v, a, 'm');
    NothingCollected(w);
    AfterMany(w, b, 'm');
    SgrNamed(s, a + b);
    SgrNamed(s, a);
    SgrNamed(w.term, b);
    if ColorList(a) {
      ColorFirst(s.pen, a, b);
      ColorFirst(s.pen, a, []);
      NothingPainted(Colored(s.pen, a));
      assert a + [] == a;
    } else {
      StyleFirst(s.pen, a[0], b);
      assert a == [a[0]] && Numbers(a) == [Number(a[0])];
    }
  }

  lemma {:induction false} NothingPainted(pen: Pen)
    ensures Painted(pen, Numbers([])) == pen
  {}

  lemma {:induction false} ColorSkipped(pen: Pen, k: nat, b: seq<nat>)
    requires (k == 38 || k == 48) && (b != [] ==> b[0] != 2 && b[0] != 5)
    ensures Painted(pen, Numbers([k] + b)) == Painted(pen, Numbers(b))
  {
    var ps := Numbers([k] + b);
    assert b != [] ==> At(ps, 1) == Number(b[0]);
    assert Stroke(pen, ps) == (pen, 1);
    assert Drop(ps, 1) == Numbers(b);
  }

  /** 38 and 48 without a kind of color behind them mean nothing, and the rest is read on its own. */
  lemma {:induction false} ColorDropped(v: Vt, k: nat, b: seq<nat>)
    requires v.mode == Ground && (k == 38 || k == 48) && (b != [] ==> b[0] != 2 && b[0] != 5)
    requires Writable([k] + b) && (b != [] ==> Writable(b))
    ensures Feed(v, Escape([k] + b, 'm')).term == if b == [] then Flush(v).term else Feed(v, Escape(b, 'm')).term
  {
    hide Operation, Flush, Feed, List, Painted;
    var s := Flush(v).term;
    AfterMany(v, [k] + b, 'm');
    SgrNamed(s, [k] + b);
    ColorSkipped(s.pen, k, b);
    if b == [] {
      NothingPainted(s.pen);
    } else {
      AfterMany(v, b, 'm');
      SgrNamed(s, b);
    }
  }

  // ------------------------------------------------------------------ modes

  /** `ESC [ ? n ; … f` */
  function PrivateEscape(ns: seq<nat>, f: char): Text
    requires ns != [] && FinalChar(f)
  {
    [ESC, 0x5B] + ([QUESTION] + List(ns)) + [f as int]
  }

  lemma {:induction false} PrivateDecoded(v: Vt, ns: seq<nat>, f: char)
    requires v.mode == Ground && Writable(ns) && |List(ns)| < MAX_PARAMS && (f == 'h' || f == 'l')
    ensures Feed(v, PrivateEscape(ns, f)).term == SetMode(Flush(v).term, Given(Numbers(ns)), true, f == 'h')
  {
    hide Flush, List, Control, Short, Params, Given;
    var t := [QUESTION] + List(ns);
    var w := Flush(v).(mode := Mode.Csi, params := [], intermediates := []);
    FeedTwo(v);
    ListUnits(ns);
    Collected(w, t);
    assert [] + t == t;
    FeedAppend(v, [ESC, 0x5B], t);
    FeedAppend(v, [ESC, 0x5B] + t, [f as int]);
    FeedOne(w.(params := t), f as int);
    PrivateDispatched(Flush(v).term, ns, f);
    hide Dispatch;
  }

  lemma {:induction false} PrivateDispatched(s: Screen, ns: seq<nat>, f: char)
    requires Writable(ns) && (f == 'h' || f == 'l')
    ensures Dispatch(s, f as int, [QUESTION] + List(ns)) == SetMode(s, Given(Numbers(ns)), true, f == 'h')
  {
    hide List, Params, Given;
    PrivateParams(ns);
  }

  lemma {:induction false} PrivateParams(ns: seq<nat>)
    requires Writable(ns)
    ensures Params([QUESTION] + List(ns)) == Numbers(ns) && Private([QUESTION] + List(ns))
  {
    hide List;
    ParamsOfList(ns);
    assert ([QUESTION] + List(ns))[1..] == List(ns);
  }

  /** Of the modes only the visible cursor, `?25`, means anything: `h` shows it and `l` hides it. */
  lemma {:induction false} ModesMean(v: Vt, ns: seq<nat>, f: char)
    requires v.mode == Ground && Writable(ns) && |List(ns)| < MAX_PARAMS && (f == 'h' || f == 'l')
    ensures var s := Flush(v).term;
      && Feed(v, PrivateEscape(ns, f)).term ==
         (if 25 in ns then s.(cursor := Cursor(s.cursor.x, s.cursor.y, f == 'h')) else s)
      && Feed(v, Escape(ns, f)).term == s
  {
    hide Feed, Flush, List, Given;
    PrivateDecoded(v, ns, f);
    AfterMany(v, ns, f);
    if 25 in ns {
      var i :| 0 <= i < |ns| && ns[i] == 25;
      assert Numbers(ns)[i] == Number(25);
    }
    ModeNamed(Flush(v).term, ns, f);
  }

  lemma {:induction false} ModeNamed(s: Screen, ns: seq<nat>, f: char)
    requires f == 'h' || f == 'l'
    ensures Operation(s, Numbers(ns), f as int) == s
    ensures Number(25) in Given(Numbers(ns)) <==> Number(25) in Numbers(ns)
  {
    hide Given;
  }

  // ------------------------------------------------------------------ what is not acted upon

  lemma {:induction false} IgnoredOn(v: Vt, t: Text)
    requires v.mode == CsiIgnore && ParamUnits(t)
    ensures Feed(v, t) == v
    decreases |t|
  {
    if t != [] {
      assert t[0] in t && forall u :: u in t[1..] ==> u in t;
      IgnoredOn(v, t[1..]);
    }
  }

  lemma {:induction false} OverlongCollected(w: Vt, t: Text)
    requires w.mode == Mode.Csi && w.params == [] && ParamUnits(t) && |t| > 64
    ensures Feed(w, t) == w.(params := t[..64], mode := CsiIgnore)
  {
    hide Dispatch, Control;
    var head, rest := t[..64], t[65..];
    assert forall u :: u in head || u in rest ==> u in t;
    assert t[64] in t;
    Collected(w, head);
    assert [] + head == head;
    FeedOne(w.(params := head), t[64]);
    IgnoredOn(w.(params := head, mode := CsiIgnore), rest);
    FeedAppend(w, head, [t[64]]);
    FeedAppend(w, head + [t[64]], rest);
    assert t == head + [t[64]] + rest;
  }

  /** A sequence with more than sixty-four characters of parameters does nothing, to its end. */
  lemma {:induction false} OverlongIgnored(v: Vt, t: Text, f: char)
    requires v.mode == Ground && ParamUnits(t) && |t| > 64 && FinalChar(f)
    ensures var r := Feed(v, [ESC, 0x5B] + t + [f as int]); r.term == Flush(v).term && r.mode == Ground
  {
    hide Flush, Dispatch, Control, Short;
    var w := Flush(v).(mode := Mode.Csi, params := [], intermediates := []);
    FeedTwo(v);
    OverlongCollected(w, t);
    FeedOne(w.(params := t[..64], mode := CsiIgnore), f as int);
    FeedAppend(v, [ESC, 0x5B], t);
    FeedAppend(v, [ESC, 0x5B] + t, [f as int]);
  }

  // ------------------------------------------------------------------ the title

  /** No control character, and so nothing that ends the string. */
  predicate Visible(t: Text) { forall i :: 0 <= i < |t| ==> t[i] >= 0x20 && !(0x7F <= t[i] <= 0x9F) }

  lemma {:induction false} OscCollected(v: Vt, t: Text)
    requires v.mode == Osc && Visible(t) && |v.osc| + |t| <= MAX_OSC
    ensures Feed(v, t) == v.(osc := v.osc + t)
    decreases |t|
  {
    if t == [] {
      assert v.osc + [] == v.osc;
    } else {
      hide DispatchOsc;
      OscCollected(v.(osc := v.osc + [t[0]]), t[1..]);
      assert v.osc + [t[0]] + t[1..] == v.osc + t;
    }
  }

  lemma {:induction false} AllPrintable(t: Text)
    requires Visible(t)
    ensures Printable(t) == t
    decreases |t|
  {
    if t != [] {
      AllPrintable(t[1..]);
      assert [t[0]] + t[1..] == t;
    }
  }

  lemma {:induction false} OscTitle(code: Unit, t: Text)
    requires Visible(t) && |t| <= 256 && 0x30 <= code <= 0x39
    ensures TitleOf([code, SEMICOLON] + t) == if code == 0x30 || code == 0x32 then Some(t) else None
  {
    var osc := [code, SEMICOLON] + t;
    assert osc == [code] + ([SEMICOLON] + t);
    Splitting.IndexAfter([code], [SEMICOLON] + t, SEMICOLON);
    assert osc[..1] == [code] && osc[2..] == t;
    AllPrintable(t);
  }

  /** `ESC ] 0 ; title BEL`, and with 2: the title is what was sent. With another digit nothing happens. */
  lemma {:induction false} TitleMeans(v: Vt, code: Unit, t: Text)
    requires v.mode == Ground && Visible(t) && |t| <= 256 && 0x30 <= code <= 0x39
    ensures var s, r := Flush(v).term, Feed(v, [ESC, 0x5D] + ([code, SEMICOLON] + t) + [BEL]);
      r.term == (if code == 0x30 || code == 0x32 then s.(titles := s.titles + [t]) else s) && r.mode == Ground
  {
    hide Flush, TitleOf, Short;
    var osc := [code, SEMICOLON] + t;
    var w := Flush(v).(mode := Osc, intermediates := [], osc := [], overflow := false);
    FeedOne(v, ESC);
    FeedOne(Flush(v).(mode := Esc, intermediates := []), 0x5D);
    assert [ESC, 0x5D] == [ESC] + [0x5D];
    FeedAppend(v, [ESC], [0x5D]);
    OscCollected(w, osc);
    assert [] + osc == osc;
    FeedAppend(v, [ESC, 0x5D], osc);
    FeedAppend(v, [ESC, 0x5D] + osc, [BEL]);
    FeedOne(w.(osc := osc), BEL);
    OscTitle(code, t);
  }

  // ------------------------------------------------------------------ how sequences end

  /** In the middle of `ESC [`, with these parameters. */
  function InParams(v: Vt, t: Text): Vt { Flush(v).(mode := Mode.Csi, params := t, intermediates := []) }

  lemma {:induction false} ParamsCollected(v: Vt, t: Text)
    requires v.mode == Ground && ParamUnits(t) && |t| <= 64
    ensures Feed(v, [ESC, 0x5B] + t) == InParams(v, t)
  {
    hide Flush;
    FeedTwo(v);
    Collected(InParams(v, []), t);
    assert [] + t == t;
    FeedAppend(v, [ESC, 0x5B], t);
  }

  /** The single character that stands for `ESC [`, and one that is not looked at. */
  lemma {:induction false} ShorthandMeans(v: Vt)
    requires v.mode == Ground
    ensures Feed(v, [CSI8]) == Feed(v, [ESC, 0x5B]) && Feed(v, [DEL]) == v
  {
    hide Flush;
    FeedTwo(v);
    FeedOne(v, CSI8);
    FeedOne(v, DEL);
  }

  /**
   * Inside a sequence: CAN and SUB end it with nothing done, an escape begins another instead, any other control
   * character does what it does outside, and characters between parameters and final make no difference.
   */
  lemma {:induction false} InterruptionMeans(v: Vt, t: Text, u: Unit, i: Unit, f: char)
    requires v.mode == Ground && ParamUnits(t) && |t| <= 64 && FinalChar(f)
    ensures var w := [ESC, 0x5B] + t;
      && (u == CAN || u == SUB ==> Feed(v, w + [u]).term == Flush(v).term && Feed(v, w + [u]).mode == Ground)
      && (u < 0x20 && u != CAN && u != SUB && u != ESC ==>
            Feed(v, w + [u]) == Feed(v, w).(term := Feed(Feed(v, w).(mode := Ground), [u]).term))
      && (0x20 <= i <= 0x2F ==> Feed(v, w + [i, f as int]).term == Feed(v, w + [f as int]).term)
      && Feed(v, w + [ESC]).term == Flush(v).term
      && Feed(v, w + [ESC]).mode == Esc && Feed(v, w + [ESC]).intermediates == []
  {
    hide Flush, Dispatch, Control;
    var w := [ESC, 0x5B] + t;
    ParamsCollected(v, t);
    var c := InParams(v, t);
    FeedAppend(v, w, [u]);
    FeedOne(c, u);
    FeedAppend(v, w, [ESC]);
    FeedOne(c, ESC);
    if u < 0x20 && u != CAN && u != SUB && u != ESC { ControlAnywhere(v, c, u); }
    if 0x20 <= i <= 0x2F { BetweenIgnored(v, w, c, i, f); }
  }

  /** A control character does in a sequence what it does outside. */
  lemma {:induction false} ControlAnywhere(v: Vt, c: Vt, u: Unit)
    requires c.mode == Mode.Csi && c == InParams(v, c.params) && u < 0x20 && u != CAN && u != SUB && u != ESC
    ensures Accept(c, u) == c.(term := Feed(c.(mode := Ground), [u]).term)
  {
    assert c.printBuf == [];
    NothingCollected(c.(mode := Ground));
    FeedOne(c.(mode := Ground), u);
  }

  lemma {:induction false} BetweenIgnored(v: Vt, w: Text, c: Vt, i: Unit, f: char)
    requires Feed(v, w) == c && c.mode == Mode.Csi && 0x20 <= i <= 0x2F && FinalChar(f)
    ensures Feed(v, w + [i, f as int]).term == Feed(v, w + [f as int]).term
  {
    hide Flush, Dispatch, Control;
    assert [i, f as int] == [i] + [f as int];
    assert w + [i, f as int] == w + [i] + [f as int];
    FeedAppend(v, w, [i]);
    FeedOne(c, i);
    FeedAppend(v, w + [i], [f as int]);
    FeedOne(Accept(c, i), f as int);
    FeedAppend(v, w, [f as int]);
    FeedOne(c, f as int);
  }

  /** What ends a string: the bell, a string terminator of one character or of two. */
  predicate Terminator(t: Text) { t == [BEL] || t == [ST8] || t == [ESC, BACKSLASH] }

  /** The string of `ESC ]`. */
  function InOscString(v: Vt, osc: Text): Vt {
    Flush(v).(mode := Osc, intermediates := [], osc := osc, overflow := false)
  }

  lemma {:induction false} OscOpened(v: Vt, osc: Text)
    requires v.mode == Ground && Visible(osc) && |osc| <= MAX_OSC
    ensures Feed(v, [ESC, 0x5D] + osc) == InOscString(v, osc)
  {
    hide Flush, Short;
    FeedOne(v, ESC);
    FeedOne(Flush(v).(mode := Esc, intermediates := []), 0x5D);
    assert [ESC, 0x5D] == [ESC] + [0x5D];
    FeedAppend(v, [ESC], [0x5D]);
    OscCollected(InOscString(v, []), osc);
    assert [] + osc == osc;
    FeedAppend(v, [ESC, 0x5D], osc);
  }

  lemma {:induction false} TwoUnits(w: Vt, a: Unit, b: Unit)
    ensures Feed(w, [a, b]) == Accept(Accept(w, a), b)
  {
    assert [a, b] == [a] + [b];
    FeedAppend(w, [a], [b]);
    FeedOne(w, a);
    FeedOne(Accept(w, a), b);
  }

  /** A string does the same whichever way it is ended; CAN and SUB drop it, and so does any other escape. */
  lemma {:induction false} StringMeans(v: Vt, osc: Text, end: Text, u: Unit)
    requires v.mode == Ground && Visible(osc) && |osc| <= 4096 && Terminator(end)
    ensures var w := [ESC, 0x5D] + osc;
      && Feed(v, w + end).term == Feed(v, w + [BEL]).term && Feed(v, w + end).mode == Ground
      && (u == CAN || u == SUB ==> Feed(v, w + [u]).term == Flush(v).term && Feed(v, w + [u]).mode == Ground)
      && (u != BACKSLASH ==> Feed(v, w + [ESC, u]).term == Feed(v, [ESC, u]).term)
  {
    hide Flush, DispatchOsc, Short, Terminator;
    var w := [ESC, 0x5D] + osc;
    var c := InOscString(v, osc);
    OscOpened(v, osc);
    FeedAppend(v, w, end);
    FeedAppend(v, w, [BEL]);
    FeedAppend(v, w, [u]);
    FeedAppend(v, w, [ESC, u]);
    FeedOne(c, u);
    StringEnded(c, end);
    TwoUnits(c, ESC, u);
    TwoUnits(v, ESC, u);
    if u != BACKSLASH { EscapeAgain(v, c, u); }
  }

  lemma {:induction false} StringEnded(c: Vt, end: Text)
    requires c.mode == Osc && Terminator(end)
    ensures Feed(c, end).term == Feed(c, [BEL]).term && Feed(c, end).mode == Ground
  {
    hide TitleOf;
    FeedOne(c, BEL);
    FeedOne(c, ST8);
    TwoUnits(c, ESC, BACKSLASH);
  }

  lemma {:induction false} EscapeAgain(v: Vt, c: Vt, u: Unit)
    requires v.mode == Ground && u != BACKSLASH && c == InOscString(v, c.osc)
    ensures Accept(Accept(c, ESC), u).term == Accept(Accept(v, ESC), u).term
  {
    hide Flush, Short;
  }

  lemma {:induction false} OscOverflows(v: Vt, t: Text)
    requires v.mode == Osc && Visible(t) && |v.osc| == MAX_OSC
    ensures Feed(v, t) == v.(overflow := v.overflow || t != [])
    decreases |t|
  {
    if t != [] {
      hide DispatchOsc;
      OscOverflows(v.(overflow := true), t[1..]);
    }
  }

  /** A string of more than 4096 characters is not acted upon. */
  lemma {:induction false} LongStringIgnored(v: Vt, osc: Text)
    requires v.mode == Ground && Visible(osc) && |osc| > 4096
    ensures Feed(v, [ESC, 0x5D] + osc + [BEL]).term == Flush(v).term
  {
    hide Flush, TitleOf;
    var head, rest := osc[..4096], osc[4096..];
    assert osc == head + rest && [ESC, 0x5D] + osc == [ESC, 0x5D] + head + rest;
    OscOpened(v, head);
    FeedAppend(v, [ESC, 0x5D] + head, rest);
    OscOverflows(InOscString(v, head), rest);
    FeedAppend(v, [ESC, 0x5D] + osc, [BEL]);
    FeedOne(InOscString(v, head).(overflow := true), BEL);
  }

  /** Nothing in it ends a device control string. */
  predicate DeviceText(t: Text) { forall i :: 0 <= i < |t| ==> t[i] !in {BEL, ST8, CAN, SUB, ESC} }

  lemma {:induction false} DcsCollected(v: Vt, t: Text)
    requires v.mode == Dcs && DeviceText(t)
    ensures Feed(v, t) == v
    decreases |t|
  {
    if t != [] { DcsCollected(v, t[1..]); }
  }

  /** A device control string does nothing, to its end. */
  lemma {:induction false} DeviceStringIgnored(v: Vt, t: Text, end: Text)
    requires v.mode == Ground && DeviceText(t) && (Terminator(end) || end == [CAN] || end == [SUB])
    ensures var r := Feed(v, [ESC, 0x50] + t + end); r.term == Flush(v).term && r.mode == Ground
  {
    hide Flush, Short;
    var c := Flush(v).(mode := Dcs, intermediates := []);
    TwoUnits(v, ESC, 0x50);
    DcsCollected(c, t);
    FeedAppend(v, [ESC, 0x50], t);
    FeedAppend(v, [ESC, 0x50] + t, end);
    FeedOne(c, BEL);
    FeedOne(c, ST8);
    FeedOne(c, CAN);
    FeedOne(c, SUB);
    TwoUnits(c, ESC, BACKSLASH);
  }

  // ------------------------------------------------------------------ parameters that are not plain numbers

  lemma {:induction false} TextDispatched(v: Vt, t: Text, f: char)
    requires v.mode == Ground && ParamUnits(t) && |t| <= 64 && FinalChar(f)
    ensures Feed(v, [ESC, 0x5B] + t + [f as int]).term == Dispatch(Flush(v).term, f as int, t)
  {
    hide Flush, Dispatch, Control;
    ParamsCollected(v, t);
    FeedAppend(v, [ESC, 0x5B] + t, [f as int]);
    FeedOne(InParams(v, t), f as int);
  }

  lemma {:induction false} OneParam(s: Screen, t: Text, f: char, p: Param)
    requires FinalChar(f) && t != [] && !Private(t) && SEMICOLON !in t && ToParam(t) == p
    ensures Dispatch(s, f as int, t) == Operation(s, [p], f as int)
  {
    hide Motion, Editing, Setting, ToParam;
    Splitting.IndexAfter(t, [], SEMICOLON);
    assert t + [] == t && Parts(t) == [t];
    assert Params(t) == [p];
  }

  lemma {:induction false} DigitsBefore(n: nat, more: Text)
    requires more == [] || !Json.IsDigit(more[0])
    ensures var t := NatText(n) + more;
      && Json.Digits(t) == |NatText(n)| > 0 && t[..|NatText(n)|] == NatText(n) && Decimal(NatText(n)) == n
      && !Private(t) && (SEMICOLON !in more ==> SEMICOLON !in t) && (ParamUnits(more) ==> ParamUnits(t))
  {
    NatIsDigits(n);
    DecimalOfNat(n);
    DigitsRun(NatText(n), more);
    assert NatText(n)[0] in NatText(n);
    assert forall u :: u in NatText(n) + more ==> u in NatText(n) || u in more;
  }

  lemma {:induction false} DigitsRun(t: Text, more: Text)
    requires AllDigits(t) && (more == [] || !Json.IsDigit(more[0]))
    ensures Json.Digits(t + more) == |t|
    decreases |t|
  {
    if t == [] {
      assert t + more == more;
    } else {
      assert t[0] in t && (t + more)[1..] == t[1..] + more;
      assert forall u :: u in t[1..] ==> u in t;
      DigitsRun(t[1..], more);
    }
  }

  /** A number too large is 65535; what stands behind the digits of a parameter is not looked at. */
  lemma {:induction false} ParameterMeans(v: Vt, n: nat, more: Text, f: char)
    requires v.mode == Ground && FinalChar(f) && |NatText(n) + more| <= 64
    requires ParamUnits(more) && SEMICOLON !in more && (more == [] || !Json.IsDigit(more[0]))
    ensures Feed(v, [ESC, 0x5B] + (NatText(n) + more) + [f as int]).term == After(v, if n > 65535 then 65535 else n, f)
  {
    hide Flush, Dispatch, Operation, Feed, After, NatText;
    var t := NatText(n) + more;
    DigitsBefore(n, more);
    TextDispatched(v, t, f);
    OneParam(Flush(v).term, t, f, Number(Least(65535, n)));
    AfterOne(v, Least(65535, n), f);
  }

  /** A parameter that does not begin with a digit stands for the default, and for no style. */
  lemma {:induction false} NoNumberMeans(v: Vt, t: Text, f: char)
    requires v.mode == Ground && FinalChar(f) && 0 < |t| <= 64 && ParamUnits(t)
    requires SEMICOLON !in t && !Json.IsDigit(t[0]) && t[0] != QUESTION
    ensures CountsFromOne(f) || f == 'J' || f == 'K' ==>
      Feed(v, [ESC, 0x5B] + t + [f as int]).term == Feed(v, Bare(f)).term
    ensures f == 'm' ==> Feed(v, [ESC, 0x5B] + t + [f as int]).term == Flush(v).term
  {
    hide Flush, Dispatch, Feed;
    TextDispatched(v, t, f);
    OneParam(Flush(v).term, t, f, NotANumber);
    BareDecoded(v, f);
    NoNumberNamed(Flush(v).term, f);
    hide Operation;
  }

  lemma {:induction false} NoNumberNamed(s: Screen, f: char)
    requires FinalChar(f)
    ensures CountsFromOne(f) || f == 'J' || f == 'K' ==>
      Operation(s, [NotANumber], f as int) == Operation(s, [], f as int)
    ensures f == 'm' ==> Operation(s, [NotANumber], f as int) == s
  {
    if f == 'm' {
      assert Zeroed([NotANumber]) == [NotANumber] && Drop([NotANumber], 1) == [];
      assert Painted(s.pen, [NotANumber]) == s.pen;
    }
  }
}
