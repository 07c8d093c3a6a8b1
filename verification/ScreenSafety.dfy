/** What every operation on the screen keeps, and what it records of its changes. */
module ScreenSafety {
  import opened Common
  import opened Utf16
  import opened ScreenModel

  // ------------------------------------------------------------------ the invariant

  predicate Sized(s: Screen) {
    && 1 <= s.cols <= MAX_COLS && 1 <= s.rows <= MAX_ROWS && |s.grid| == s.rows
    && forall y :: 0 <= y < |s.grid| ==> |s.grid[y]| == s.cols
  }

  predicate Placed(s: Screen) { s.cursor.x < s.cols && s.cursor.y < s.rows }

  predicate Region(s: Screen) { s.top <= s.bottom < s.rows }

  predicate History(s: Screen) {
    |s.scrollback| <= MAX_SCROLLBACK && Total(s.scrollback) <= s.cells <= MAX_SCROLLBACK_CELLS
  }

  predicate Inv(s: Screen) { Sized(s) && Placed(s) && Region(s) && History(s) }

  /** What `restoreCursor` would go back to is on the screen. */
  predicate SavedFits(s: Screen) { s.saved.Some? ==> s.saved.value.x < s.cols && s.saved.value.y < s.rows }

  predicate Good(s: Screen) { Inv(s) && SavedFits(s) }

  // ------------------------------------------------------------------ what a change leaves behind

  /** Every row that differs is marked for painting, and no mark is lost. */
  ghost predicate Marked(s: Screen, t: Screen) {
    && s.dirty <= t.dirty && |t.grid| == |s.grid|
    && forall y :: 0 <= y < |s.grid| ==> RowMarked(s, t, y)
  }

  ghost predicate RowMarked(s: Screen, t: Screen, y: nat)
    requires y < |s.grid| && y < |t.grid|
  {
    t.grid[y] == s.grid[y] || y in t.dirty
  }

  /** One operation at fixed geometry: a saved cursor that was on the screen, or a new one, is on it. */
  ghost predicate Next(s: Screen, t: Screen) {
    Inv(t) && (SavedFits(s) ==> SavedFits(t)) && t.cols == s.cols && t.rows == s.rows && Marked(s, t)
  }

  lemma {:induction false} NextTrans(s: Screen, t: Screen, u: Screen)
    requires Next(s, t) && Next(t, u)
    ensures Next(s, u)
  {
    forall y | 0 <= y < |s.grid| ensures RowMarked(s, u, y) {
      assert RowMarked(s, t, y) && RowMarked(t, u, y);
    }
  }

  lemma {:induction false} NextSelf(s: Screen)
    requires Inv(s)
    ensures Next(s, s)
  {}

  // ------------------------------------------------------------------ the rows that scrolled off

  lemma {:induction false} TotalAppend(a: seq<Row>, b: seq<Row>)
    ensures Total(a + b) == Total(a) + Total(b)
    decreases |a|
  {
    if a == [] {
      assert a + b == b;
    } else {
      assert (a + b)[1..] == a[1..] + b;
      TotalAppend(a[1..], b);
    }
  }

  /** What is kept is an end of the list, within the bounds. */
  lemma {:induction false} RetainBounds(rows: seq<Row>, budget: int)
    requires budget >= 0
    ensures var r := Retain(rows, budget);
      |r| <= MAX_SCROLLBACK && Total(r) <= budget && |r| <= |rows| && r == rows[|rows| - |r|..]
    decreases |rows|
  {
    if rows != [] && !(|rows| <= MAX_SCROLLBACK && Total(rows) <= budget) {
      RetainBounds(rows[1..], budget);
      var r := Retain(rows, budget);
      assert rows[|rows| - |r|..] == rows[1..][|rows[1..]| - |r|..];
    }
  }

  /** No longer end is within the bounds: no row is dropped that could have stayed. */
  lemma {:induction false} RetainLongest(rows: seq<Row>, budget: int, k: nat)
    requires budget >= 0 && k <= |rows| && |rows| - k > |Retain(rows, budget)|
    ensures |rows[k..]| > MAX_SCROLLBACK || Total(rows[k..]) > budget
    decreases k
  {
    if k > 0 {
      RetainLongest(rows[1..], budget, k - 1);
      assert rows[k..] == rows[1..][k - 1..];
    } else {
      assert rows[0..] == rows;
    }
  }

  /** Trimming between two additions changes nothing. */
  lemma {:induction false} RetainTwice(a: seq<Row>, b: seq<Row>, budget: int)
    ensures Retain(Retain(a, budget) + b, budget) == Retain(a + b, budget)
    decreases |a|
  {
    if a != [] && !(|a| <= MAX_SCROLLBACK && Total(a) <= budget) {
      TotalAppend(a, b);
      assert (a + b)[1..] == a[1..] + b;
      RetainTwice(a[1..], b, budget);
    }
  }

  lemma {:induction false} ArchiveKeeps(s: Screen, rows: seq<Row>)
    requires History(s)
    ensures History(Archive(s, rows)) && Lost(Archive(s, rows)) == Lost(s)
    ensures Archive(s, rows) == s.(scrollback := Archive(s, rows).scrollback, cells := Archive(s, rows).cells)
  {
    RetainBounds(s.scrollback + rows, MAX_SCROLLBACK_CELLS - Lost(s));
  }

  lemma {:induction false} ArchiveTwice(s: Screen, a: seq<Row>, b: seq<Row>)
    ensures Archive(Archive(s, a), b) == Archive(s, a + b)
  {
    hide Retain, Total;
    RetainTwice(s.scrollback + a, b, MAX_SCROLLBACK_CELLS - Lost(s));
    assert s.scrollback + a + b == s.scrollback + (a + b);
  }

  // ------------------------------------------------------------------ operations that only move the cursor

  /** The same screen but for the cursor and the deferred wrap. */
  predicate Moved(s: Screen, t: Screen) { t == s.(cursor := t.cursor, wrapNext := t.wrapNext) }

  lemma {:induction false} MovedNext(s: Screen, t: Screen)
    requires Inv(s) && Moved(s, t) && Placed(t)
    ensures Next(s, t)
  {}

  lemma {:induction false} StopFits(tabs: set<nat>, cols: nat, x: nat)
    requires cols >= 1
    ensures Stop(tabs, cols, x) < cols
    ensures x < cols ==> x <= Stop(tabs, cols, x)
    ensures Stop(tabs, cols, x) in tabs || Stop(tabs, cols, x) == cols - 1
    ensures forall z :: x <= z < Stop(tabs, cols, x) ==> z !in tabs
    decreases cols - x
  {
    if x < cols && x !in tabs { StopFits(tabs, cols, x + 1); }
  }

  lemma {:induction false} MotionsMove(s: Screen, n: nat)
    requires Inv(s)
    ensures Next(s, CursorUp(s, n)) && Next(s, CursorDown(s, n)) && Next(s, CursorForward(s, n))
        && Next(s, CursorBack(s, n))
    ensures Next(s, CursorCol(s, n)) && Next(s, CursorLine(s, n))
    ensures Next(s, CursorNextLine(s, n)) && Next(s, CursorPrevLine(s, n))
  {
    MovedNext(s, CursorUp(s, n));
    MovedNext(s, CursorDown(s, n));
    MovedNext(s, CursorForward(s, n));
    MovedNext(s, CursorBack(s, n));
    MovedNext(s, CursorCol(s, n));
    MovedNext(s, CursorLine(s, n));
    MovedNext(s, CursorNextLine(s, n));
    MovedNext(s, CursorPrevLine(s, n));
  }

  lemma {:induction false} ControlsMove(s: Screen, row: nat, col: nat)
    requires Inv(s)
    ensures Next(s, CursorPos(s, row, col)) && Next(s, CarriageReturn(s)) && Next(s, Backspace(s)) && Next(s, Tab(s))
  {
    StopFits(s.tabs, s.cols, s.cursor.x + 1);
    MovedNext(s, CursorPos(s, row, col));
    MovedNext(s, CarriageReturn(s));
    MovedNext(s, Backspace(s));
    MovedNext(s, Tab(s));
  }

  // ------------------------------------------------------------------ operations that change rows

  /** The same screen but for its rows and their marks. */
  predicate Redrawn(s: Screen, t: Screen) {
    && t == s.(grid := t.grid, dirty := t.dirty) && |t.grid| == |s.grid|
    && forall y :: 0 <= y < |t.grid| ==> |t.grid[y]| == s.cols
  }

  lemma {:induction false} RedrawnNext(s: Screen, t: Screen)
    requires Inv(s) && Redrawn(s, t) && Marked(s, t)
    ensures Next(s, t)
  {}

  lemma {:induction false} RowNext(s: Screen, row: Row)
    requires Inv(s) && |row| == s.cols
    ensures Next(s, WithRow(s, row))
  {
    var t := WithRow(s, row);
    forall y | 0 <= y < |s.grid| ensures RowMarked(s, t, y) {}
    RedrawnNext(s, t);
  }

  lemma {:induction false} RowOperations(s: Screen, n: nat)
    requires Inv(s)
    ensures Next(s, EraseInLine(s, n)) && Next(s, EraseChars(s, n)) && Next(s, InsertChars(s, n))
        && Next(s, DeleteChars(s, n))
  {
    hide Next, WithRow;
    var row, k, b := CursorRow(s), Count(n, s.cols), Blank(s.pen);
    RowNext(s, Over(row, if n == 0 then s.cursor.x else 0, if n == 1 then s.cursor.x + 1 else s.cols, b));
    RowNext(s, Over(row, s.cursor.x, s.cursor.x + k, b));
    RowNext(s, Down(row, s.cursor.x, Last(s.cols), k, b));
    RowNext(s, Up(row, s.cursor.x, Last(s.cols), k, b));
  }

  /** Rows changed only from `a` to `b`, and those marked. */
  lemma {:induction false} RangeNext(s: Screen, grid: seq<Row>, a: nat, b: nat)
    requires Inv(s) && |grid| == |s.grid| && forall y :: 0 <= y < |grid| ==> |grid[y]| == s.cols
    requires forall y :: 0 <= y < |grid| && !(a <= y <= b) ==> grid[y] == s.grid[y]
    ensures Next(s, MarkRange(s.(grid := grid), a, b))
  {
    var t := MarkRange(s.(grid := grid), a, b);
    forall y | 0 <= y < |s.grid| ensures RowMarked(s, t, y) {}
    RedrawnNext(s, t);
  }

  lemma {:induction false} LineOperations(s: Screen, n: nat)
    requires Inv(s)
    ensures Next(s, InsertLines(s, n)) && Next(s, DeleteLines(s, n)) && Next(s, ScrollDown(s, n))
  {
    hide Next, MarkRange;
    NextSelf(s);
    var k, b := Count(n, s.rows), BlankRow(s.cols);
    if s.top <= s.cursor.y <= s.bottom {
      RangeNext(s, Down(s.grid, s.cursor.y, s.bottom, k, b), s.cursor.y, s.bottom);
      RangeNext(s, Up(s.grid, s.cursor.y, s.bottom, k, b), s.cursor.y, s.bottom);
    }
    RangeNext(s, Down(s.grid, s.top, s.bottom, k, b), s.top, s.bottom);
  }

  lemma {:induction false} EraseRowsNext(s: Screen, a: nat, b: nat)
    requires Inv(s)
    ensures Next(s, EraseRows(s, a, b))
  {
    var grid := Over(s.grid, a, b, BlankRow(s.cols));
    if a < b {
      RangeNext(s, grid, a, b - 1);
    } else {
      assert grid == s.grid;
    }
  }

  lemma {:induction false} DisplayNext(s: Screen, mode: nat)
    requires Inv(s)
    ensures Next(s, EraseInDisplay(s, mode))
  {
    hide Next, EraseRows, EraseInLine;
    if mode <= 1 {
      var t := EraseInLine(s, mode);
      RowOperations(s, mode);
      assert Inv(t) && t.rows == s.rows by { NextInv(s, t); }
      EraseRowsNext(t, if mode == 0 then s.cursor.y + 1 else 0, if mode == 0 then s.rows else s.cursor.y);
      NextTrans(s, t, EraseInDisplay(s, mode));
    } else {
      var t := if mode == 3 then s.(scrollback := []) else s;
      HistoryCleared(s);
      EraseRowsNext(t, 0, s.rows);
      NextTrans(s, t, EraseInDisplay(s, mode));
    }
  }

  lemma {:induction false} NextInv(s: Screen, t: Screen)
    requires Next(s, t)
    ensures Inv(t) && (SavedFits(s) ==> SavedFits(t)) && t.rows == s.rows && t.cols == s.cols
  {}

  lemma {:induction false} HistoryCleared(s: Screen)
    requires Inv(s)
    ensures Inv(s.(scrollback := [])) && Next(s, s.(scrollback := [])) && Next(s, s)
  {}

  // ------------------------------------------------------------------ scrolling and printing

  lemma {:induction false} ArchiveNext(s: Screen, rows: seq<Row>)
    requires Inv(s)
    ensures Next(s, Archive(s, rows)) && Archive(s, rows).grid == s.grid
  {
    ArchiveKeeps(s, rows);
  }

  lemma {:induction false} ScrollUpNext(s: Screen, n: nat)
    requires Inv(s)
    ensures Next(s, ScrollUp(s, n)) && Lost(ScrollUp(s, n)) == Lost(s)
  {
    var k := Count(n, s.rows);
    var a := if s.top == 0 then Archive(s, Leaving(s, k)) else s;
    ArchiveNext(s, Leaving(s, k));
    ArchiveKeeps(s, Leaving(s, k));
    NextSelf(s);
    assert Next(s, a) && a.grid == s.grid;
    RangeNext(a, Up(s.grid, s.top, s.bottom, k, BlankRow(s.cols)), s.top, s.bottom);
    NextTrans(s, a, ScrollUp(s, n));
  }

  lemma {:induction false} UpIsTape<T>(g: seq<T>, h: nat, k: nat, v: T)
    requires 0 < h <= |g|
    ensures Up(g, 0, h - 1, k, v)[..h] == (g[..h] + Fill(k, v))[k..]
  {}

  /** While the bounds allow, the rows that leave the screen are all kept. */
  lemma {:induction false} ScrolledOff(s: Screen, n: nat)
    requires s.top == 0
    requires var more := s.scrollback + Leaving(s, Count(n, s.rows));
      |more| <= MAX_SCROLLBACK && Lost(s) + Total(more) <= MAX_SCROLLBACK_CELLS
    ensures ScrollUp(s, n).scrollback == s.scrollback + Leaving(s, Count(n, s.rows))
    ensures ScrollUp(s, n).grid == Up(s.grid, s.top, s.bottom, Count(n, s.rows), BlankRow(s.cols))
  {
    hide Leaving, Up, MarkRange, BlankRow;
    var k := Count(n, s.rows);
    var a := Archive(s, Leaving(s, k));
    MarkedGrid(a.(grid := Up(s.grid, 0, s.bottom, k, BlankRow(s.cols))), s.top, s.bottom);
  }

  lemma {:induction false} MarkedGrid(s: Screen, a: nat, b: nat)
    ensures MarkRange(s, a, b).grid == s.grid && MarkRange(s, a, b).scrollback == s.scrollback
  {}

  lemma {:induction false} LeavingIsTape(s: Screen, k: nat)
    requires s.top == 0 && s.bottom + 1 <= |s.grid|
    ensures Leaving(s, k) == (s.grid[..s.bottom + 1] + Fill(k, BlankRow(s.cols)))[..k]
  {}

  /**
   * Scrolling a region that begins at the top moves a tape: while the bounds allow, what is off the screen followed by
   * the region is afterwards the same rows followed by blank ones.
   */
  lemma {:induction false} TapeMoves(s: Screen, n: nat)
    requires Inv(s) && s.top == 0
    requires var more := s.scrollback + Leaving(s, Count(n, s.rows));
      |more| <= MAX_SCROLLBACK && Lost(s) + Total(more) <= MAX_SCROLLBACK_CELLS
    ensures var t, h := ScrollUp(s, n), s.bottom + 1;
      t.scrollback + t.grid[..h] == s.scrollback + s.grid[..h] + Fill(Count(n, s.rows), BlankRow(s.cols))
  {
    hide Leaving, Up, ScrollUp, BlankRow, History, Placed;
    var k, h, b := Count(n, s.rows), s.bottom + 1, BlankRow(s.cols);
    var tape := s.grid[..h] + Fill(k, b);
    ScrolledOff(s, n);
    LeavingIsTape(s, k);
    UpIsTape(s.grid, h, k, b);
    assert s.scrollback + tape[..k] + tape[k..] == s.scrollback + tape == s.scrollback + s.grid[..h] + Fill(k, b);
  }

  lemma {:induction false} FeedNext(s: Screen)
    requires Inv(s)
    ensures Next(s, LineFeedScroll(s)) && Lost(LineFeedScroll(s)) == Lost(s)
  {
    if s.cursor.y == s.bottom {
      ScrollUpNext(s, 1);
    } else {
      MovedNext(s, LineFeedScroll(s));
    }
  }

  lemma {:induction false} LinesNext(s: Screen)
    requires Inv(s)
    ensures Next(s, LineFeed(s)) && Next(s, NextLine(s)) && Next(s, ReverseIndex(s))
  {
    FeedNext(s);
    MovedNext(LineFeedScroll(s), LineFeed(s));
    NextTrans(s, LineFeedScroll(s), LineFeed(s));
    MovedNext(s, CarriageReturn(s));
    FeedNext(CarriageReturn(s));
    NextTrans(s, CarriageReturn(s), NextLine(s));
    if s.cursor.y == s.top { LineOperations(s, 1); } else { MovedNext(s, ReverseIndex(s)); }
  }

  lemma {:induction false} WrappedNext(s: Screen)
    requires Inv(s)
    ensures Next(s, Wrapped(s)) && Lost(Wrapped(s)) == Lost(s)
  {
    NextSelf(s);
    if s.wrapNext {
      var a := AtX(s, 0);
      var b := LineFeedScroll(a);
      MovedNext(s, a);
      FeedNext(a);
      NextTrans(s, a, b);
      MovedNext(b, Settled(b));
      NextTrans(s, b, Settled(b));
    }
  }

  lemma {:induction false} PutNext(s: Screen, ch: Text)
    requires Inv(s)
    ensures Next(s, Put(s, ch)) && Lost(Put(s, ch)) == Lost(s)
  {
    WrappedNext(s);
    var w := Wrapped(s);
    var row := CursorRow(w)[w.cursor.x := Cell(ch, w.pen)];
    RowNext(w, row);
    MovedNext(WithRow(w, row), Put(s, ch));
    NextTrans(w, WithRow(w, row), Put(s, ch));
    NextTrans(s, w, Put(s, ch));
  }

  lemma {:induction false} PutAllNext(s: Screen, chars: seq<Text>)
    requires Inv(s)
    ensures Next(s, PutAll(s, chars)) && Lost(PutAll(s, chars)) == Lost(s)
    decreases |chars|
  {
    if chars == [] {
      NextSelf(s);
    } else {
      PutNext(s, chars[0]);
      PutAllNext(Put(s, chars[0]), chars[1..]);
      NextTrans(s, Put(s, chars[0]), PutAll(s, chars));
    }
  }

  // ------------------------------------------------------------------ the rest

  lemma {:induction false} SettingsNext(s: Screen, t: nat, b: nat, ps: seq<Param>, priv: bool, on: bool)
    requires Inv(s)
    ensures Next(s, SetScrollRegion(s, t, b)) && Next(s, SetSgr(s, ps)) && Next(s, SetMode(s, ps, priv, on))
    ensures Next(s, SaveCursor(s)) && Next(s, SetTab(s)) && Next(s, Bell(s))
  {}

  lemma {:induction false} RestoreNext(s: Screen)
    requires Good(s)
    ensures Next(s, RestoreCursor(s))
  {}

  lemma {:induction false} TitleNext(s: Screen, t: Text)
    requires Inv(s)
    ensures Next(s, Title(s, t))
  {}

  lemma {:induction false} ResetNext(s: Screen)
    requires Inv(s)
    ensures Next(s, Reset(s))
  {}

  lemma {:induction false} FreshGood(cols: int, rows: int)
    ensures Good(Fresh(cols, rows))
  {}

  // ------------------------------------------------------------------ changing the size

  /** A restored cursor is on the screen exactly when the saved one is. */
  lemma {:induction false} RestoreIff(s: Screen)
    requires Inv(s)
    ensures Inv(RestoreCursor(s)) <==> SavedFits(s)
  {}

  /** Every resize keeps the screen whole; the saved cursor is still on it exactly when it fits the new size. */
  lemma {:induction false} ResizeKeeps(s: Screen, cols: int, rows: int)
    requires Inv(s)
    ensures Inv(Resize(s, cols, rows)) && Lost(Resize(s, cols, rows)) == Lost(s)
    ensures SavedFits(Resize(s, cols, rows))
       <==> (s.saved.Some? ==> s.saved.value.x < Clamp(cols, MAX_COLS) && s.saved.value.y < Clamp(rows, MAX_ROWS))
  {
    var r := Clamp(rows, MAX_ROWS);
    if r < s.rows { ArchiveKeeps(s, s.grid[..s.rows - r]); }
    assert |ResizeRows(s, r).grid| == r;
    assert forall y :: 0 <= y < r ==> |ResizeRows(s, r).grid[y]| == s.cols;
  }

  /** A saved cursor that a smaller screen leaves outside: restoring it leaves the screen. */
  lemma {:induction false} RestoredOutside()
    ensures var s := Resize(SaveCursor(CursorPos(Fresh(80, 24), 24, 80)), 40, 10);
      Inv(s) && !Inv(RestoreCursor(s))
  {
    FreshGood(80, 24);
    ControlsMove(Fresh(80, 24), 24, 80);
    var a := CursorPos(Fresh(80, 24), 24, 80);
    SettingsNext(a, 0, 0, [], false, false);
    ResizeKeeps(SaveCursor(a), 40, 10);
    RestoreIff(Resize(SaveCursor(a), 40, 10));
  }

  // ------------------------------------------------------------------ the counter of cells

  /** The counter is the sum of the kept rows. */
  predicate Exact(s: Screen) { s.cells == Total(s.scrollback) }

  /** Erasing the scrollback leaves its cells in the counter, so it is exact afterwards only if there were none. */
  lemma {:induction false} EraseLoses(s: Screen, mode: nat)
    requires Inv(s)
    ensures Lost(EraseInDisplay(s, mode)) == Lost(s) + if mode == 3 then Total(s.scrollback) else 0
    ensures Exact(EraseInDisplay(s, mode)) <==> Exact(s) && (mode == 3 ==> Total(s.scrollback) == 0)
  {}

  /** With the counter full when the scrollback is erased, no row of the screen is ever kept again. */
  lemma {:induction false} NothingKept(s: Screen, rows: seq<Row>)
    requires Inv(s) && s.scrollback == [] && s.cells == MAX_SCROLLBACK_CELLS && forall r :: r in rows ==> r != []
    ensures Archive(s, rows) == s
    decreases |rows|
  {
    if rows != [] {
      assert rows[0] in rows && [] + rows == rows;
      assert forall r :: r in rows[1..] ==> r in rows;
      NothingKept(s, rows[1..]);
      assert [] + rows[1..] == rows[1..];
    }
  }

  /** A row that was printed is the one shown before the cursor. */
  function Shown(s: Screen): nat { if s.wrapNext then s.cursor.x else Last(s.cursor.x) }

  lemma {:induction false} PutShows(s: Screen, ch: Text)
    requires Inv(s)
    ensures var t := Put(s, ch);
      t.cursor.y < |t.grid| && Shown(t) < |t.grid[t.cursor.y]| && t.grid[t.cursor.y][Shown(t)].ch == ch
  {
    WrappedNext(s);
  }
}
