/** What each operation on the screen does, cell by cell. */
module ScreenMeaning {
  // runtime/hermit/src/renderer/vt/screen.js. Said on the fields of the screen before and after, for a screen that is
  // in bounds.

  import opened Common
  import opened Utf16
  import opened ScreenModel
  import opened ScreenSafety

  // ------------------------------------------------------------------ the cursor alone

  /** Nothing but the place of the cursor, and a line that was full is so no more. */
  predicate WentTo(s: Screen, t: Screen, x: int, y: int) {
    && x >= 0 && y >= 0
    && t == s.(cursor := Cursor(x, y, s.cursor.visible), wrapNext := false)
  }

  function Lower(a: int, b: int): int { if a < b then a else b }

  function Higher(a: int, b: int): int { if a > b then a else b }

  /** A count of zero is one. */
  function Steps(n: nat): nat { if n == 0 then 1 else n }

  lemma {:induction false} MotionsMean(s: Screen, n: nat, m: nat)
    requires Inv(s)
    ensures var x, y, p := s.cursor.x, s.cursor.y, Steps(n);
      && WentTo(s, CursorUp(s, n), x, Higher(s.top, y - p))
      && WentTo(s, CursorDown(s, n), x, Lower(s.bottom, y + p))
      && WentTo(s, CursorForward(s, n), Lower(s.cols - 1, x + p), y)
      && WentTo(s, CursorBack(s, n), Higher(0, x - p), y)
      && WentTo(s, CursorNextLine(s, n), 0, Lower(s.bottom, y + p))
      && WentTo(s, CursorPrevLine(s, n), 0, Higher(s.top, y - p))
      && WentTo(s, CursorCol(s, n), Lower(s.cols - 1, p - 1), y)
      && WentTo(s, CursorLine(s, n), x, Lower(s.rows - 1, p - 1))
      && WentTo(s, CursorPos(s, n, m), Lower(s.cols - 1, Steps(m) - 1), Lower(s.rows - 1, p - 1))
  {}

  // ------------------------------------------------------------------ cells

  /** A blank cell in the pen, and one in no style. */
  function Space(pen: Pen): Cell { Cell([0x20], pen) }

  const UNSTYLED := Pen(Theme, Theme, false, false, false, false, false, false, false)

  /** A count as it is taken: one at least, and no more than there is room. */
  function Taken(n: nat, room: nat): nat { Lower(Steps(n), room) }

  /** Only the cursor's row differs. */
  ghost predicate OnlyRow(s: Screen, t: Screen) {
    && t == s.(grid := t.grid, dirty := t.dirty) && |t.grid| == s.rows && s.cursor.y < s.rows == |s.grid|
    && |t.grid[s.cursor.y]| == s.cols == |s.grid[s.cursor.y]|
    && forall y :: 0 <= y < s.rows && y != s.cursor.y ==> t.grid[y] == s.grid[y]
  }

  /** In the cursor's row the columns from `a` up to `b` are blank in the pen, and no other cell differs. */
  ghost predicate Blanked(s: Screen, t: Screen, a: nat, b: nat) {
    && OnlyRow(s, t)
    && forall x :: 0 <= x < s.cols ==>
         t.grid[s.cursor.y][x] == if a <= x < b then Space(s.pen) else s.grid[s.cursor.y][x]
  }

  /** The cells from the cursor on move `k` to the right; blank ones come in, what leaves the row is lost. */
  ghost predicate PushedRight(s: Screen, t: Screen, k: nat) {
    OnlyRow(s, t) && forall x: nat :: x < s.cols ==> PushedAt(s.grid[s.cursor.y], t.grid[s.cursor.y], s, k, x)
  }

  predicate PushedAt(was: Row, row: Row, s: Screen, k: nat, x: nat)
    requires x < |was| == |row|
  {
    row[x] == if x < s.cursor.x then was[x] else if x < s.cursor.x + k then Space(s.pen) else was[x - k]
  }

  /** The `k` cells at the cursor are gone, the rest of the row moves up to it, and blank ones follow. */
  ghost predicate PulledLeft(s: Screen, t: Screen, k: nat) {
    OnlyRow(s, t) && forall x: nat :: x < s.cols ==> PulledAt(s.grid[s.cursor.y], t.grid[s.cursor.y], s, k, x)
  }

  predicate PulledAt(was: Row, row: Row, s: Screen, k: nat, x: nat)
    requires x < |was| == |row|
  {
    row[x] == if x < s.cursor.x then was[x] else if x + k < |was| then was[x + k] else Space(s.pen)
  }

  /** The row of the cursor replaced by one of the same length. */
  lemma {:induction false} RowReplaced(s: Screen, row: Row)
    requires Inv(s) && |row| == s.cols
    ensures OnlyRow(s, WithRow(s, row)) && WithRow(s, row).grid[s.cursor.y] == row
  {}

  lemma {:induction false} BlankedMeans(s: Screen, a: nat, b: nat)
    requires Inv(s)
    ensures Blanked(s, WithRow(s, Over(CursorRow(s), a, b, Blank(s.pen))), a, b)
  {
    RowReplaced(s, Over(CursorRow(s), a, b, Blank(s.pen)));
    hide WithRow, OnlyRow;
  }

  lemma {:induction false} ErasedMeans(s: Screen, n: nat)
    requires Inv(s)
    ensures Blanked(s, EraseInLine(s, 0), s.cursor.x, s.cols) && Blanked(s, EraseInLine(s, 1), 0, s.cursor.x + 1)
    ensures n >= 2 ==> Blanked(s, EraseInLine(s, n), 0, s.cols)
    ensures Blanked(s, EraseChars(s, n), s.cursor.x, s.cursor.x + Taken(n, s.cols))
  {
    hide Blanked, WithRow, Over, CursorRow;
    BlankedMeans(s, s.cursor.x, s.cols);
    BlankedMeans(s, 0, s.cursor.x + 1);
    BlankedMeans(s, 0, s.cols);
    BlankedMeans(s, s.cursor.x, s.cursor.x + Count(n, s.cols));
  }

  lemma {:induction false} ShiftedMeans(s: Screen, n: nat)
    requires Inv(s)
    ensures PushedRight(s, InsertChars(s, n), Taken(n, s.cols)) && PulledLeft(s, DeleteChars(s, n), Taken(n, s.cols))
  {
    var k, row := Taken(n, s.cols), s.grid[s.cursor.y];
    assert CursorRow(s) == row && |row| == s.cols && s.cursor.x <= Last(s.cols) < s.cols;
    var right := Down(row, s.cursor.x, Last(s.cols), k, Blank(s.pen));
    var left := Up(row, s.cursor.x, Last(s.cols), k, Blank(s.pen));
    RowReplaced(s, right);
    RowReplaced(s, left);
    forall x: nat | x < s.cols ensures PushedAt(row, right, s, k, x) && PulledAt(row, left, s, k, x) {}
    hide WithRow, OnlyRow, PushedAt, PulledAt, Inv;
  }

  // ------------------------------------------------------------------ rows

  /** A row without anything on it. */
  predicate Empty(row: Row, cols: nat) { |row| == cols && forall x :: 0 <= x < cols ==> row[x] == Space(UNSTYLED) }

  /** Nothing but rows. */
  predicate OnlyRows(s: Screen, t: Screen) {
    t == s.(grid := t.grid, dirty := t.dirty) && |t.grid| == |s.grid| == s.rows
  }

  /** The rows from `a` to `b` move `k` up, empty ones follow them, and no other row differs. */
  ghost predicate RowsUp(s: Screen, t: Screen, a: nat, b: nat, k: nat) {
    && |t.grid| == |s.grid|
    && forall y :: 0 <= y < |s.grid| ==>
         if y < a || y > b then t.grid[y] == s.grid[y]
         else if y + k <= b then y + k < |s.grid| && t.grid[y] == s.grid[y + k]
         else Empty(t.grid[y], s.cols)
  }

  /** They move `k` down, with empty ones before them. */
  ghost predicate RowsDown(s: Screen, t: Screen, a: nat, b: nat, k: nat) {
    && |t.grid| == |s.grid|
    && forall y :: 0 <= y < |s.grid| ==>
         if y < a || y > b then t.grid[y] == s.grid[y]
         else if y < a + k then Empty(t.grid[y], s.cols)
         else 0 <= y - k && t.grid[y] == s.grid[y - k]
  }

  lemma {:induction false} BlankIsEmpty(cols: nat)
    ensures Empty(BlankRow(cols), cols)
  {}

  lemma {:induction false} UpMeans(s: Screen, t: Screen, a: nat, b: nat, k: nat)
    requires a <= b < |s.grid| && t.grid == Up(s.grid, a, b, k, BlankRow(s.cols))
    ensures RowsUp(s, t, a, b, k)
  {
    BlankIsEmpty(s.cols);
    hide Empty, BlankRow;
  }

  lemma {:induction false} DownMeans(s: Screen, t: Screen, a: nat, b: nat, k: nat)
    requires a <= b < |s.grid| && t.grid == Down(s.grid, a, b, k, BlankRow(s.cols))
    ensures RowsDown(s, t, a, b, k)
  {
    BlankIsEmpty(s.cols);
    hide Empty, BlankRow;
  }

  /** Outside the region a line is neither inserted nor deleted; inside, the rows from the cursor to its end move. */
  lemma {:induction false} LinesMean(s: Screen, n: nat)
    requires Inv(s)
    ensures var inside, k := s.top <= s.cursor.y <= s.bottom, Taken(n, s.rows);
      && (!inside ==> InsertLines(s, n) == s && DeleteLines(s, n) == s)
      && (inside ==> OnlyRows(s, InsertLines(s, n)) && RowsDown(s, InsertLines(s, n), s.cursor.y, s.bottom, k))
      && (inside ==> OnlyRows(s, DeleteLines(s, n)) && RowsUp(s, DeleteLines(s, n), s.cursor.y, s.bottom, k))
      && OnlyRows(s, ScrollDown(s, n)) && RowsDown(s, ScrollDown(s, n), s.top, s.bottom, k)
  {
    var k := Taken(n, s.rows);
    assert k == Count(n, s.rows);
    hide RowsUp, RowsDown, Up, Down;
    if s.top <= s.cursor.y <= s.bottom {
      DownMeans(s, InsertLines(s, n), s.cursor.y, s.bottom, k);
      UpMeans(s, DeleteLines(s, n), s.cursor.y, s.bottom, k);
    }
    DownMeans(s, ScrollDown(s, n), s.top, s.bottom, k);
  }

  /**
   * The region moves up by `k`. What leaves it at the top of the screen goes behind the rows kept from before, all of
   * it while the bounds allow; below the top of the screen nothing is kept.
   */
  ghost predicate Scrolled(s: Screen, t: Screen, k: nat) {
    && t == s.(grid := t.grid, dirty := t.dirty, scrollback := t.scrollback, cells := t.cells)
    && RowsUp(s, t, s.top, s.bottom, k)
    && (s.top > 0 ==> t.scrollback == s.scrollback && t.cells == s.cells)
    && (s.top == 0 && |s.scrollback| + k <= 5000 && s.cells + k * s.cols <= 2000000 ==> Kept(s, t, k))
  }

  /** The rows that left, in their order, are the last ones kept. */
  ghost predicate Kept(s: Screen, t: Screen, k: nat) {
    && |t.scrollback| == |s.scrollback| + k && t.scrollback[..|s.scrollback|] == s.scrollback
    && t.cells == s.cells + k * s.cols
    && forall i :: 0 <= i < k ==>
         if i <= s.bottom && i < |s.grid| then t.scrollback[|s.scrollback| + i] == s.grid[i]
         else Empty(t.scrollback[|s.scrollback| + i], s.cols)
  }

  lemma {:induction false} TotalOfSame(rows: seq<Row>, cols: nat)
    requires forall i :: 0 <= i < |rows| ==> |rows[i]| == cols
    ensures Total(rows) == |rows| * cols
    decreases |rows|
  {
    if rows != [] {
      TotalOfSame(rows[1..], cols);
      assert (|rows| - 1) * cols + cols == |rows| * cols;
    }
  }

  lemma {:induction false} LeavingRows(s: Screen, k: nat)
    requires Inv(s)
    ensures |Leaving(s, k)| == k && Total(Leaving(s, k)) == k * s.cols
    ensures s.top == 0 ==> forall i :: 0 <= i < k ==>
      if i <= s.bottom && i < |s.grid| then Leaving(s, k)[i] == s.grid[i] else Empty(Leaving(s, k)[i], s.cols)
  {
    var r := Leaving(s, k);
    BlankIsEmpty(s.cols);
    hide Empty;
    assert |BlankRow(s.cols)| == s.cols;
    var h := s.bottom + 1 - s.top;
    forall i | 0 <= i < k
      ensures if i < h then r[i] == s.grid[s.top + i] else r[i] == BlankRow(s.cols)
    {
      assert r[i] == (s.grid[s.top..s.bottom + 1] + Fill(k, BlankRow(s.cols)))[i];
    }
    hide Leaving, BlankRow;
    assert forall i :: 0 <= i < k ==> |r[i]| == s.cols;
    TotalOfSame(r, s.cols);
  }

  lemma {:induction false} ScrollMeans(s: Screen, n: nat)
    requires Inv(s)
    ensures Scrolled(s, ScrollUp(s, n), Taken(n, s.rows))
  {
    var k, t := Taken(n, s.rows), ScrollUp(s, n);
    assert k == Count(n, s.rows);
    UpMeans(s, t, s.top, s.bottom, k);
    if s.top == 0 {
      var out := Leaving(s, k);
      var a := Archive(s, out);
      ArchiveKeeps(s, out);
      LeavingRows(s, k);
      TotalAppend(s.scrollback, out);
      hide Leaving, RowsUp, Empty, Retain;
      if |s.scrollback| + k <= 5000 && s.cells + k * s.cols <= 2000000 {
        AllKept(s, out, k);
      }
    }
  }

  lemma {:induction false} AllKept(s: Screen, out: seq<Row>, k: nat)
    requires |out| == k && Total(out) == k * s.cols && History(s)
    requires |s.scrollback| + k <= 5000 && s.cells + k * s.cols <= 2000000
    ensures Archive(s, out) == s.(scrollback := s.scrollback + out, cells := s.cells + k * s.cols)
  {
    TotalAppend(s.scrollback, out);
  }

  // ------------------------------------------------------------------ the display

  /** The rows from `a` up to `b` are empty. */
  predicate RowsEmpty(t: Screen, cols: nat, a: nat, b: nat) {
    forall y :: a <= y < b && y < |t.grid| ==> Empty(t.grid[y], cols)
  }

  /** From the cursor to the end, from the beginning to the cursor, all, or all and what is kept. */
  ghost predicate Cleared(s: Screen, t: Screen, mode: nat) {
    && s.cursor.y < s.rows == |s.grid| == |t.grid|
    && t == s.(grid := t.grid, dirty := t.dirty, scrollback := if mode == 3 then [] else s.scrollback)
    && (mode >= 2 ==> RowsEmpty(t, s.cols, 0, s.rows))
    && (mode == 0 ==>
          && RowsEmpty(t, s.cols, s.cursor.y + 1, s.rows)
          && (forall y :: 0 <= y < s.cursor.y ==> t.grid[y] == s.grid[y]) && RowFrom(s, t, s.cursor.x, s.cols))
    && (mode == 1 ==>
          && RowsEmpty(t, s.cols, 0, s.cursor.y)
          && (forall y :: s.cursor.y < y < s.rows ==> t.grid[y] == s.grid[y]) && RowFrom(s, t, 0, s.cursor.x + 1))
  }

  /** In the cursor's row the columns from `a` up to `b` are blank in the pen. */
  ghost predicate RowFrom(s: Screen, t: Screen, a: nat, b: nat) {
    && s.cursor.y < |s.grid| && s.cursor.y < |t.grid|
    && |t.grid[s.cursor.y]| == s.cols == |s.grid[s.cursor.y]|
    && forall x :: 0 <= x < s.cols ==>
         t.grid[s.cursor.y][x] == if a <= x < b then Space(s.pen) else s.grid[s.cursor.y][x]
  }

  lemma {:induction false} DisplayMeans(s: Screen, mode: nat)
    requires Inv(s)
    ensures Cleared(s, EraseInDisplay(s, mode), mode)
  {
    ErasedMeans(s, mode);
    if mode <= 1 {
      var u := EraseInLine(s, mode);
      EmptyRows(u, if mode == 0 then s.cursor.y + 1 else 0, if mode == 0 then s.rows else s.cursor.y);
    } else {
      EmptyRows(if mode == 3 then s.(scrollback := []) else s, 0, s.rows);
    }
  }

  lemma {:induction false} EmptyRows(s: Screen, a: nat, b: nat)
    ensures var t := EraseRows(s, a, b);
      && t == s.(grid := t.grid, dirty := t.dirty) && |t.grid| == |s.grid| && RowsEmpty(t, s.cols, a, b)
      && forall y :: 0 <= y < |s.grid| && !(a <= y < b) ==> t.grid[y] == s.grid[y]
  {
    BlankIsEmpty(s.cols);
  }

  // ------------------------------------------------------------------ lines

  /** One line down: the region scrolls when the cursor is on its last row. */
  ghost predicate LineDown(s: Screen, t: Screen) {
    if s.cursor.y == s.bottom then Scrolled(s, t, 1)
    else if s.cursor.y + 1 < s.rows then t == s.(cursor := Cursor(s.cursor.x, s.cursor.y + 1, s.cursor.visible))
    else t == s
  }

  /** One line up: the region moves down when the cursor is on its first row. */
  ghost predicate LineUp(s: Screen, t: Screen) {
    if s.cursor.y == s.top then OnlyRows(s, t) && RowsDown(s, t, s.top, s.bottom, 1)
    else if s.cursor.y > 0 then t == s.(cursor := Cursor(s.cursor.x, s.cursor.y - 1, s.cursor.visible))
    else t == s
  }

  lemma {:induction false} FeedsMean(s: Screen)
    requires Inv(s)
    ensures LineDown(s, LineFeedScroll(s)) && LineUp(s, ReverseIndex(s))
    ensures NextLine(s) == LineFeedScroll(s.(cursor := Cursor(0, s.cursor.y, s.cursor.visible), wrapNext := false))
    ensures LineFeed(s) == LineFeedScroll(s).(wrapNext := false)
  {
    hide Scrolled, RowsDown, OnlyRows;
    ScrollMeans(s, 1);
    LinesMean(s, 1);
  }

  /** A region of at least two rows that is on the screen is set, with the cursor at its beginning; any other is not. */
  ghost predicate RegionSet(s: Screen, t: Screen, first: nat, last: nat) {
    if Steps(first) < (if last == 0 then s.rows else last) <= s.rows then
      t == s.(top := Steps(first) - 1, bottom := (if last == 0 then s.rows else last) - 1,
              cursor := Cursor(0, Steps(first) - 1, s.cursor.visible))
    else t == s
  }

  lemma {:induction false} RegionMeans(s: Screen, first: nat, last: nat)
    requires Inv(s)
    ensures RegionSet(s, SetScrollRegion(s, first, last), first, last)
  {}

  // ------------------------------------------------------------------ another size

  /** A size as it is taken. */
  function Within(n: int, most: int): int { if n < 1 then 1 else if n > most then most else n }

  /** What stood `gone` rows further down and within the old width is there; everything else is empty. */
  predicate CellAfter(s: Screen, t: Screen, gone: nat, y: nat, x: nat)
    requires y < |t.grid| && x < |t.grid[y]| && |s.grid| == s.rows
    requires forall r :: 0 <= r < |s.grid| ==> |s.grid[r]| == s.cols
  {
    t.grid[y][x] == if y + gone < s.rows && x < s.cols then s.grid[y + gone][x] else Space(UNSTYLED)
  }

  /**
   * A new size, within the bounds on sizes: when there are fewer rows the topmost leave the screen; rows and columns
   * that are new are empty. The region is the whole screen, the tab stops are those of a new one, and the cursor is
   * where it was or at the edge.
   */
  ghost predicate Resized(s: Screen, t: Screen, c: int, r: int) {
    && Sized(s) && Sized(t) && t.cols == c && t.rows == r
    && var gone := if r < s.rows then s.rows - r else 0;
    && (forall y: nat, x: nat :: y < r && x < c ==> CellAfter(s, t, gone, y, x))
    && t.cursor == Cursor(Lower(s.cursor.x, c - 1), Lower(s.cursor.y, r - 1), s.cursor.visible)
    && t.top == 0 && t.bottom == r - 1 && (forall x: nat :: x in t.tabs <==> x < c && x % 8 == 0)
    && t.pen == s.pen && t.saved == s.saved && t.wrapNext == s.wrapNext
    && t.bells == s.bells && t.titles == s.titles
    && (|s.scrollback| + gone <= 5000 && s.cells + gone * s.cols <= 2000000 ==>
          t.scrollback == s.scrollback + s.grid[..gone] && t.cells == s.cells + gone * s.cols)
  }

  lemma {:induction false} RowsResized(s: Screen, r: nat)
    requires Inv(s) && 1 <= r <= MAX_ROWS
    ensures var t, gone := ResizeRows(s, r), if r < s.rows then s.rows - r else 0;
      && t == s.(rows := r, grid := t.grid, scrollback := t.scrollback, cells := t.cells) && |t.grid| == r
      && (forall y :: 0 <= y < r ==> if y + gone < s.rows then t.grid[y] == s.grid[y + gone]
                                     else t.grid[y] == BlankRow(s.cols))
      && (|s.scrollback| + gone <= 5000 && s.cells + gone * s.cols <= 2000000 ==>
            t.scrollback == s.scrollback + s.grid[..gone] && t.cells == s.cells + gone * s.cols)
  {
    if r < s.rows {
      var out := s.grid[..s.rows - r];
      ArchiveKeeps(s, out);
      TotalOfSame(out, s.cols);
      hide Retain, Total;
      if |s.scrollback| + |out| <= 5000 && s.cells + |out| * s.cols <= 2000000 { AllKept(s, out, |out|); }
    } else {
      assert s.scrollback + s.grid[..0] == s.scrollback;
    }
  }

  lemma {:induction false} FitMeans(row: Row, was: nat, cols: nat, x: nat)
    requires |row| == was && x < cols
    ensures |Fit(row, was, cols)| == cols && Fit(row, was, cols)[x] == if x < was then row[x] else Space(UNSTYLED)
  {}

  lemma {:induction false} ResizeMeans(s: Screen, cols: int, rows: int)
    requires Inv(s)
    ensures Resized(s, Resize(s, cols, rows), Within(cols, 400), Within(rows, 200))
  {
    var c, r := Within(cols, 400), Within(rows, 200);
    assert c == Clamp(cols, MAX_COLS) && r == Clamp(rows, MAX_ROWS);
    var u, t := ResizeRows(s, r), Resize(s, cols, rows);
    var gone := if r < s.rows then s.rows - r else 0;
    RowsResized(s, r);
    ResizeKeeps(s, cols, rows);
    BlankIsEmpty(s.cols);
    hide ResizeRows, Archive, Fit;
    assert t.grid == FitAll(u.grid, s.cols, c);
    forall y: nat, x: nat | y < r && x < c ensures CellAfter(s, t, gone, y, x) {
      assert t.grid[y] == Fit(u.grid[y], s.cols, c);
      FitMeans(u.grid[y], s.cols, c, x);
    }
  }
}
