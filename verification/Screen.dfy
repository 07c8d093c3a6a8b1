/** The screen as the object that holds it: every operation, with its loops, against what it must leave. */
module TerminalScreen {
  import opened Common
  import opened Utf16
  import opened ScreenModel
  import opened ScreenSafety
  import M = ScreenModel

  // ------------------------------------------------------------------ splices

  /** `s.splice(i, 1)` */
  function Removed<T>(s: seq<T>, i: nat): seq<T>
    requires i < |s|
  {
    s[..i] + s[i + 1..]
  }

  /** `s.splice(i, 0, v)` */
  function Inserted<T>(s: seq<T>, i: nat, v: T): seq<T>
    requires i <= |s|
  {
    s[..i] + [v] + s[i..]
  }

  lemma {:induction false} SpliceUp<T>(s: seq<T>, lo: nat, hi: nat, v: T)
    requires lo <= hi < |s|
    ensures Inserted(Removed(s, lo), hi, v) == Up(s, lo, hi, 1, v)
  {}

  lemma {:induction false} SpliceDown<T>(s: seq<T>, lo: nat, hi: nat, v: T)
    requires lo <= hi < |s|
    ensures Inserted(Removed(s, hi), lo, v) == Down(s, lo, hi, 1, v)
  {}

  lemma {:induction false} PopDown<T>(s: seq<T>, x: nat, v: T)
    requires x < |s|
    ensures Inserted(s, x, v)[..|s|] == Down(s, x, |s| - 1, 1, v)
  {}

  lemma {:induction false} PushUp<T>(s: seq<T>, x: nat, v: T)
    requires x < |s|
    ensures Removed(s, x) + [v] == Up(s, x, |s| - 1, 1, v)
  {}

  lemma {:induction false} UpMore<T>(s: seq<T>, lo: nat, hi: nat, k: nat, v: T)
    ensures Up(Up(s, lo, hi, k, v), lo, hi, 1, v) == Up(s, lo, hi, k + 1, v)
  {}

  lemma {:induction false} DownMore<T>(s: seq<T>, lo: nat, hi: nat, k: nat, v: T)
    ensures Down(Down(s, lo, hi, k, v), lo, hi, 1, v) == Down(s, lo, hi, k + 1, v)
  {}

  lemma {:induction false} NoMove<T>(s: seq<T>, lo: nat, hi: nat, v: T)
    ensures Up(s, lo, hi, 0, v) == s && Down(s, lo, hi, 0, v) == s
  {}

  /** The row that the next step of a scroll removes. */
  lemma {:induction false} NextLeaving(s: M.Screen, k: nat, i: nat)
    requires s.top <= s.bottom < |s.grid| && i < k
    ensures |Leaving(s, k)| == k
    ensures Up(s.grid, s.top, s.bottom, i, M.BlankRow(s.cols))[s.top] == Leaving(s, k)[i]
  {}

  lemma {:induction false} InvParts(s: M.Screen)
    requires Inv(s)
    ensures s.top <= s.bottom < |s.grid| && History(s)
  {}

  /** One step of a scroll. */
  function OneScrolled(s: M.Screen): M.Screen
    requires s.top < |s.grid|
  {
    var a := if s.top == 0 then Archive(s, [s.grid[s.top]]) else s;
    a.(grid := Up(s.grid, s.top, s.bottom, 1, M.BlankRow(s.cols)))
  }

  /** After `i` of `k` steps. */
  function Scrolled(s: M.Screen, k: nat, i: nat): M.Screen {
    var rows := Leaving(s, k);
    var a := if s.top == 0 then Archive(s, if i <= |rows| then rows[..i] else rows) else s;
    a.(grid := Up(s.grid, s.top, s.bottom, i, M.BlankRow(s.cols)))
  }

  lemma {:induction false} NothingArchived(s: M.Screen)
    requires History(s)
    ensures Archive(s, []) == s
  {
    assert s.scrollback + [] == s.scrollback;
  }

  lemma {:induction false} NothingScrolled(s: M.Screen, k: nat)
    requires s.top <= s.bottom < |s.grid| && History(s)
    ensures Scrolled(s, k, 0) == s
  {
    hide Archive, Leaving;
    NothingArchived(s);
    NoMove(s.grid, s.top, s.bottom, M.BlankRow(s.cols));
  }

  lemma {:induction false} ArchiveMore(s: M.Screen, rows: seq<Row>, i: nat)
    requires i < |rows|
    ensures Archive(Archive(s, rows[..i]), [rows[i]]) == Archive(s, rows[..i + 1])
  {
    ArchiveTwice(s, rows[..i], [rows[i]]);
    assert rows[..i] + [rows[i]] == rows[..i + 1];
  }

  /** The grid plays no part in what is archived. */
  lemma {:induction false} ArchiveApart(s: M.Screen, g: seq<Row>, rows: seq<Row>)
    ensures Archive(s.(grid := g), rows) == Archive(s, rows).(grid := g)
  {}

  lemma {:induction false} ScrolledMore(s: M.Screen, k: nat, i: nat)
    requires s.top <= s.bottom < |s.grid| && History(s) && i < k
    ensures var t := Scrolled(s, k, i);
      t.top <= t.bottom < |t.grid| && History(t) && OneScrolled(t) == Scrolled(s, k, i + 1)
  {
    hide Leaving;
    var b, rows := M.BlankRow(s.cols), Leaving(s, k);
    NextLeaving(s, k, i);
    UpMore(s.grid, s.top, s.bottom, i, b);
    ArchiveKeeps(s, rows[..i]);
    if s.top == 0 {
      hide Archive;
      ArchiveMore(s, rows, i);
      ArchiveApart(Archive(s, rows[..i]), Up(s.grid, s.top, s.bottom, i, b), [rows[i]]);
    }
  }

  class Screen {
    var cols: nat
    var rows: nat
    var scrollbackCells: int
    var cursor: Cursor
    var saved: Option<Saved>
    var pen: Pen
    var scrollTop: nat
    var scrollBottom: nat
    var scrollback: seq<Row>
    var tabs: set<nat>
    var dirty: set<nat>
    var wrapNext: bool
    var grid: seq<Row>
    var bells: nat
    var titles: seq<Text>

    function State(): M.Screen
      reads this
    {
      M.Screen(cols, rows, grid, cursor, saved, pen, scrollTop, scrollBottom, scrollback, scrollbackCells, tabs, dirty,
               wrapNext, bells, titles)
    }

    constructor (columns: int, lines: int)
      ensures State() == Fresh(columns, lines) && Good(State())
    {
      FreshGood(columns, lines);
      var c: nat, r: nat := Clamp(columns, MAX_COLS), Clamp(lines, MAX_ROWS);
      cols, rows, scrollbackCells, cursor, saved, pen := c, r, 0, Cursor(0, 0, true), None, DEFAULT_PEN;
      scrollTop, scrollBottom, scrollback, wrapNext, bells, titles := 0, r - 1, [], false, 0, [];
      grid, tabs, dirty := [], {}, {};
      new;
      InitGrid();
      ResetTabs();
      MarkAllDirty();
      assert dirty == Between(0, rows);
    }

    // ---------------------------------------------------------------- rows, tabs and marks

    method BlankRow() returns (row: Row)
      ensures row == M.BlankRow(cols)
    {
      row := [];
      for x := 0 to cols
        invariant row == Fill(x, Blank(DEFAULT_PEN))
      {
        row := row + [Blank(DEFAULT_PEN)];
      }
    }

    method InitGrid()
      modifies `grid
      ensures grid == Fill(rows, M.BlankRow(cols))
    {
      grid := [];
      for y := 0 to rows
        invariant grid == Fill(y, M.BlankRow(cols))
      {
        var row := BlankRow();
        grid := grid + [row];
      }
    }

    method ResetTabs()
      modifies `tabs
      ensures tabs == TabStops(cols)
    {
      tabs := {};
      var x := 0;
      while x < cols
        invariant x % 8 == 0
        invariant forall t: nat :: t in tabs <==> t < x && t < cols && t % 8 == 0
      {
        tabs := tabs + {x};
        x := x + 8;
      }
    }

    method MarkDirty(y: nat)
      modifies `dirty
      ensures State() == Mark(old(State()), y)
    {
      if y < rows { dirty := dirty + {y}; }
    }

    method MarkAllDirty()
      modifies `dirty
      ensures State() == MarkAll(old(State()))
    {
      for y := 0 to rows
        invariant dirty == old(dirty) + Between(0, y)
      {
        dirty := dirty + {y};
      }
    }

    method MarkRange(a: nat, b: nat)
      modifies `dirty
      ensures State() == M.MarkRange(old(State()), a, b)
    {
      var y := a;
      while y <= b
        invariant a <= y && (if a <= b then y <= b + 1 else y == a)
        invariant dirty == old(dirty) + Between(a, Least(y, rows))
      {
        MarkDirty(y);
        y := y + 1;
      }
      assert Between(a, Least(y, rows)) == Between(a, Least(b + 1, rows));
    }

    // ---------------------------------------------------------------- printing

    method Print(str: Text)
      requires Inv(State())
      modifies `cursor, `grid, `dirty, `wrapNext, `scrollback, `scrollbackCells
      ensures State() == PrintText(old(State()), str)
    {
      hide M.Put, Inv, Next;
      var i := 0;
      assert str[0..] == str;
      while i < |str|
        invariant i <= |str| && Inv(State())
        invariant PutAll(State(), Characters(str[i..])) == PrintText(old(State()), str)
      {
        ghost var rest := str[i..];
        var n := if Paired(str[i..]) then 2 else 1;
        assert rest[..n] == str[i..i + n] && rest[n..] == str[i + n..];
        PutNext(State(), rest[..n]);
        NextInv(State(), M.Put(State(), rest[..n]));
        FirstPut(State(), rest);
        PutChar(str[i..i + n]);
        i := i + n;
      }
    }

    lemma {:induction false} FirstPut(s: M.Screen, rest: Text)
      requires rest != []
      ensures var n := if Paired(rest) then 2 else 1;
        PutAll(s, Characters(rest)) == PutAll(M.Put(s, rest[..n]), Characters(rest[n..]))
    {
      hide M.Put;
      var n := if Paired(rest) then 2 else 1;
      assert Characters(rest) == [rest[..n]] + Characters(rest[n..]);
      assert Characters(rest)[1..] == Characters(rest[n..]);
    }

    method PutChar(ch: Text)
      requires Inv(State())
      modifies `cursor, `grid, `dirty, `wrapNext, `scrollback, `scrollbackCells
      ensures State() == M.Put(old(State()), ch)
    {
      WrappedNext(State());
      NextInv(State(), Wrapped(State()));
      Wrap();
      var y := cursor.y;
      grid := grid[y := grid[y][cursor.x := Cell(ch, pen)]];
      MarkDirty(y);
      if cursor.x + 1 >= cols { wrapNext := true; } else { cursor := cursor.(x := cursor.x + 1); }
    }

    method Wrap()
      requires Inv(State())
      modifies `cursor, `grid, `dirty, `wrapNext, `scrollback, `scrollbackCells
      ensures State() == Wrapped(old(State()))
    {
      if wrapNext {
        MovedNext(State(), AtX(State(), 0));
        cursor := cursor.(x := 0);
        LineFeedScroll();
        wrapNext := false;
      }
    }

    // ---------------------------------------------------------------- control characters

    method Bell()
      modifies `bells
      ensures State() == M.Bell(old(State()))
    {
      bells := bells + 1;
    }

    method OnTitle(t: Text)
      modifies `titles
      ensures State() == Title(old(State()), t)
    {
      titles := titles + [t];
    }

    method CarriageReturn()
      modifies `cursor, `wrapNext
      ensures State() == M.CarriageReturn(old(State()))
    {
      cursor := cursor.(x := 0);
      wrapNext := false;
    }

    method Backspace()
      modifies `cursor, `wrapNext
      ensures State() == M.Backspace(old(State()))
    {
      if cursor.x > 0 { cursor := cursor.(x := cursor.x - 1); }
      wrapNext := false;
    }

    method Tab()
      requires Inv(State())
      modifies `cursor, `wrapNext
      ensures State() == M.Tab(old(State()))
    {
      var x := cursor.x + 1;
      while x < cols && x !in tabs
        invariant x <= cols
        invariant Stop(tabs, cols, x) == Stop(tabs, cols, cursor.x + 1)
      {
        x := x + 1;
      }
      cursor := cursor.(x := Least(x, cols - 1));
      wrapNext := false;
    }

    method SetTab()
      modifies `tabs
      ensures State() == M.SetTab(old(State()))
    {
      tabs := tabs + {cursor.x};
    }

    method LineFeed()
      requires Inv(State())
      modifies `cursor, `grid, `dirty, `wrapNext, `scrollback, `scrollbackCells
      ensures State() == M.LineFeed(old(State()))
    {
      LineFeedScroll();
      wrapNext := false;
    }

    method NextLine()
      requires Inv(State())
      modifies `cursor, `grid, `dirty, `wrapNext, `scrollback, `scrollbackCells
      ensures State() == M.NextLine(old(State()))
    {
      MovedNext(State(), M.CarriageReturn(State()));
      CarriageReturn();
      LineFeedScroll();
    }

    method LineFeedScroll()
      requires Inv(State())
      modifies `cursor, `grid, `dirty, `scrollback, `scrollbackCells
      ensures State() == M.LineFeedScroll(old(State()))
    {
      if cursor.y == scrollBottom {
        ScrollUp(1);
      } else if cursor.y < rows - 1 {
        cursor := cursor.(y := cursor.y + 1);
      }
    }

    method ReverseIndex()
      requires Inv(State())
      modifies `cursor, `grid, `dirty
      ensures State() == M.ReverseIndex(old(State()))
    {
      if cursor.y == scrollTop {
        ScrollDown(1);
      } else if cursor.y > 0 {
        cursor := cursor.(y := cursor.y - 1);
      }
    }

    // ---------------------------------------------------------------- cursor motion

    method CursorUp(n: nat)
      modifies `cursor, `wrapNext
      ensures State() == M.CursorUp(old(State()), n)
    {
      var k := One(n);
      cursor := cursor.(y := if cursor.y - k >= scrollTop then cursor.y - k else scrollTop);
      wrapNext := false;
    }

    method CursorDown(n: nat)
      modifies `cursor, `wrapNext
      ensures State() == M.CursorDown(old(State()), n)
    {
      cursor := cursor.(y := Least(scrollBottom, cursor.y + One(n)));
      wrapNext := false;
    }

    method CursorForward(n: nat)
      requires Inv(State())
      modifies `cursor, `wrapNext
      ensures State() == M.CursorForward(old(State()), n)
    {
      cursor := cursor.(x := Least(cols - 1, cursor.x + One(n)));
      wrapNext := false;
    }

    method CursorBack(n: nat)
      modifies `cursor, `wrapNext
      ensures State() == M.CursorBack(old(State()), n)
    {
      cursor := cursor.(x := if cursor.x >= One(n) then cursor.x - One(n) else 0);
      wrapNext := false;
    }

    method CursorCol(n: nat)
      requires Inv(State())
      modifies `cursor, `wrapNext
      ensures State() == M.CursorCol(old(State()), n)
    {
      cursor := cursor.(x := Least(cols - 1, One(n) - 1));
      wrapNext := false;
    }

    method CursorRow(n: nat)
      requires Inv(State())
      modifies `cursor, `wrapNext
      ensures State() == CursorLine(old(State()), n)
    {
      cursor := cursor.(y := Least(rows - 1, One(n) - 1));
      wrapNext := false;
    }

    method CursorPos(row: nat, col: nat)
      requires Inv(State())
      modifies `cursor, `wrapNext
      ensures State() == M.CursorPos(old(State()), row, col)
    {
      cursor := cursor.(y := Least(rows - 1, One(row) - 1));
      cursor := cursor.(x := Least(cols - 1, One(col) - 1));
      wrapNext := false;
    }

    method CursorNextLine(n: nat)
      modifies `cursor, `wrapNext
      ensures State() == M.CursorNextLine(old(State()), n)
    {
      CursorDown(n);
      cursor := cursor.(x := 0);
    }

    method CursorPrevLine(n: nat)
      modifies `cursor, `wrapNext
      ensures State() == M.CursorPrevLine(old(State()), n)
    {
      CursorUp(n);
      cursor := cursor.(x := 0);
    }

    method SaveCursor()
      modifies `saved
      ensures State() == M.SaveCursor(old(State()))
    {
      saved := Some(Saved(cursor.x, cursor.y, pen));
    }

    method RestoreCursor()
      modifies `cursor, `pen
      ensures State() == M.RestoreCursor(old(State()))
    {
      if saved.Some? {
        cursor := cursor.(x := saved.value.x, y := saved.value.y);
        pen := saved.value.pen;
      }
    }

    // ---------------------------------------------------------------- erasing

    /** The cells from `a` up to `b` of a row, or rows of a grid, replaced one by one. */
    static method Replace<T>(s: seq<T>, a: nat, b: nat, v: T) returns (t: seq<T>)
      requires b <= |s|
      ensures t == Over(s, a, b, v)
    {
      t := s;
      var x := a;
      while x < b
        invariant a <= x && (a <= b ==> x <= b) && t == Over(s, a, Least(x, b), v)
      {
        t := t[x := v];
        x := x + 1;
      }
    }

    method EraseInLine(mode: nat)
      requires Inv(State())
      modifies `grid, `dirty
      ensures State() == M.EraseInLine(old(State()), mode)
    {
      var row := grid[cursor.y];
      if mode == 0 {
        row := Replace(row, cursor.x, cols, Blank(pen));
      } else if mode == 1 {
        row := Replace(row, 0, cursor.x + 1, Blank(pen));
      } else {
        row := Replace(row, 0, cols, Blank(pen));
      }
      grid := grid[cursor.y := row];
      MarkDirty(cursor.y);
    }

    /** Blank rows from `a` up to `b`, each marked. */
    method EraseRows(a: nat, b: nat)
      requires Inv(State()) && b <= rows
      modifies `grid, `dirty
      ensures State() == M.EraseRows(old(State()), a, b)
    {
      ghost var blank := M.BlankRow(cols);
      var y := a;
      while y < b
        invariant a <= y && (a <= b ==> y <= b)
        invariant grid == Over(old(grid), a, Least(y, b), blank)
        invariant dirty == old(dirty) + Between(a, Least(y, b))
      {
        var row := BlankRow();
        grid := grid[y := row];
        MarkDirty(y);
        y := y + 1;
      }
    }

    method EraseInDisplay(mode: nat)
      requires Inv(State())
      modifies `grid, `dirty, `scrollback
      ensures State() == M.EraseInDisplay(old(State()), mode)
    {
      hide M.EraseInLine, M.EraseRows;
      if mode <= 1 {
        RowOperations(State(), mode);
        NextInv(State(), M.EraseInLine(State(), mode));
        EraseInLine(mode);
        if mode == 0 { EraseRows(cursor.y + 1, rows); } else { EraseRows(0, cursor.y); }
      } else {
        HistoryCleared(State());
        if mode == 3 { scrollback := []; }
        EraseRows(0, rows);
      }
    }

    method EraseChars(n: nat)
      requires Inv(State())
      modifies `grid, `dirty
      ensures State() == M.EraseChars(old(State()), n)
    {
      var k := Count(n, cols);
      ghost var was, b := grid[cursor.y], Blank(pen);
      var row := grid[cursor.y];
      var i := 0;
      while i < k && cursor.x + i < cols
        invariant i <= k && cursor.x + i <= cols && row == Over(was, cursor.x, cursor.x + i, b)
      {
        row := row[cursor.x + i := Blank(pen)];
        i := i + 1;
      }
      assert row == Over(was, cursor.x, cursor.x + k, b);
      grid := grid[cursor.y := row];
      MarkDirty(cursor.y);
    }

    // ---------------------------------------------------------------- inserting and deleting

    /** One more row that scrolled off; the oldest go when there is too much. The ring is never empty when one goes. */
    method PushScrollback(row: Row)
      requires History(State())
      modifies `scrollback, `scrollbackCells
      ensures State() == Archive(old(State()), [row])
    {
      ghost var lost, all := Lost(State()), scrollback + [row];
      ghost var budget := MAX_SCROLLBACK_CELLS - lost;
      TotalAppend(scrollback, [row]);
      scrollback := scrollback + [row];
      scrollbackCells := scrollbackCells + |row|;
      while |scrollback| > MAX_SCROLLBACK || scrollbackCells > MAX_SCROLLBACK_CELLS
        invariant scrollbackCells == lost + Total(scrollback)
        invariant Retain(scrollback, budget) == Retain(all, budget)
        decreases |scrollback|
      {
        assert scrollback != [];
        scrollbackCells := scrollbackCells - |scrollback[0]|;
        scrollback := scrollback[1..];
      }
    }

    method InsertChars(n: nat)
      requires Inv(State())
      modifies `grid, `dirty
      ensures State() == M.InsertChars(old(State()), n)
    {
      var row := grid[cursor.y];
      row := Opened(row, cursor.x, Count(n, cols), Blank(pen));
      grid := grid[cursor.y := row];
      MarkDirty(cursor.y);
    }

    /** Cells put in at a column, each of them pushing the last one out. */
    static method Opened(was: M.Row, at: nat, k: nat, b: Cell) returns (row: M.Row)
      requires at < |was|
      ensures row == Down(was, at, |was| - 1, k, b)
    {
      row := was;
      NoMove(was, at, |was| - 1, b);
      for i := 0 to k
        invariant row == Down(was, at, |was| - 1, i, b)
      {
        PopDown(row, at, b);
        DownMore(was, at, |was| - 1, i, b);
        row := Inserted(row, at, b);
        row := row[..|row| - 1];
      }
    }

    method DeleteChars(n: nat)
      requires Inv(State())
      modifies `grid, `dirty
      ensures State() == M.DeleteChars(old(State()), n)
    {
      var row := grid[cursor.y];
      row := Closed(row, cursor.x, Count(n, cols), Blank(pen));
      grid := grid[cursor.y := row];
      MarkDirty(cursor.y);
    }

    /** Cells taken out at a column, each of them followed by one put in at the end. */
    static method Closed(was: M.Row, at: nat, k: nat, b: Cell) returns (row: M.Row)
      requires at < |was|
      ensures row == Up(was, at, |was| - 1, k, b)
    {
      row := was;
      NoMove(was, at, |was| - 1, b);
      for i := 0 to k
        invariant row == Up(was, at, |was| - 1, i, b)
      {
        PushUp(row, at, b);
        UpMore(was, at, |was| - 1, i, b);
        row := Removed(row, at);
        row := row + [b];
      }
    }

    /** Rows taken from the bottom of a range and put in, blank, at its top. */
    method ShiftDown(at: nat, k: nat)
      requires Inv(State()) && at <= scrollBottom
      modifies `grid
      ensures grid == Down(old(grid), at, scrollBottom, k, M.BlankRow(cols))
    {
      ghost var b := M.BlankRow(cols);
      NoMove(grid, at, scrollBottom, b);
      for i := 0 to k
        invariant grid == Down(old(grid), at, scrollBottom, i, b)
      {
        SpliceDown(grid, at, scrollBottom, b);
        DownMore(old(grid), at, scrollBottom, i, b);
        grid := Removed(grid, scrollBottom);
        var row := BlankRow();
        grid := Inserted(grid, at, row);
      }
    }

    method InsertLines(n: nat)
      requires Inv(State())
      modifies `grid, `dirty
      ensures State() == M.InsertLines(old(State()), n)
    {
      if cursor.y < scrollTop || cursor.y > scrollBottom { return; }
      ShiftDown(cursor.y, Count(n, rows));
      MarkRange(cursor.y, scrollBottom);
    }

    method DeleteLines(n: nat)
      requires Inv(State())
      modifies `grid, `dirty
      ensures State() == M.DeleteLines(old(State()), n)
    {
      if cursor.y < scrollTop || cursor.y > scrollBottom { return; }
      var k, at := Count(n, rows), cursor.y;
      ghost var b := M.BlankRow(cols);
      NoMove(grid, at, scrollBottom, b);
      for i := 0 to k
        modifies `grid
        invariant grid == Up(old(grid), at, scrollBottom, i, b)
      {
        SpliceUp(grid, at, scrollBottom, b);
        UpMore(old(grid), at, scrollBottom, i, b);
        grid := Removed(grid, at);
        var row := BlankRow();
        grid := Inserted(grid, scrollBottom, row);
      }
      MarkRange(at, scrollBottom);
    }

    // ---------------------------------------------------------------- scrolling

    method ScrollUp(n: nat)
      requires Inv(State())
      modifies `grid, `dirty, `scrollback, `scrollbackCells
      ensures State() == M.ScrollUp(old(State()), n)
    {
      var k := Count(n, rows);
      AllScrolled(State(), k);
      Shift(k);
      MarkRange(scrollTop, scrollBottom);
    }

    lemma {:induction false} AllScrolled(s: M.Screen, k: nat)
      ensures Scrolled(s, k, k) == (if s.top == 0 then Archive(s, Leaving(s, k)) else s)
                                   .(grid := Up(s.grid, s.top, s.bottom, k, M.BlankRow(s.cols)))
    {
      if |Leaving(s, k)| >= k { assert Leaving(s, k)[..k] == Leaving(s, k); }
    }

    /** The loop of a scroll: the top row leaves, and is kept when the region begins at the top. */
    method Shift(k: nat)
      requires Inv(State())
      modifies `grid, `scrollback, `scrollbackCells
      ensures State() == Scrolled(old(State()), k, k)
    {
      hide Scrolled, Inv;
      ghost var s := State();
      InvParts(s);
      NothingScrolled(s, k);
      for i := 0 to k
        invariant State() == Scrolled(s, k, i)
      {
        ScrolledMore(s, k, i);
        ShiftOne();
      }
    }

    method ShiftOne()
      requires History(State()) && scrollTop <= scrollBottom < |grid|
      modifies `grid, `scrollback, `scrollbackCells
      ensures State() == OneScrolled(old(State()))
    {
      SpliceUp(grid, scrollTop, scrollBottom, M.BlankRow(cols));
      ArchiveApart(State(), Removed(grid, scrollTop), [grid[scrollTop]]);
      hide Archive;
      var removed := grid[scrollTop];
      grid := Removed(grid, scrollTop);
      if scrollTop == 0 { PushScrollback(removed); }
      var blank := BlankRow();
      grid := Inserted(grid, scrollBottom, blank);
    }

    method ScrollDown(n: nat)
      requires Inv(State())
      modifies `grid, `dirty
      ensures State() == M.ScrollDown(old(State()), n)
    {
      ShiftDown(scrollTop, Count(n, rows));
      MarkRange(scrollTop, scrollBottom);
    }

    method SetScrollRegion(t: nat, b: nat)
      modifies `scrollTop, `scrollBottom, `cursor
      ensures State() == M.SetScrollRegion(old(State()), t, b)
    {
      var top, bottom := One(t) - 1, (if b == 0 then rows else b) - 1;
      if top < bottom && bottom < rows {
        scrollTop, scrollBottom := top, bottom;
        cursor := cursor.(x := 0, y := scrollTop);
      }
    }

    // ---------------------------------------------------------------- pen and modes

    method SetSgr(given: seq<Param>)
      modifies `pen
      ensures State() == M.SetSgr(old(State()), given)
    {
      hide Stroke, Painted, Drop;
      var ps := if given == [] then [Number(0)] else given;
      var i := 0;
      DropSome(ps, 0);
      while i < |ps|
        invariant Painted(pen, Drop(ps, i)) == Painted(old(pen), ps)
        decreases |ps| - i
      {
        DropSome(ps, i);
        DropTwice(ps, i, Stroke(pen, Drop(ps, i)).1);
        PaintedFirst(pen, Drop(ps, i));
        var j := ApplySgr(ps, i);
        i := j + 1;
      }
      DropSome(ps, i);
      NothingPainted(pen);
    }

    lemma {:induction false} DropSome(ps: seq<Param>, i: nat)
      ensures Drop(ps, 0) == ps && (Drop(ps, i) == [] <==> i >= |ps|)
    {}

    lemma {:induction false} PaintedFirst(pen: Pen, ps: seq<Param>)
      requires ps != []
      ensures Painted(pen, ps) == Painted(Stroke(pen, ps).0, Drop(ps, Stroke(pen, ps).1))
    {
      hide Stroke, Drop;
    }

    lemma {:induction false} NothingPainted(pen: Pen)
      ensures Painted(pen, []) == pen
    {}

    /** The switch on one parameter; where the last parameter it took is. */
    method ApplySgr(ps: seq<Param>, i: nat) returns (j: nat)
      requires i < |ps|
      modifies `pen
      ensures i <= j && (pen, j + 1 - i) == Stroke(old(pen), Drop(ps, i))
    {
      hide Attribute;
      ghost var rest, was := Drop(ps, i), pen;
      assert rest[0] == ps[i];
      j := i;
      if ps[i] == Number(38) {
        j := ExtendedColor(ps, i, true);
      } else if ps[i] == Number(48) {
        j := ExtendedColor(ps, i, false);
      } else if ps[i].Number? {
        pen := Attribute(pen, ps[i].n);
      }
      assert pen == Stroke(was, rest).0;
      assert j + 1 - i == Stroke(was, rest).1;
    }

    lemma {:induction false} DropTwice(ps: seq<Param>, i: nat, n: nat)
      ensures Drop(Drop(ps, i), n) == Drop(ps, i + n)
    {}

    method ExtendedColor(ps: seq<Param>, i: nat, fore: bool) returns (j: nat)
      requires i < |ps|
      modifies `pen
      ensures var (c, n) := Extended(Drop(ps, i));
        && j + 1 == i + n && i <= j
        && pen == if c.None? then old(pen) else if fore then old(pen).(fg := c.value) else old(pen).(bg := c.value)
    {
      assert At(Drop(ps, i), 1) == At(ps, i + 1) && At(Drop(ps, i), 2) == At(ps, i + 2);
      assert At(Drop(ps, i), 3) == At(ps, i + 3) && At(Drop(ps, i), 4) == At(ps, i + 4);
      var mode := At(ps, i + 1);
      if mode == Number(5) {
        Dye(Palette(At(ps, i + 2)), fore);
        return i + 2;
      }
      if mode == Number(2) {
        Dye(Rgb(Level(At(ps, i + 2)), Level(At(ps, i + 3)), Level(At(ps, i + 4))), fore);
        return i + 4;
      }
      j := i;
    }

    method Dye(c: Color, fore: bool)
      modifies `pen
      ensures pen == if fore then old(pen).(fg := c) else old(pen).(bg := c)
    {
      if fore { pen := pen.(fg := c); } else { pen := pen.(bg := c); }
    }

    method SetMode(ps: seq<Param>, priv: bool, on: bool)
      modifies `cursor
      ensures State() == M.SetMode(old(State()), ps, priv, on)
    {
      for i := 0 to |ps|
        invariant cursor == if priv && Number(25) in ps[..i] then old(cursor).(visible := on) else old(cursor)
      {
        assert ps[..i + 1] == ps[..i] + [ps[i]];
        if priv && ps[i] == Number(25) { cursor := cursor.(visible := on); }
      }
      assert ps[..|ps|] == ps;
    }

    // ---------------------------------------------------------------- reset and resize

    method Reset()
      requires Inv(State())
      modifies `pen, `cursor, `scrollTop, `scrollBottom, `grid, `tabs, `dirty
      ensures State() == M.Reset(old(State()))
    {
      assert rows >= 1;
      hide TabStops, Fill, M.BlankRow, Between, Inv;
      pen, cursor := DEFAULT_PEN, Cursor(0, 0, true);
      scrollTop, scrollBottom := 0, rows - 1;
      InitGrid();
      ResetTabs();
      MarkAllDirty();
    }

    /** Rows leave at the top, or blank ones come at the bottom. */
    method FitRows(r: nat)
      requires Inv(State())
      modifies `grid, `rows, `scrollback, `scrollbackCells
      ensures State() == ResizeRows(old(State()), r)
    {
      if r < rows {
        ShedRows(rows - r);
      } else {
        ghost var b := M.BlankRow(cols);
        for i := 0 to r - rows
          modifies `grid
          invariant grid == old(grid) + Fill(i, b)
        {
          var row := BlankRow();
          grid := grid + [row];
        }
      }
      rows := r;
    }

    method ShedRows(n: nat)
      requires History(State()) && n <= |grid|
      modifies `grid, `scrollback, `scrollbackCells
      ensures State() == Archive(old(State()), old(grid)[..n]).(grid := old(grid)[n..])
    {
      ghost var s := State();
      NothingArchived(s);
      assert s.grid[..0] == [] && s.grid[0..] == s.grid;
      for i := 0 to n
        invariant State() == Archive(s, s.grid[..i]).(grid := s.grid[i..]) && History(State())
      {
        ArchiveMore(s, s.grid, i);
        ArchiveKeeps(s, s.grid[..i + 1]);
        var first := grid[0];
        grid := grid[1..];
        PushScrollback(first);
      }
    }

    /** One row cut or lengthened. */
    method FitRow(row: Row, c: nat) returns (fit: Row)
      requires |row| == cols
      ensures fit == Fit(row, cols, c)
    {
      if c < cols { return row[..c]; }
      fit := row;
      for x := cols to c
        invariant fit == row + Fill(x - cols, Blank(DEFAULT_PEN))
      {
        fit := fit + [Blank(DEFAULT_PEN)];
      }
    }

    method FitCols(c: nat)
      requires forall y :: 0 <= y < |grid| ==> |grid[y]| == cols
      modifies `grid, `cols
      ensures cols == c && grid == FitAll(old(grid), old(cols), c)
    {
      for y := 0 to |grid|
        invariant cols == old(cols) && |grid| == |old(grid)|
        invariant forall i :: 0 <= i < |grid| ==> grid[i] == if i < y then Fit(old(grid)[i], cols, c) else old(grid)[i]
      {
        var row := FitRow(grid[y], c);
        grid := grid[y := row];
      }
      cols := c;
    }

    /** What a new size resets. */
    method Recenter()
      requires cols >= 1 && rows >= 1
      modifies `scrollTop, `scrollBottom, `cursor, `tabs, `dirty
      ensures State() == MarkAll(old(State()).(top := 0, bottom := Last(rows), tabs := TabStops(cols),
        cursor := old(cursor).(x := Least(old(cursor).x, cols - 1), y := Least(old(cursor).y, rows - 1))))
    {
      hide TabStops, Between;
      scrollTop, scrollBottom := 0, rows - 1;
      cursor := cursor.(x := Least(cursor.x, cols - 1), y := Least(cursor.y, rows - 1));
      ResetTabs();
      MarkAllDirty();
    }

    method Resize(columns: int, lines: int)
      requires Inv(State())
      modifies `cols, `rows, `grid, `scrollback, `scrollbackCells, `scrollTop, `scrollBottom, `cursor, `tabs, `dirty
      ensures State() == M.Resize(old(State()), columns, lines) && Inv(State())
    {
      ResizeKeeps(State(), columns, lines);
      var c: nat, r: nat := Clamp(columns, MAX_COLS), Clamp(lines, MAX_ROWS);
      RowsSized(State(), r);
      hide FitAll, ResizeRows, TabStops, Between, Inv, SavedFits, MarkAll;
      FitRows(r);
      FitCols(c);
      Recenter();
    }

    lemma {:induction false} RowsSized(s: M.Screen, r: nat)
      requires Inv(s)
      ensures var t := ResizeRows(s, r);
        && t == s.(grid := t.grid, rows := r, scrollback := t.scrollback, cells := t.cells)
        && forall y :: 0 <= y < |t.grid| ==> |t.grid[y]| == s.cols
    {}
  }
}
