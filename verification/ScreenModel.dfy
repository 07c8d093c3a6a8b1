/**
 * The screen of the terminal emulator (runtime/hermit/src/renderer/vt/screen.js): a grid of styled cells, a cursor, a
 * pen, a scroll region, tab stops, and the rows that scrolled off.
 *
 * The functions give in one step what the loops of each operation leave. The callbacks for the bell
 * and the title are a count and a list. Outside the geometry of `ScreenSafety.Inv` the code throws or lengthens a row;
 * the functions leave such a grid alone.
 */
module ScreenModel {
  import opened Common
  import opened Utf16

  const MAX_SCROLLBACK := 5000
  const MAX_SCROLLBACK_CELLS := 2000000
  const MAX_COLS := 400
  const MAX_ROWS := 200
  const SPACE: Unit := 0x20

  /** A parameter of a control sequence: left out, not a number, or a number. */
  datatype Param = Absent | NotANumber | Number(n: nat)

  datatype Color = Theme | Palette(index: Param) | Rgb(r: nat, g: nat, b: nat)

  datatype Pen = Pen(fg: Color, bg: Color, bold: bool, dim: bool, italic: bool, underline: bool, inverse: bool,
                     strike: bool, hidden: bool)

  const DEFAULT_PEN := Pen(Theme, Theme, false, false, false, false, false, false, false)

  datatype Cell = Cell(ch: Text, pen: Pen)

  type Row = seq<Cell>

  datatype Cursor = Cursor(x: nat, y: nat, visible: bool)

  datatype Saved = Saved(x: nat, y: nat, pen: Pen)

  datatype Screen = Screen(
    cols: nat, rows: nat, grid: seq<Row>, cursor: Cursor, saved: Option<Saved>, pen: Pen, top: nat, bottom: nat,
    scrollback: seq<Row>, cells: int, tabs: set<nat>, dirty: set<nat>, wrapNext: bool, bells: nat, titles: seq<Text>)

  // ------------------------------------------------------------------ cells and rows

  function Blank(pen: Pen): Cell { Cell([SPACE], pen) }

  function Fill<T>(n: nat, v: T): (s: seq<T>)
    ensures |s| == n && forall i :: 0 <= i < n ==> s[i] == v
  {
    seq(n, i => v)
  }

  function BlankRow(cols: nat): Row { Fill(cols, Blank(DEFAULT_PEN)) }

  function TabStops(cols: nat): set<nat> { set x: nat | x < cols && x % 8 == 0 }

  /** The numbers from `a` up to `b`. */
  function Between(a: nat, b: nat): (r: set<nat>)
    ensures forall y: nat :: y in r <==> a <= y < b
    decreases b - a
  {
    if a < b then {a} + Between(a + 1, b) else {}
  }

  function Least(a: int, b: int): int { if a <= b then a else b }

  function Last(n: nat): nat { if n == 0 then 0 else n - 1 }

  /** A count as the operations take it: at least one, at most `max`. */
  function Count(n: nat, max: nat): nat { Least(if n < 1 then 1 else n, max) }

  function One(n: nat): nat { if n == 0 then 1 else n }

  /** The elements from `lo` to `hi` move `k` places to the front; `v` takes the places at the end. */
  function Up<T>(s: seq<T>, lo: nat, hi: nat, k: nat, v: T): (t: seq<T>)
    ensures |t| == |s|
    ensures lo <= hi < |s| ==> forall j :: 0 <= j < |s| ==>
        t[j] == if lo <= j <= hi then (if j + k <= hi then s[j + k] else v) else s[j]
    ensures !(lo <= hi < |s|) ==> t == s
  {
    if lo <= hi < |s| then
      seq(|s|, j requires 0 <= j < |s| => if lo <= j <= hi then (if j + k <= hi then s[j + k] else v) else s[j])
    else s
  }

  /** They move `k` places to the end; `v` takes the places at the front. */
  function Down<T>(s: seq<T>, lo: nat, hi: nat, k: nat, v: T): (t: seq<T>)
    ensures |t| == |s|
    ensures lo <= hi < |s| ==> forall j :: 0 <= j < |s| ==>
        t[j] == if lo <= j <= hi then (if j - k >= lo then s[j - k] else v) else s[j]
    ensures !(lo <= hi < |s|) ==> t == s
  {
    if lo <= hi < |s| then
      seq(|s|, j requires 0 <= j < |s| => if lo <= j <= hi then (if j - k >= lo then s[j - k] else v) else s[j])
    else s
  }

  /** `v` from `a` up to `b`. */
  function Over<T>(s: seq<T>, a: nat, b: nat, v: T): (t: seq<T>)
    ensures |t| == |s| && forall j :: 0 <= j < |s| ==> t[j] == if a <= j < b then v else s[j]
  {
    seq(|s|, j requires 0 <= j < |s| => if a <= j < b then v else s[j])
  }

  /** The row of the cursor replaced. */
  function WithRow(s: Screen, row: Row): Screen {
    if s.cursor.y < |s.grid| then Mark(s.(grid := s.grid[s.cursor.y := row]), s.cursor.y) else s
  }

  function CursorRow(s: Screen): Row { if s.cursor.y < |s.grid| then s.grid[s.cursor.y] else [] }

  function Mark(s: Screen, y: nat): Screen { if y < s.rows then s.(dirty := s.dirty + {y}) else s }

  function MarkRange(s: Screen, a: nat, b: nat): Screen { s.(dirty := s.dirty + Between(a, Least(b + 1, s.rows))) }

  function MarkAll(s: Screen): Screen { s.(dirty := s.dirty + Between(0, s.rows)) }

  // ------------------------------------------------------------------ the rows that scrolled off

  function Total(rows: seq<Row>): nat { if rows == [] then 0 else |rows[0]| + Total(rows[1..]) }

  /** What the counter holds beyond the rows that are kept. */
  function Lost(s: Screen): int { s.cells - Total(s.scrollback) }

  /** The longest end of a list of rows that is within the bounds. */
  function Retain(rows: seq<Row>, budget: int): seq<Row> {
    if rows == [] || (|rows| <= MAX_SCROLLBACK && Total(rows) <= budget) then rows else Retain(rows[1..], budget)
  }

  function Archive(s: Screen, rows: seq<Row>): Screen {
    var kept := Retain(s.scrollback + rows, MAX_SCROLLBACK_CELLS - Lost(s));
    s.(scrollback := kept, cells := Lost(s) + Total(kept))
  }

  // ------------------------------------------------------------------ scrolling

  /** The `k` rows that leave the region at its top, blank ones when there are too few. */
  function Leaving(s: Screen, k: nat): seq<Row> {
    if s.top <= s.bottom < |s.grid| then (s.grid[s.top..s.bottom + 1] + Fill(k, BlankRow(s.cols)))[..k] else []
  }

  function ScrollUp(s: Screen, n: nat): Screen {
    var k := Count(n, s.rows);
    var a := if s.top == 0 then Archive(s, Leaving(s, k)) else s;
    MarkRange(a.(grid := Up(s.grid, s.top, s.bottom, k, BlankRow(s.cols))), s.top, s.bottom)
  }

  function ScrollDown(s: Screen, n: nat): Screen {
    MarkRange(s.(grid := Down(s.grid, s.top, s.bottom, Count(n, s.rows), BlankRow(s.cols))), s.top, s.bottom)
  }

  function AtX(s: Screen, x: nat): Screen { s.(cursor := s.cursor.(x := x)) }

  function AtY(s: Screen, y: nat): Screen { s.(cursor := s.cursor.(y := y)) }

  function Settled(s: Screen): Screen { s.(wrapNext := false) }

  function LineFeedScroll(s: Screen): Screen {
    if s.cursor.y == s.bottom then ScrollUp(s, 1)
    else if s.cursor.y < s.rows - 1 then AtY(s, s.cursor.y + 1) else s
  }

  function ReverseIndex(s: Screen): Screen {
    if s.cursor.y == s.top then ScrollDown(s, 1) else if s.cursor.y > 0 then AtY(s, s.cursor.y - 1) else s
  }

  function SetScrollRegion(s: Screen, t: nat, b: nat): Screen {
    var top, bottom := One(t) - 1, (if b == 0 then s.rows else b) - 1;
    if top < bottom < s.rows then AtY(AtX(s.(top := top, bottom := bottom), 0), top) else s
  }

  // ------------------------------------------------------------------ printing

  /** Moves on to the next line when the last character filled this one. */
  function Wrapped(s: Screen): Screen { if s.wrapNext then Settled(LineFeedScroll(AtX(s, 0))) else s }

  function Advance(s: Screen): Screen {
    if s.cursor.x + 1 >= s.cols then s.(wrapNext := true) else AtX(s, s.cursor.x + 1)
  }

  function Put(s: Screen, ch: Text): Screen {
    var w := Wrapped(s);
    var row := CursorRow(w);
    Advance(if w.cursor.x < |row| then WithRow(w, row[w.cursor.x := Cell(ch, w.pen)]) else w)
  }

  /** The characters of a text: a pair of surrogates is one. */
  function Characters(s: Text): seq<Text> {
    if s == [] then []
    else if Paired(s) then [s[..2]] + Characters(s[2..])
    else [s[..1]] + Characters(s[1..])
  }

  function PutAll(s: Screen, chars: seq<Text>): Screen
    decreases |chars|
  {
    if chars == [] then s else PutAll(Put(s, chars[0]), chars[1..])
  }

  function PrintText(s: Screen, text: Text): Screen { PutAll(s, Characters(text)) }

  // ------------------------------------------------------------------ controls and motion

  function Bell(s: Screen): Screen { s.(bells := s.bells + 1) }

  function Title(s: Screen, t: Text): Screen { s.(titles := s.titles + [t]) }

  function CarriageReturn(s: Screen): Screen { Settled(AtX(s, 0)) }

  function Backspace(s: Screen): Screen { Settled(AtX(s, Last(s.cursor.x))) }

  /** The first tab stop from `x` on, or the last column. */
  function Stop(tabs: set<nat>, cols: nat, x: nat): nat
    decreases cols - x
  {
    if x >= cols then Last(cols) else if x in tabs then x else Stop(tabs, cols, x + 1)
  }

  function Tab(s: Screen): Screen { Settled(AtX(s, Stop(s.tabs, s.cols, s.cursor.x + 1))) }

  function SetTab(s: Screen): Screen { s.(tabs := s.tabs + {s.cursor.x}) }

  function LineFeed(s: Screen): Screen { Settled(LineFeedScroll(s)) }

  function NextLine(s: Screen): Screen { LineFeedScroll(CarriageReturn(s)) }

  function CursorUp(s: Screen, n: nat): Screen {
    Settled(AtY(s, if s.cursor.y - One(n) >= s.top then s.cursor.y - One(n) else s.top))
  }

  function CursorDown(s: Screen, n: nat): Screen { Settled(AtY(s, Least(s.bottom, s.cursor.y + One(n)))) }

  function CursorForward(s: Screen, n: nat): Screen { Settled(AtX(s, Least(Last(s.cols), s.cursor.x + One(n)))) }

  function CursorBack(s: Screen, n: nat): Screen {
    Settled(AtX(s, if s.cursor.x >= One(n) then s.cursor.x - One(n) else 0))
  }

  function CursorCol(s: Screen, n: nat): Screen { Settled(AtX(s, Least(Last(s.cols), One(n) - 1))) }

  function CursorLine(s: Screen, n: nat): Screen { Settled(AtY(s, Least(Last(s.rows), One(n) - 1))) }

  function CursorPos(s: Screen, row: nat, col: nat): Screen { CursorCol(CursorLine(s, row), col) }

  function CursorNextLine(s: Screen, n: nat): Screen { AtX(CursorDown(s, n), 0) }

  function CursorPrevLine(s: Screen, n: nat): Screen { AtX(CursorUp(s, n), 0) }

  function SaveCursor(s: Screen): Screen { s.(saved := Some(Saved(s.cursor.x, s.cursor.y, s.pen))) }

  function RestoreCursor(s: Screen): Screen {
    match s.saved
    case None => s
    case Some(c) => AtY(AtX(s, c.x), c.y).(pen := c.pen)
  }

  // ------------------------------------------------------------------ erasing, inserting, deleting

  function EraseInLine(s: Screen, mode: nat): Screen {
    var from, to := if mode == 0 then s.cursor.x else 0, if mode == 1 then s.cursor.x + 1 else s.cols;
    WithRow(s, Over(CursorRow(s), from, to, Blank(s.pen)))
  }

  /** Blank rows from `a` up to `b`. */
  function EraseRows(s: Screen, a: nat, b: nat): Screen {
    var t := s.(grid := Over(s.grid, a, b, BlankRow(s.cols)));
    if a < b then MarkRange(t, a, b - 1) else t
  }

  function EraseInDisplay(s: Screen, mode: nat): Screen {
    if mode == 0 then EraseRows(EraseInLine(s, 0), s.cursor.y + 1, s.rows)
    else if mode == 1 then EraseRows(EraseInLine(s, 1), 0, s.cursor.y)
    else EraseRows(if mode == 3 then s.(scrollback := []) else s, 0, s.rows)
  }

  function EraseChars(s: Screen, n: nat): Screen {
    WithRow(s, Over(CursorRow(s), s.cursor.x, s.cursor.x + Count(n, s.cols), Blank(s.pen)))
  }

  function InsertChars(s: Screen, n: nat): Screen {
    WithRow(s, Down(CursorRow(s), s.cursor.x, Last(s.cols), Count(n, s.cols), Blank(s.pen)))
  }

  function DeleteChars(s: Screen, n: nat): Screen {
    WithRow(s, Up(CursorRow(s), s.cursor.x, Last(s.cols), Count(n, s.cols), Blank(s.pen)))
  }

  function InsertLines(s: Screen, n: nat): Screen {
    if s.cursor.y < s.top || s.cursor.y > s.bottom then s
    else
      var grid := Down(s.grid, s.cursor.y, s.bottom, Count(n, s.rows), BlankRow(s.cols));
      MarkRange(s.(grid := grid), s.cursor.y, s.bottom)
  }

  function DeleteLines(s: Screen, n: nat): Screen {
    if s.cursor.y < s.top || s.cursor.y > s.bottom then s
    else
      var grid := Up(s.grid, s.cursor.y, s.bottom, Count(n, s.rows), BlankRow(s.cols));
      MarkRange(s.(grid := grid), s.cursor.y, s.bottom)
  }

  // ------------------------------------------------------------------ the pen

  function At(ps: seq<Param>, i: nat): Param { if i < |ps| then ps[i] else Absent }

  function Drop(ps: seq<Param>, n: nat): seq<Param> { if n <= |ps| then ps[n..] else [] }

  function Level(p: Param): nat { if p.Number? then p.n else 0 }

  /** The color that follows 38 or 48, and how many parameters it takes. */
  function Extended(ps: seq<Param>): (Option<Color>, nat) {
    if At(ps, 1) == Number(5) then (Some(Palette(At(ps, 2))), 3)
    else if At(ps, 1) == Number(2) then (Some(Rgb(Level(At(ps, 2)), Level(At(ps, 3)), Level(At(ps, 4)))), 5)
    else (None, 1)
  }

  function Index(n: nat): Color { Palette(Number(n)) }

  /** A parameter that stands alone. */
  function Attribute(pen: Pen, p: nat): Pen {
    if p == 0 then DEFAULT_PEN
    else if p == 1 then pen.(bold := true)
    else if p == 2 then pen.(dim := true)
    else if p == 3 then pen.(italic := true)
    else if p == 4 then pen.(underline := true)
    else if p == 7 then pen.(inverse := true)
    else if p == 8 then pen.(hidden := true)
    else if p == 9 then pen.(strike := true)
    else if p == 22 then pen.(bold := false, dim := false)
    else if p == 23 then pen.(italic := false)
    else if p == 24 then pen.(underline := false)
    else if p == 27 then pen.(inverse := false)
    else if p == 28 then pen.(hidden := false)
    else if p == 29 then pen.(strike := false)
    else if 30 <= p <= 37 then pen.(fg := Index(p - 30))
    else if p == 39 then pen.(fg := Theme)
    else if 40 <= p <= 47 then pen.(bg := Index(p - 40))
    else if p == 49 then pen.(bg := Theme)
    else if 90 <= p <= 97 then pen.(fg := Index(p - 90 + 8))
    else if 100 <= p <= 107 then pen.(bg := Index(p - 100 + 8))
    else pen
  }

  /** The pen after the first parameter, and how many were taken. */
  function Stroke(pen: Pen, ps: seq<Param>): (r: (Pen, nat))
    requires ps != []
    ensures r.1 >= 1
  {
    if ps[0] == Number(38) then
      var (c, n) := Extended(ps);
      (if c.Some? then pen.(fg := c.value) else pen, n)
    else if ps[0] == Number(48) then
      var (c, n) := Extended(ps);
      (if c.Some? then pen.(bg := c.value) else pen, n)
    else (if ps[0].Number? then Attribute(pen, ps[0].n) else pen, 1)
  }

  function Painted(pen: Pen, ps: seq<Param>): Pen
    decreases |ps|
  {
    if ps == [] then pen
    else
      var (next, n) := Stroke(pen, ps);
      Painted(next, Drop(ps, n))
  }

  function SetSgr(s: Screen, ps: seq<Param>): Screen { s.(pen := Painted(s.pen, if ps == [] then [Number(0)] else ps)) }

  /** Of the modes only the visible cursor is kept. */
  function SetMode(s: Screen, ps: seq<Param>, priv: bool, on: bool): Screen {
    if priv && Number(25) in ps then s.(cursor := s.cursor.(visible := on)) else s
  }

  // ------------------------------------------------------------------ reset and resize

  function Reset(s: Screen): Screen {
    MarkAll(s.(pen := DEFAULT_PEN, cursor := Cursor(0, 0, true), top := 0, bottom := Last(s.rows),
               grid := Fill(s.rows, BlankRow(s.cols)), tabs := TabStops(s.cols)))
  }

  function Clamp(n: int, max: nat): nat
    requires max >= 1
  {
    if n < 1 then 1 else Least(n, max)
  }

  function Fresh(cols: int, rows: int): Screen {
    var c, r := Clamp(cols, MAX_COLS), Clamp(rows, MAX_ROWS);
    Screen(c, r, Fill(r, BlankRow(c)), Cursor(0, 0, true), None, DEFAULT_PEN, 0, r - 1, [], 0, TabStops(c),
        Between(0, r), false, 0, [])
  }

  /** A row cut or lengthened from `was` columns to `cols`. */
  function Fit(row: Row, was: nat, cols: nat): Row {
    if cols < was then (if cols <= |row| then row[..cols] else row) else row + Fill(cols - was, Blank(DEFAULT_PEN))
  }

  function FitAll(grid: seq<Row>, was: nat, cols: nat): (g: seq<Row>)
    ensures |g| == |grid| && forall y :: 0 <= y < |grid| ==> g[y] == Fit(grid[y], was, cols)
  {
    seq(|grid|, y requires 0 <= y < |grid| => Fit(grid[y], was, cols))
  }

  /** The rows: the topmost go to the scrollback when there are too many. */
  function ResizeRows(s: Screen, rows: nat): Screen {
    var t :=
      if rows < s.rows then
        if s.rows - rows <= |s.grid| then Archive(s, s.grid[..s.rows - rows]).(grid := s.grid[s.rows - rows..]) else s
      else s.(grid := s.grid + Fill(rows - s.rows, BlankRow(s.cols)));
    t.(rows := rows)
  }

  function Resize(s: Screen, cols: int, rows: int): Screen {
    var c, r := Clamp(cols, MAX_COLS), Clamp(rows, MAX_ROWS);
    var t := ResizeRows(s, r);
    MarkAll(t.(grid := FitAll(t.grid, s.cols, c), cols := c, top := 0, bottom := Last(r),
               cursor := s.cursor.(x := Least(s.cursor.x, c - 1), y := Least(s.cursor.y, r - 1)), tabs := TabStops(c)))
  }
}
