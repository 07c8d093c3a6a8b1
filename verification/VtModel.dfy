/**
 * The escape-sequence parser of the terminal emulator (runtime/hermit/src/renderer/vt/parser.js): a machine that takes
 * 16-bit units one by one, collects what is printable, and drives the screen.
 */
module VtModel {
  import opened Common
  import opened Utf16
  import opened ScreenModel
  import Json = JsonModel
  import Numerals
  import Splitting

  datatype Mode = Ground | Esc | Csi | Osc | Dcs | OscEsc | DcsEsc | CsiIgnore

  const MAX_OSC := 4096
  const MAX_TITLE := 256
  const MAX_PARAMS := 64
  const MAX_INTERMEDIATES := 4
  const MAX_PARAM_VALUE := 65535

  const ESC: Unit := 0x1B
  const BEL: Unit := 0x07
  const CAN: Unit := 0x18
  const SUB: Unit := 0x1A
  const DEL: Unit := 0x7F
  const CSI8: Unit := 0x9B
  const ST8: Unit := 0x9C
  const SEMICOLON: Unit := 0x3B
  const QUESTION: Unit := 0x3F
  const BACKSLASH: Unit := 0x5C

  datatype Vt = Vt(term: Screen, mode: Mode, params: Text, intermediates: Text, osc: Text, overflow: bool,
      printBuf: Text)

  function Start(term: Screen): Vt { Vt(term, Ground, [], [], [], false, []) }

  // ------------------------------------------------------------------ parameters

  function Parts(s: Text): seq<Text>
    decreases |s|
  {
    var i := Splitting.Index(s, SEMICOLON);
    if i < |s| then [s[..i]] + Parts(s[i + 1..]) else [s]
  }

  /** `parseInt(p, 10)`, capped; nothing at all is a parameter that was left out. */
  function ToParam(p: Text): Param {
    if p == [] then Absent
    else if Json.Digits(p) == 0 then NotANumber
    else Number(Least(MAX_PARAM_VALUE, Numerals.Decimal(p[..Json.Digits(p)])))
  }

  function ToParams(parts: seq<Text>): (ps: seq<Param>)
    ensures |ps| == |parts| && forall i :: 0 <= i < |parts| ==> ps[i] == ToParam(parts[i])
  {
    seq(|parts|, i requires 0 <= i < |parts| => ToParam(parts[i]))
  }

  predicate Private(params: Text) { params != [] && params[0] == QUESTION }

  function Params(params: Text): seq<Param> {
    var str := if Private(params) then params[1..] else params;
    var parts := if str == [] then [] else Parts(str);
    ToParams(if |parts| <= 32 then parts else parts[..32])
  }

  /** The parameter at a place, or what stands for one that is missing. */
  function Arg(ps: seq<Param>, i: nat, d: nat): nat { if i < |ps| && ps[i].Number? then ps[i].n else d }

  function Given(ps: seq<Param>): (gs: seq<Param>)
    ensures forall p :: p in gs <==> p in ps && p != Absent
  {
    if ps == [] then [] else (if ps[0] == Absent then [] else [ps[0]]) + Given(ps[1..])
  }

  /** For colors a parameter that was left out is zero. */
  function Zeroed(ps: seq<Param>): (zs: seq<Param>)
    ensures |zs| == |ps| && forall i :: 0 <= i < |ps| ==> zs[i] == if ps[i] == Absent then Number(0) else ps[i]
  {
    seq(|ps|, i requires 0 <= i < |ps| => if ps[i] == Absent then Number(0) else ps[i])
  }

  // ------------------------------------------------------------------ control functions

  function Control(s: Screen, u: Unit): Screen {
    if u == BEL then Bell(s)
    else if u == 0x08 then Backspace(s)
    else if u == 0x09 then Tab(s)
    else if 0x0A <= u <= 0x0C then LineFeed(s)
    else if u == 0x0D then CarriageReturn(s)
    else s
  }

  /** `A` to `H`, backquote, `d` and `f` */
  function Motion(s: Screen, f: Unit, ps: seq<Param>): Screen {
    var n := Arg(ps, 0, 1);
    if f == 0x41 then CursorUp(s, n)
    else if f == 0x42 then CursorDown(s, n)
    else if f == 0x43 then CursorForward(s, n)
    else if f == 0x44 then CursorBack(s, n)
    else if f == 0x45 then CursorNextLine(s, n)
    else if f == 0x46 then CursorPrevLine(s, n)
    else if f == 0x47 || f == 0x60 then CursorCol(s, n)
    else if f == 0x64 then CursorLine(s, n)
    else if f == 0x48 || f == 0x66 then CursorPos(s, n, Arg(ps, 1, 1))
    else s
  }

  /** `J`, `K`, `L`, `M`, `@`, `P`, `X`, `S`, `T` */
  function Editing(s: Screen, f: Unit, ps: seq<Param>): Screen {
    if f == 0x4A then EraseInDisplay(s, Arg(ps, 0, 0))
    else if f == 0x4B then EraseInLine(s, Arg(ps, 0, 0))
    else if f == 0x4C then InsertLines(s, Arg(ps, 0, 1))
    else if f == 0x4D then DeleteLines(s, Arg(ps, 0, 1))
    else if f == 0x40 then InsertChars(s, Arg(ps, 0, 1))
    else if f == 0x50 then DeleteChars(s, Arg(ps, 0, 1))
    else if f == 0x58 then EraseChars(s, Arg(ps, 0, 1))
    else if f == 0x53 then ScrollUp(s, Arg(ps, 0, 1))
    else if f == 0x54 then ScrollDown(s, Arg(ps, 0, 1))
    else s
  }

  /** `r`, `m`, `h`, `l`, `s`, `u` */
  function Setting(s: Screen, f: Unit, ps: seq<Param>, priv: bool): Screen {
    if f == 0x72 then SetScrollRegion(s, Arg(ps, 0, 1), Arg(ps, 1, s.rows))
    else if f == 0x6D then SetSgr(s, Zeroed(ps))
    else if f == 0x68 then SetMode(s, Given(ps), priv, true)
    else if f == 0x6C then SetMode(s, Given(ps), priv, false)
    else if f == 0x73 then SaveCursor(s)
    else if f == 0x75 then RestoreCursor(s)
    else s
  }

  predicate IsMotion(f: Unit) { 0x41 <= f <= 0x48 || f == 0x60 || f == 0x64 || f == 0x66 }

  predicate IsEditing(f: Unit) { f in {0x4A, 0x4B, 0x4C, 0x4D, 0x40, 0x50, 0x58, 0x53, 0x54} }

  function Dispatch(s: Screen, f: Unit, params: Text): Screen {
    var ps := Params(params);
    if IsMotion(f) then Motion(s, f, ps)
    else if IsEditing(f) then Editing(s, f, ps)
    else Setting(s, f, ps, Private(params))
  }

  /** The final character of a short escape sequence: `7`, `8`, `D`, `E`, `M`, `H`, `c`. */
  function Short(s: Screen, u: Unit): Screen {
    if u == 0x37 then SaveCursor(s)
    else if u == 0x38 then RestoreCursor(s)
    else if u == 0x44 then LineFeedScroll(s)
    else if u == 0x45 then NextLine(s)
    else if u == 0x4D then ReverseIndex(s)
    else if u == 0x48 then SetTab(s)
    else if u == 0x63 then Reset(s)
    else s
  }

  predicate Unprintable(u: Unit) { u <= 0x1F || 0x7F <= u <= 0x9F }

  function Printable(t: Text): (p: Text)
    ensures forall u :: u in p ==> !Unprintable(u)
  {
    if t == [] then [] else (if Unprintable(t[0]) then [] else [t[0]]) + Printable(t[1..])
  }

  /** The title an operating-system command sets: `0;…` or `2;…` */
  function TitleOf(osc: Text): Option<Text> {
    var i := Splitting.Index(osc, SEMICOLON);
    if i < |osc| && (osc[..i] == [0x30] || osc[..i] == [0x32]) then
      var t := Printable(osc[i + 1..]);
      Some(if |t| <= MAX_TITLE then t else t[..MAX_TITLE])
    else None
  }

  function DispatchOsc(v: Vt): Vt {
    var t := TitleOf(v.osc);
    v.(osc := [], overflow := false, term := if !v.overflow && t.Some? then Title(v.term, t.value) else v.term)
  }

  // ------------------------------------------------------------------ the machine

  /** What has been collected is printed. */
  function Flush(v: Vt): Vt { v.(term := PrintText(v.term, v.printBuf), printBuf := []) }

  function InGround(v: Vt, u: Unit): Vt {
    if u == ESC then Flush(v).(mode := Esc, intermediates := [])
    else if u == CSI8 then Flush(v).(mode := Csi, params := [], intermediates := [])
    else if u < 0x20 then var w := Flush(v); w.(term := Control(w.term, u))
    else if u == DEL then v
    else v.(printBuf := v.printBuf + [u])
  }

  function Collect(v: Vt, u: Unit): Vt {
    if |v.intermediates| < MAX_INTERMEDIATES then v.(intermediates := v.intermediates + [u]) else v
  }

  predicate Intermediate(u: Unit) { 0x20 <= u <= 0x2F }

  function InEsc(v: Vt, u: Unit): Vt {
    if Intermediate(u) then Collect(v, u)
    else if u == 0x5B then v.(mode := Csi, params := [], intermediates := [])
    else if u == 0x5D then v.(mode := Osc, osc := [], overflow := false)
    else if u == 0x50 then v.(mode := Dcs)
    else v.(term := Short(v.term, u), mode := Ground)
  }

  function InCsi(v: Vt, u: Unit): Vt {
    if 0x30 <= u <= 0x3F then
      if |v.params| >= MAX_PARAMS then v.(mode := CsiIgnore) else v.(params := v.params + [u])
    else if Intermediate(u) then Collect(v, u)
    else if u == ESC then v.(mode := Esc, intermediates := [])
    else if u == CAN || u == SUB then v.(mode := Ground)
    else if u < 0x20 then v.(term := Control(v.term, u))
    else if 0x40 <= u <= 0x7E then v.(term := Dispatch(v.term, u, v.params), mode := Ground)
    else v.(mode := Ground)
  }

  function Ignoring(v: Vt, u: Unit): Vt {
    if u == ESC then v.(mode := Esc, intermediates := [])
    else if 0x40 <= u <= 0x7E || u == CAN || u == SUB then v.(mode := Ground) else v
  }

  function InOsc(v: Vt, u: Unit): Vt {
    if u == BEL || u == ST8 then DispatchOsc(v).(mode := Ground)
    else if u == ESC then v.(mode := OscEsc)
    else if u == CAN || u == SUB then v.(osc := [], mode := Ground)
    else if |v.osc| >= MAX_OSC then v.(overflow := true)
    else v.(osc := v.osc + [u])
  }

  /** After an escape inside a string only a backslash ends it; anything else begins a new sequence. */
  function StringEsc(v: Vt, u: Unit): Vt {
    if u == BACKSLASH then (if v.mode == OscEsc then DispatchOsc(v) else v).(mode := Ground)
    else InEsc(v.(osc := [], overflow := false, mode := Esc, intermediates := []), u)
  }

  function InDcs(v: Vt, u: Unit): Vt {
    if u == BEL || u == ST8 || u == CAN || u == SUB then v.(mode := Ground)
    else if u == ESC then v.(mode := DcsEsc) else v
  }

  function Accept(v: Vt, u: Unit): Vt {
    match v.mode
    case Ground => InGround(v, u)
    case Esc => InEsc(v, u)
    case Csi => InCsi(v, u)
    case Osc => InOsc(v, u)
    case Dcs => InDcs(v, u)
    case OscEsc => StringEsc(v, u)
    case DcsEsc => StringEsc(v, u)
    case CsiIgnore => Ignoring(v, u)
  }

  function Feed(v: Vt, data: Text): Vt
    decreases |data|
  {
    if data == [] then v else Feed(Accept(v, data[0]), data[1..])
  }

  function Write(v: Vt, data: Text): Vt { Flush(Feed(v, data)) }

  function WriteAll(v: Vt, chunks: seq<Text>): Vt
    decreases |chunks|
  {
    if chunks == [] then v else WriteAll(Write(v, chunks[0]), chunks[1..])
  }
}
