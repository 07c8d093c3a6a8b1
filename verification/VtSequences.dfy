/** Control sequences do what they say. */
module VtSequences {
  // Control sequences as programs send them: the parser hands exactly their numbers to the screen.

  import opened Utf16
  import opened Numerals
  import opened ScreenModel
  import opened VtModel
  import opened VtTheorems
  import Json = JsonModel
  import ScreenSafety
  import Splitting

  /** Numbers with semicolons between them. */
  function List(ns: seq<nat>): Text
    requires ns != []
  {
    if |ns| == 1 then NatText(ns[0]) else NatText(ns[0]) + [SEMICOLON] + List(ns[1..])
  }

  function Numbers(ns: seq<nat>): (ps: seq<Param>)
    ensures |ps| == |ns| && forall i :: 0 <= i < |ns| ==> ps[i] == Number(ns[i])
  {
    seq(|ns|, i requires 0 <= i < |ns| => Number(ns[i]))
  }

  function Texts(ns: seq<nat>): (ts: seq<Text>)
    ensures |ts| == |ns| && forall i :: 0 <= i < |ns| ==> ts[i] == NatText(ns[i])
  {
    seq(|ns|, i requires 0 <= i < |ns| => NatText(ns[i]))
  }

  /** `ESC [ n ; … f` */
  function Sequence(ns: seq<nat>, f: Unit): Text
    requires ns != []
  {
    [ESC, 0x5B] + List(ns) + [f]
  }

  // ------------------------------------------------------------------ the parameters

  lemma {:induction false} NatIsDigits(n: nat)
    ensures AllDigits(NatText(n))
    decreases n
  {
    if n >= 10 { NatIsDigits(n / 10); }
  }

  lemma {:induction false} NatRead(n: nat)
    requires n <= MAX_PARAM_VALUE
    ensures ToParam(NatText(n)) == Number(n)
  {
    NatIsDigits(n);
    DigitsAll(NatText(n));
    DecimalOfNat(n);
    assert NatText(n)[..|NatText(n)|] == NatText(n);
  }

  lemma {:induction false} PartsOfList(ns: seq<nat>)
    requires ns != []
    ensures Parts(List(ns)) == Texts(ns)
    decreases |ns|
  {
    var t := NatText(ns[0]);
    NatIsDigits(ns[0]);
    if |ns| == 1 {
      assert t + [] == t && Splitting.Index([], SEMICOLON) == 0;
      Splitting.IndexAfter(t, [], SEMICOLON);
      assert Parts(t) == [t];
    } else {
      var rest := List(ns[1..]);
      var whole := t + ([SEMICOLON] + rest);
      assert List(ns) == whole;
      Splitting.IndexAfter(t, [SEMICOLON] + rest, SEMICOLON);
      assert Splitting.Index([SEMICOLON] + rest, SEMICOLON) == 0;
      assert whole[..|t|] == t && whole[|t| + 1..] == rest;
      PartsOfList(ns[1..]);
      assert Parts(whole) == [t] + Parts(rest);
      assert Texts(ns) == [t] + Texts(ns[1..]);
    }
  }

  lemma {:induction false} ListStarts(ns: seq<nat>)
    requires ns != []
    ensures List(ns) != [] && Json.IsDigit(List(ns)[0])
  {
    NatIsDigits(ns[0]);
    NatLonger(ns[0]);
    assert NatText(ns[0])[0] in NatText(ns[0]);
  }

  lemma {:induction false} ParamsOfList(ns: seq<nat>)
    requires 0 < |ns| <= 32 && forall n :: n in ns ==> n <= MAX_PARAM_VALUE
    ensures Params(List(ns)) == Numbers(ns) && !Private(List(ns))
  {
    hide List, Parts, ToParam;
    ListStarts(ns);
    PartsOfList(ns);
    var ps := ToParams(Texts(ns));
    forall i | 0 <= i < |ns| ensures ps[i] == Number(ns[i]) {
      assert ns[i] in ns;
      NatRead(ns[i]);
    }
    assert ps == Numbers(ns);
  }

  // ------------------------------------------------------------------ the machine

  predicate ParamUnits(t: Text) { forall u :: u in t ==> 0x30 <= u <= 0x3F }

  lemma {:induction false} ListUnits(ns: seq<nat>)
    requires ns != []
    ensures ParamUnits(List(ns))
    decreases |ns|
  {
    NatIsDigits(ns[0]);
    if |ns| > 1 { ListUnits(ns[1..]); }
  }

  /** Parameter characters are collected one by one. */
  lemma {:induction false} Collected(v: Vt, t: Text)
    requires v.mode == Csi && ParamUnits(t) && |v.params| + |t| <= MAX_PARAMS
    ensures Feed(v, t) == v.(params := v.params + t)
    decreases |t|
  {
    if t == [] {
      assert v.params + [] == v.params;
    } else {
      hide Dispatch, Control;
      assert t[0] in t && forall u :: u in t[1..] ==> u in t;
      Collected(v.(params := v.params + [t[0]]), t[1..]);
      assert v.params + [t[0]] + t[1..] == v.params + t;
    }
  }

  /**
   * A control sequence of numbers, met between characters, first prints what was collected and then does the
   * operation its final character names on exactly those numbers.
   */
  lemma {:induction false} SequenceDecoded(v: Vt, ns: seq<nat>, f: Unit)
    requires v.mode == Ground && 0 < |ns| <= 32 && (forall n :: n in ns ==> n <= MAX_PARAM_VALUE)
    requires |List(ns)| <= MAX_PARAMS && 0x40 <= f <= 0x7E
    ensures Feed(v, Sequence(ns, f)) == Performed(Flush(v), ns, f)
  {
    hide Dispatch, Flush, List, Motion, Editing, Setting, Params, Control, Short;
    var w := Flush(v).(mode := Csi, params := [], intermediates := []);
    var t := List(ns);
    FeedTwo(v);
    ListUnits(ns);
    Collected(w, t);
    assert [] + t == t;
    FeedAppend(v, [ESC, 0x5B], t);
    FeedAppend(v, [ESC, 0x5B] + t, [f]);
    FeedOne(w.(params := t), f);
    ParamsOfList(ns);
    DispatchNumbers(Flush(v).term, ns, f);
  }

  lemma {:induction false} FeedTwo(v: Vt)
    requires v.mode == Ground
    ensures Feed(v, [ESC, 0x5B]) == Flush(v).(mode := Csi, params := [], intermediates := [])
  {
    hide Flush, Short;
    assert [ESC, 0x5B] == [ESC] + [0x5B];
    FeedAppend(v, [ESC], [0x5B]);
    FeedOne(v, ESC);
    FeedOne(Flush(v).(mode := Esc, intermediates := []), 0x5B);
  }

  function Performed(v: Vt, ns: seq<nat>, f: Unit): Vt
    requires ns != []
  {
    v.(term := Operation(v.term, Numbers(ns), f), mode := Ground, params := List(ns), intermediates := [])
  }

  /** The operation a final character names. */
  function Operation(s: Screen, ps: seq<Param>, f: Unit): Screen {
    if IsMotion(f) then Motion(s, f, ps) else if IsEditing(f) then Editing(s, f, ps) else Setting(s, f, ps, false)
  }

  lemma {:induction false} DispatchNumbers(s: Screen, ns: seq<nat>, f: Unit)
    requires 0 < |ns| <= 32 && forall n :: n in ns ==> n <= MAX_PARAM_VALUE
    ensures Dispatch(s, f, List(ns)) == Operation(s, Numbers(ns), f)
  {
    hide Params, List, Motion, Editing, Setting;
    ParamsOfList(ns);
  }

  /** For one: `ESC [ row ; col H` puts the cursor there, counted from one, or at the edge. */
  lemma {:induction false} CursorAddressed(v: Vt, row: nat, col: nat)
    requires v.mode == Ground && 1 <= row <= MAX_PARAM_VALUE && 1 <= col <= MAX_PARAM_VALUE
    requires ScreenSafety.Inv(Flush(v).term)
    ensures var c := Feed(v, Sequence([row, col], 0x48)).term.cursor;
      c.y + 1 == Least(row, Flush(v).term.rows) && c.x + 1 == Least(col, Flush(v).term.cols)
  {
    hide Flush, Dispatch, Feed, NatText;
    ShortNumber(row);
    ShortNumber(col);
    assert [row, col][1..] == [col];
    assert |List([row, col])| == |NatText(row)| + 1 + |NatText(col)|;
    SequenceDecoded(v, [row, col], 0x48);
  }

  lemma {:induction false} ShortNumber(n: nat)
    requires n <= MAX_PARAM_VALUE
    ensures 0 < |NatText(n)| <= 5
  {
    assert Pow10(5) == 100000 by { assert Pow10(3) == 1000; }
    NatDigits(n, 5);
  }
}
