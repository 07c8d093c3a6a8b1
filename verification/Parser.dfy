/** The parser as the object that drives a screen: each state's method against the machine's step. */
module VtParser {
  import opened Common
  import opened Utf16
  import opened ScreenModel
  import opened ScreenSafety
  import opened VtModel
  import opened VtTheorems
  import opened TerminalScreen

  class Parser {
    const term: TerminalScreen.Screen
    var state: Mode
    var params: Text
    var intermediates: Text
    var osc: Text
    var oscOverflow: bool
    var printBuf: Text

    function State(): Vt
      reads this, term
    {
      Vt(term.State(), state, params, intermediates, osc, oscOverflow, printBuf)
    }

    predicate Valid()
      reads this, term
    {
      Inv(term.State()) && Bounded(State())
    }

    constructor (term: TerminalScreen.Screen)
      requires Inv(term.State())
      ensures this.term == term && State() == Start(term.State()) && Valid()
    {
      this.term := term;
      state, params, intermediates, osc, oscOverflow, printBuf := Ground, [], [], [], false, [];
    }

    /** Forgets what was collected, without printing it. */
    method Reset()
      modifies this
      ensures State() == old(State()).(mode := Ground, params := [], intermediates := [], osc := [], printBuf := [])
    {
      state := Ground;
      params, intermediates, osc, printBuf := [], [], [], [];
    }

    /**
     * One chunk of output: the screen and the parser are where the stream's meaning puts them. The cursor must not be
     * restored to a place that a resize left outside; with a saved cursor on the screen, or none, no chunk does that.
     */
    method Write(data: Text)
      requires Valid() && NeverOutside(State(), data)
      modifies this, term
      ensures State() == VtModel.Write(old(State()), data) && Valid()
      ensures Next(old(term.State()), term.State())
    {
      hide VtModel.Accept, VtModel.Flush, Inv, SavedFits, Bounded, Next, NeverOutside;
      ghost var v := State();
      StreamNext(v, data);
      FeedBounded(v, data);
      WriteKeeps(v, data);
      assert data[..0] == [];
      for i := 0 to |data|
        invariant State() == Feed(v, data[..i])
      {
        FeedMore(v, data, i);
        PrefixInside(v, data, i);
        StreamNext(v, data[..i]);
        NextInv(v.term, term.State());
        Accept(data[i]);
      }
      assert data[..|data|] == data;
      NextInv(v.term, term.State());
      FlushBounded(State());
      Flush();
      NextInv(v.term, term.State());
    }

    lemma {:induction false} FeedMore(v: Vt, data: Text, i: nat)
      requires i < |data|
      ensures Feed(v, data[..i + 1]) == VtModel.Accept(Feed(v, data[..i]), data[i])
    {
      assert data[..i + 1] == data[..i] + [data[i]];
      FeedAppend(v, data[..i], [data[i]]);
      FeedOne(Feed(v, data[..i]), data[i]);
    }

    lemma {:induction false} PrefixInside(v: Vt, data: Text, i: nat)
      requires NeverOutside(v, data) && i <= |data|
      ensures NeverOutside(v, data[..i])
      decreases i
    {
      hide VtModel.Accept, SavedFits;
      if i > 0 {
        assert data[..i][1..] == data[1..][..i - 1];
        PrefixInside(VtModel.Accept(v, data[0]), data[1..], i - 1);
      }
    }

    lemma {:induction false} FlushBounded(v: Vt)
      requires Bounded(v)
      ensures Bounded(VtModel.Flush(v))
    {}

    method Flush()
      requires Inv(term.State())
      modifies `printBuf, term
      ensures State() == VtModel.Flush(old(State()))
    {
      if printBuf != [] {
        term.Print(printBuf);
        printBuf := [];
      }
    }

    method Accept(u: Unit)
      requires Inv(term.State())
      modifies this, term
      ensures State() == VtModel.Accept(old(State()), u)
    {
      hide VtModel.InGround, VtModel.InEsc, VtModel.InCsi, VtModel.InOsc, VtModel.InDcs, VtModel.StringEsc,
          VtModel.Ignoring, Inv;
      match state
      case Ground => InGround(u);
      case Esc => InEsc(u);
      case Csi => InCsi(u);
      case Osc => InOsc(u);
      case Dcs => InDcs(u);
      case CsiIgnore => Ignore(u);
      case OscEsc => StringEsc(u, true);
      case DcsEsc => StringEsc(u, false);
    }

    method InGround(u: Unit)
      requires Inv(term.State())
      modifies this, term
      ensures State() == VtModel.InGround(old(State()), u)
    {
      hide VtModel.Flush, VtModel.Control, Inv, Next;
      ghost var v := State();
      FlushNext(v);
      NextInv(v.term, VtModel.Flush(v).term);
      if u == ESC {
        Flush();
        state, intermediates := Esc, [];
      } else if u == CSI8 {
        Flush();
        state, params, intermediates := Csi, [], [];
      } else if u < 0x20 {
        Flush();
        Control(u);
      } else if u != DEL {
        printBuf := printBuf + [u];
      }
    }

    method Control(u: Unit)
      requires Inv(term.State())
      modifies term
      ensures State() == old(State()).(term := VtModel.Control(old(term.State()), u))
    {
      if u == BEL { term.Bell(); }
      else if u == 0x08 { term.Backspace(); }
      else if u == 0x09 { term.Tab(); }
      else if u == 0x0A || u == 0x0B || u == 0x0C { term.LineFeed(); }
      else if u == 0x0D { term.CarriageReturn(); }
    }

    method Collect(u: Unit)
      modifies `intermediates
      ensures State() == VtModel.Collect(old(State()), u)
    {
      if |intermediates| < MAX_INTERMEDIATES { intermediates := intermediates + [u]; }
    }

    method InEsc(u: Unit)
      requires Inv(term.State())
      modifies this, term
      ensures State() == VtModel.InEsc(old(State()), u)
    {
      hide VtModel.Short, Inv;
      if Intermediate(u) {
        Collect(u);
      } else if u == 0x5B {
        state, params, intermediates := Csi, [], [];
      } else if u == 0x5D {
        state, osc, oscOverflow := Osc, [], false;
      } else if u == 0x50 {
        state := Dcs;
      } else {
        Short(u);
        state := Ground;
      }
    }

    method Short(u: Unit)
      requires Inv(term.State())
      modifies term
      ensures State() == old(State()).(term := VtModel.Short(old(term.State()), u))
    {
      if u == 0x37 { term.SaveCursor(); }
      else if u == 0x38 { term.RestoreCursor(); }
      else if u == 0x44 { term.LineFeedScroll(); }
      else if u == 0x45 { term.NextLine(); }
      else if u == 0x4D { term.ReverseIndex(); }
      else if u == 0x48 { term.SetTab(); }
      else if u == 0x63 { term.Reset(); }
    }

    method InCsi(u: Unit)
      requires Inv(term.State())
      modifies this, term
      ensures State() == VtModel.InCsi(old(State()), u)
    {
      hide VtModel.Dispatch, VtModel.Control, Inv;
      if 0x30 <= u <= 0x3F {
        if |params| >= MAX_PARAMS { state := CsiIgnore; } else { params := params + [u]; }
      } else if Intermediate(u) {
        Collect(u);
      } else if u == ESC {
        state, intermediates := Esc, [];
      } else if u == CAN || u == SUB {
        state := Ground;
      } else if u < 0x20 {
        Control(u);
      } else {
        if 0x40 <= u <= 0x7E { DispatchCsi(u); }
        state := Ground;
      }
    }

    method DispatchCsi(f: Unit)
      requires Inv(term.State())
      modifies term
      ensures State() == old(State()).(term := Dispatch(old(term.State()), f, params))
    {
      hide VtModel.Motion, VtModel.Editing, VtModel.Setting, Inv;
      var ps := Params(params);
      if IsMotion(f) {
        Motion(f, ps);
      } else if IsEditing(f) {
        Editing(f, ps);
      } else {
        Setting(f, ps, Private(params));
      }
    }

    method Motion(f: Unit, ps: seq<Param>)
      requires Inv(term.State())
      modifies term
      ensures State() == old(State()).(term := VtModel.Motion(old(term.State()), f, ps))
    {
      var n := Arg(ps, 0, 1);
      if f == 0x41 { term.CursorUp(n); }
      else if f == 0x42 { term.CursorDown(n); }
      else if f == 0x43 { term.CursorForward(n); }
      else if f == 0x44 { term.CursorBack(n); }
      else if f == 0x45 { term.CursorNextLine(n); }
      else if f == 0x46 { term.CursorPrevLine(n); }
      else if f == 0x47 || f == 0x60 { term.CursorCol(n); }
      else if f == 0x64 { term.CursorRow(n); }
      else if f == 0x48 || f == 0x66 { term.CursorPos(n, Arg(ps, 1, 1)); }
    }

    method Editing(f: Unit, ps: seq<Param>)
      requires Inv(term.State())
      modifies term
      ensures State() == old(State()).(term := VtModel.Editing(old(term.State()), f, ps))
    {
      if f == 0x4A { term.EraseInDisplay(Arg(ps, 0, 0)); }
      else if f == 0x4B { term.EraseInLine(Arg(ps, 0, 0)); }
      else if f == 0x4C { term.InsertLines(Arg(ps, 0, 1)); }
      else if f == 0x4D { term.DeleteLines(Arg(ps, 0, 1)); }
      else if f == 0x40 { term.InsertChars(Arg(ps, 0, 1)); }
      else if f == 0x50 { term.DeleteChars(Arg(ps, 0, 1)); }
      else if f == 0x58 { term.EraseChars(Arg(ps, 0, 1)); }
      else if f == 0x53 { term.ScrollUp(Arg(ps, 0, 1)); }
      else if f == 0x54 { term.ScrollDown(Arg(ps, 0, 1)); }
    }

    method Setting(f: Unit, ps: seq<Param>, priv: bool)
      requires Inv(term.State())
      modifies term
      ensures State() == old(State()).(term := VtModel.Setting(old(term.State()), f, ps, priv))
    {
      if f == 0x72 { term.SetScrollRegion(Arg(ps, 0, 1), Arg(ps, 1, term.rows)); }
      else if f == 0x6D { term.SetSgr(Zeroed(ps)); }
      else if f == 0x68 { term.SetMode(Given(ps), priv, true); }
      else if f == 0x6C { term.SetMode(Given(ps), priv, false); }
      else if f == 0x73 { term.SaveCursor(); }
      else if f == 0x75 { term.RestoreCursor(); }
    }

    method Ignore(u: Unit)
      modifies `state, `intermediates
      ensures State() == Ignoring(old(State()), u)
    {
      if u == ESC {
        state, intermediates := Esc, [];
      } else if 0x40 <= u <= 0x7E || u == CAN || u == SUB {
        state := Ground;
      }
    }

    method InOsc(u: Unit)
      modifies this, term
      ensures State() == VtModel.InOsc(old(State()), u)
    {
      hide VtModel.DispatchOsc;
      if u == BEL || u == ST8 {
        DispatchOsc();
        state := Ground;
      } else if u == ESC {
        state := OscEsc;
      } else if u == CAN || u == SUB {
        osc, state := [], Ground;
      } else if |osc| >= MAX_OSC {
        oscOverflow := true;
      } else {
        osc := osc + [u];
      }
    }

    method DispatchOsc()
      modifies `osc, `oscOverflow, term
      ensures State() == VtModel.DispatchOsc(old(State()))
    {
      var title := TitleOf(osc);
      var overflow := oscOverflow;
      osc, oscOverflow := [], false;
      if overflow || title.None? { return; }
      term.OnTitle(title.value);
    }

    method StringEsc(u: Unit, isOsc: bool)
      requires Inv(term.State()) && (state == OscEsc || state == DcsEsc) && isOsc == (state == OscEsc)
      modifies this, term
      ensures State() == VtModel.StringEsc(old(State()), u)
    {
      hide VtModel.DispatchOsc, VtModel.InEsc, Inv;
      if u == BACKSLASH {
        if isOsc { DispatchOsc(); }
        state := Ground;
        return;
      }
      osc, oscOverflow := [], false;
      state, intermediates := Esc, [];
      InEsc(u);
    }

    method InDcs(u: Unit)
      modifies `state
      ensures State() == VtModel.InDcs(old(State()), u)
    {
      if u == BEL || u == ST8 || u == CAN || u == SUB { state := Ground; } else if u == ESC { state := DcsEsc; }
    }
  }
}
