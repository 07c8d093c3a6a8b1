/** Records as JSON values. */
module BridgeRecords {
  // The sender prints a value and writes it as UTF-8; the receiver decodes the bytes strictly, parses the text and
  // validates the value (runtime/hermit/protocol/bridge.js). `allowed` is the schema of the direction, and `taken`
  // says whether the handler takes the record.

  import opened Common
  import opened Utf16
  import Utf8
  import opened JsonModel
  import opened JsonTheorems
  import J = JournalTheorems
  import B = BridgeModel

  // ------------------------------------------------------------------ text and bytes

  /** A scalar value as units of a string. */
  function UnitsOf(c: Utf8.Point): Text {
    if c < 0x10000 then [c] else [0xD800 + (c - 0x10000) / 1024, 0xDC00 + (c - 0x10000) % 1024]
  }

  function Units(cs: seq<Utf8.Point>): Text { if cs == [] then [] else UnitsOf(cs[0]) + Units(cs[1..]) }

  /** A strict `TextDecoder`: ill-formed bytes are refused, and a byte order mark at the beginning is dropped. */
  function TextOf(bytes: seq<Byte>): Option<Text> {
    match Utf8.Decode(bytes)
    case None => None
    case Some(cs) => Some(Units(if cs != [] && cs[0] == 0xFEFF then cs[1..] else cs))
  }

  /** Every surrogate is half of a pair. */
  predicate Whole(s: Text)
    decreases |s|
  {
    || s == []
    || (Paired(s) && Whole(s[2..]))
    || (!High(s[0]) && !Low(s[0]) && Whole(s[1..]))
  }

  lemma {:induction false} PairUnits(h: Unit, l: Unit)
    requires High(h) && Low(l)
    ensures UnitsOf(Pair(h, l)) == [h, l]
  {
    assert Pair(h, l) - 0x10000 == (h - 0xD800) * 1024 + (l - 0xDC00);
  }

  lemma {:induction false} UnitsOfPoints(s: Text)
    requires Whole(s)
    ensures Units(Points(s)) == s
    decreases |s|
  {
    if s != [] {
      if Paired(s) {
        PairUnits(s[0], s[1]);
        UnitsOfPoints(s[2..]);
        assert Points(s)[1..] == Points(s[2..]);
        assert s == [s[0], s[1]] + s[2..];
      } else {
        UnitsOfPoints(s[1..]);
        assert Points(s)[1..] == Points(s[1..]);
        assert s == [s[0]] + s[1..];
      }
    }
  }

  /** A whole text that does not begin with a byte order mark comes back from its bytes. */
  lemma {:induction false} TextComesBack(s: Text)
    requires Whole(s) && s != [] && s[0] < 0x80
    ensures TextOf(Bytes(s)) == Some(s)
  {
    Utf8.DecodeEncoded(Points(s));
    UnitsOfPoints(s);
    assert Points(s)[0] == s[0];
  }

  // ------------------------------------------------------------------ printed text is whole

  predicate Plain(s: Text) { forall u :: u in s ==> !High(u) && !Low(u) }

  lemma {:induction false} PlainWhole(s: Text)
    requires Plain(s)
    ensures Whole(s)
    decreases |s|
  {
    if s != [] { PlainWhole(s[1..]); }
  }

  lemma {:induction false} WholeAppend(a: Text, b: Text)
    requires Whole(a) && Whole(b)
    ensures Whole(a + b)
    decreases |a|
  {
    if a == [] {
      assert a + b == b;
    } else if Paired(a) {
      assert (a + b)[2..] == a[2..] + b;
      WholeAppend(a[2..], b);
    } else {
      assert (a + b)[1..] == a[1..] + b;
      WholeAppend(a[1..], b);
    }
  }

  lemma {:induction false} EscapedWhole(u: Unit)
    ensures Whole(Escaped(u))
  {
    assert HexDigit(u / 4096) < 0x80 && HexDigit(u / 256 % 16) < 0x80 && HexDigit(u / 16 % 16) < 0x80
        && HexDigit(u % 16) < 0x80;
    PlainWhole(Escaped(u));
  }

  lemma {:induction false} CharsWhole(s: Text)
    ensures Whole(PrintChars(s))
    decreases |s|
  {
    if s != [] {
      if Paired(s) {
        CharsWhole(s[2..]);
        var c := [s[0], s[1]];
        assert c[2..] == [] && Whole(c);
        WholeAppend(c, PrintChars(s[2..]));
      } else {
        CharsWhole(s[1..]);
        UnitWhole(s[0]);
        WholeAppend(PrintUnit(s[0], true), PrintChars(s[1..]));
      }
    }
  }

  lemma {:induction false} UnitWhole(u: Unit)
    ensures Whole(PrintUnit(u, true))
  {
    EscapedWhole(u);
    if !High(u) && !Low(u) { PlainWhole([u]); }
  }

  lemma {:induction false} StringWhole(s: Text)
    ensures Whole(PrintString(s))
  {
    CharsWhole(s);
    PlainWhole([QUOTE]);
    WholeAppend([QUOTE], PrintChars(s));
    WholeAppend([QUOTE] + PrintChars(s), [QUOTE]);
  }

  lemma {:induction false} NumberWhole(t: Text)
    requires NumberLen(t) == |t|
    ensures Whole(t)
  {
    J.NumberUnits(t);
    forall u | u in t ensures !High(u) && !Low(u) { assert J.NumberUnit(u); }
    PlainWhole(t);
  }

  /** Whatever strings a value holds, its print is well-formed: a surrogate alone is escaped. */
  lemma {:induction false} PrintWhole(z: Rules, v: Json)
    requires Good(z, v)
    ensures Whole(Print(v))
    decreases v
  {
    match v
    case Null => PlainWhole(NULL_TEXT);
    case Bool(b) =>
      PlainWhole(TRUE_TEXT);
      PlainWhole(FALSE_TEXT);
    case Num(t) => NumberWhole(t);
    case Str(s) => StringWhole(s);
    case Arr(xs) =>
      ItemsWhole(z, xs);
      PlainWhole([OPEN_ARRAY]);
      PlainWhole([OPEN_ARRAY, CLOSE_ARRAY]);
      WholeAppend([OPEN_ARRAY], PrintItems(xs));
    case Obj(fs) =>
      FieldsWhole(z, fs);
      PlainWhole([OPEN_OBJECT]);
      PlainWhole([OPEN_OBJECT, CLOSE_OBJECT]);
      WholeAppend([OPEN_OBJECT], PrintFields(fs));
  }

  lemma {:induction false} ItemsWhole(z: Rules, xs: Items)
    requires GoodItems(z, xs)
    ensures Whole(PrintItems(xs))
    decreases xs
  {
    if xs.ICons? {
      PrintWhole(z, xs.head);
      ItemsWhole(z, xs.tail);
      PlainWhole([CLOSE_ARRAY]);
      PlainWhole([COMMA]);
      WholeAppend(Print(xs.head), [CLOSE_ARRAY]);
      WholeAppend(Print(xs.head), [COMMA]);
      WholeAppend(Print(xs.head) + [COMMA], PrintItems(xs.tail));
    }
  }

  lemma {:induction false} FieldsWhole(z: Rules, fs: Fields)
    requires GoodFields(z, fs)
    ensures Whole(PrintFields(fs))
    decreases fs
  {
    if fs.FCons? {
      var k, v := PrintString(fs.key), Print(fs.value);
      StringWhole(fs.key);
      PrintWhole(z, fs.value);
      FieldsWhole(z, fs.rest);
      PlainWhole([COLON]);
      PlainWhole([CLOSE_OBJECT]);
      PlainWhole([COMMA]);
      WholeAppend(k, [COLON]);
      WholeAppend(k + [COLON], v);
      WholeAppend(k + [COLON] + v, [CLOSE_OBJECT]);
      WholeAppend(k + [COLON] + v, [COMMA]);
      WholeAppend(k + [COLON] + v + [COMMA], PrintFields(fs.rest));
    }
  }

  // ------------------------------------------------------------------ records

  datatype Contract = Contract(rules: StrictRules, allowed: Json -> bool, taken: Json -> bool)

  /** The record that a body carries, when it carries one that may come this way and is taken. */
  function RecordOf(y: Contract, body: seq<Byte>): Option<Json> {
    match TextOf(body)
    case None => None
    case Some(text) =>
      match Parse(y.rules, text)
      case Err(_) => None
      case Ok(v) => if v.Obj? && y.allowed(v) && y.taken(v) then Some(v) else None
  }

  function Accepts(y: Contract): seq<Byte> -> bool { body => RecordOf(y, body).Some? }

  function BodyOf(v: Json): seq<Byte> { Bytes(Print(v)) }

  /** A record that `encodeRecord` sends and the other end takes. */
  predicate Sent(y: Contract, v: Json) {
    v.Obj? && Good(y.rules, v) && Depth(v) <= y.rules.maxDepth && y.allowed(v) && y.taken(v)
        && 0 < |BodyOf(v)| <= B.MAX_BODY
  }

  lemma {:induction false} RecordRead(y: Contract, v: Json)
    requires Sent(y, v)
    ensures RecordOf(y, BodyOf(v)) == Some(v) && B.Sendable(Accepts(y), BodyOf(v))
  {
    PrintWhole(y.rules, v);
    assert Print(v) != [] && Print(v)[0] == OPEN_OBJECT;
    TextComesBack(Print(v));
    ParsePrinted(y.rules, v);
  }

  function Bodies(vs: seq<Json>): seq<seq<Byte>> { if vs == [] then [] else [BodyOf(vs[0])] + Bodies(vs[1..]) }

  /** The records that were received. */
  function Records(y: Contract, bodies: seq<seq<Byte>>): seq<Option<Json>> {
    if bodies == [] then [] else [RecordOf(y, bodies[0])] + Records(y, bodies[1..])
  }

  function Somes(vs: seq<Json>): seq<Option<Json>> { if vs == [] then [] else [Some(vs[0])] + Somes(vs[1..]) }

  lemma {:induction false} AllRead(y: Contract, vs: seq<Json>)
    requires forall v :: v in vs ==> Sent(y, v)
    ensures B.AllSendable(Accepts(y), Bodies(vs)) && Records(y, Bodies(vs)) == Somes(vs)
    decreases |vs|
  {
    hide RecordOf, BodyOf, Sent;
    if vs != [] {
      assert vs[0] in vs;
      RecordRead(y, vs[0]);
      AllRead(y, vs[1..]);
      assert Bodies(vs)[1..] == Bodies(vs[1..]);
    }
  }

  /** The values that are sent are the values that arrive, in order, in whatever pieces the bytes come. */
  lemma {:induction false} ValuesArrive(y: Contract, vs: seq<Json>, chunks: seq<seq<Byte>>)
    requires forall v :: v in vs ==> Sent(y, v)
    ensures B.AllSendable(Accepts(y), Bodies(vs))
    ensures B.Concat(chunks) == B.EncodeAll(Accepts(y), Bodies(vs)) ==>
      var rx := B.ReceiveAll(Accepts(y), B.START, chunks);
      rx.failed.None? && B.Clean(rx) && Records(y, rx.records) == Somes(vs)
  {
    AllRead(y, vs);
    B.CuttingIsInvisible(Accepts(y), B.START, chunks);
    B.RoundTrip(Accepts(y), B.START, Bodies(vs));
    assert [] + Bodies(vs) == Bodies(vs);
  }
}
