/** Loading undoes appending. */
module JournalTheorems {
  // The head stands for the whole history when the digest is injective.

  import opened Common
  import opened Utf16
  import opened JsonModel
  import opened JsonTheorems
  import opened Canonical
  import opened Splitting
  import opened JournalModel
  import opened Numerals

  // ------------------------------------------------------------------ what is printed is one line

  predicate NumberUnit(u: Unit) { IsDigit(u) || u == MINUS || u == PLUS || u == POINT || IsExp(u) }

  predicate OnlyNumberUnits(t: Text) { forall u :: u in t ==> NumberUnit(u) }

  lemma {:induction false} DigitUnits(t: Text)
    ensures OnlyNumberUnits(t[..Digits(t)])
    decreases |t|
  {
    if t != [] && IsDigit(t[0]) {
      DigitUnits(t[1..]);
      assert t[..Digits(t)] == [t[0]] + t[1..][..Digits(t[1..])];
    }
  }

  lemma {:induction false} IntUnits(t: Text)
    ensures OnlyNumberUnits(t[..IntLen(t)])
  {
    DigitUnits(t);
    if t != [] && t[0] == ZERO { assert t[..1] == [t[0]]; }
  }

  lemma {:induction false} FracUnits(t: Text)
    ensures OnlyNumberUnits(t[..FracLen(t)])
  {
    if FracLen(t) > 0 {
      DigitUnits(t[1..]);
      assert t[..FracLen(t)] == [t[0]] + t[1..][..Digits(t[1..])];
    }
  }

  lemma {:induction false} ExpUnits(t: Text)
    ensures OnlyNumberUnits(t[..ExpLen(t)])
  {
    if ExpLen(t) > 0 {
      var k := 1 + SignLen(t[1..]);
      DigitUnits(t[k..]);
      assert t[..ExpLen(t)] == t[..k] + t[k..][..Digits(t[k..])];
      assert t[..k] == if k == 1 then [t[0]] else [t[0], t[1]];
    }
  }

  lemma {:induction false} AfterIntUnits(t: Text)
    ensures OnlyNumberUnits(t[..AfterInt(t)])
  {
    var c := FracLen(t);
    FracUnits(t);
    ExpUnits(t[c..]);
    assert t[..AfterInt(t)] == t[..c] + t[c..][..ExpLen(t[c..])];
  }

  lemma {:induction false} ThreePieces(t: Text, a: nat, b: nat, c: nat)
    requires a + b + c == |t|
    requires OnlyNumberUnits(t[..a]) && OnlyNumberUnits(t[a..][..b]) && OnlyNumberUnits(t[a + b..][..c])
    ensures OnlyNumberUnits(t)
  {
    assert t == t[..a] + t[a..][..b] + t[a + b..][..c];
  }

  lemma {:induction false} NumberUnits(t: Text)
    requires NumberLen(t) == |t|
    ensures OnlyNumberUnits(t)
  {
    if t != [] {
      var a := MinusLen(t);
      var b := IntLen(t[a..]);
      IntUnits(t[a..]);
      AfterIntUnits(t[a + b..]);
      assert OnlyNumberUnits(t[..a]);
      ThreePieces(t, a, b, AfterInt(t[a + b..]));
    }
  }

  predicate OneLine(t: Text) { NEWLINE !in t }

  lemma {:induction false} EscapedOneLine(u: Unit)
    ensures OneLine(Escaped(u))
  {
    HexSplit(u);
    HexDigitValue(u / 4096);
    HexDigitValue(u / 256 % 16);
    HexDigitValue(u / 16 % 16);
    HexDigitValue(u % 16);
  }

  lemma {:induction false} CharsOneLine(s: Text)
    ensures OneLine(PrintChars(s))
    decreases |s|
  {
    if s != [] {
      if Paired(s) {
        CharsOneLine(s[2..]);
      } else {
        EscapedOneLine(s[0]);
        CharsOneLine(s[1..]);
      }
    }
  }

  lemma {:induction false} StringOneLine(s: Text)
    ensures OneLine(PrintString(s))
  {
    CharsOneLine(s);
  }

  /** A printed value has no line break. */
  lemma {:induction false} PrintOneLine(z: Rules, v: Json)
    requires Good(z, v)
    ensures OneLine(Print(v))
    decreases v
  {
    match v
    case Num(t) => NumberUnits(t);
    case Str(s) => StringOneLine(s);
    case Arr(xs) => ItemsOneLine(z, xs);
    case Obj(fs) => FieldsOneLine(z, fs);
    case _ =>
  }

  lemma {:induction false} ItemsOneLine(z: Rules, xs: Items)
    requires GoodItems(z, xs)
    ensures OneLine(PrintItems(xs))
    decreases xs
  {
    if xs.ICons? {
      PrintOneLine(z, xs.head);
      ItemsOneLine(z, xs.tail);
      ItemsPrinted(xs);
    }
  }

  lemma {:induction false} FieldsOneLine(z: Rules, fs: Fields)
    requires GoodFields(z, fs)
    ensures OneLine(PrintFields(fs))
    decreases fs
  {
    if fs.FCons? {
      StringOneLine(fs.key);
      PrintOneLine(z, fs.value);
      FieldsOneLine(z, fs.rest);
      FieldsPrinted(fs);
    }
  }

  /** A text is longer than its value is deep, so a line never nests past its own length. */
  lemma {:induction false} DepthFits(v: Json)
    ensures Depth(v) <= |Print(v)|
    decreases v
  {
    match v
    case Arr(xs) => ItemsDepthFits(xs);
    case Obj(fs) => FieldsDepthFits(fs);
    case _ =>
  }

  lemma {:induction false} ItemsDepthFits(xs: Items)
    ensures ItemsDepth(xs) <= |PrintItems(xs)|
    decreases xs
  {
    if xs.ICons? {
      DepthFits(xs.head);
      ItemsDepthFits(xs.tail);
      ItemsPrinted(xs);
    }
  }

  lemma {:induction false} FieldsDepthFits(fs: Fields)
    ensures FieldsDepth(fs) <= |PrintFields(fs)|
    decreases fs
  {
    if fs.FCons? {
      DepthFits(fs.value);
      FieldsDepthFits(fs.rest);
      FieldsPrinted(fs);
    }
  }

  /** A printed line is parsed to its value, with `null` for every number that is not finite. */
  lemma {:induction false} LineParsed(y: Setup, v: Json)
    requires Sound(y.rules, v)
    ensures ParseLine(y, Print(v)) == Ok(Nulled(v))
  {
    hide Good, Print, Nulled, Parse, Depth;
    var z := Loose(y.rules, Print(v));
    DepthFits(v);
    GoodAnyDepth(y.rules, z, Nulled(v));
    ParseWritten(z, v);
  }

  // ------------------------------------------------------------------ loading what was appended

  lemma {:induction false} KeysDiffer()
    ensures SEQ != PREV && SEQ != EVENT && SEQ != HASH && PREV != EVENT && PREV != HASH && EVENT != HASH
  {
    assert SEQ[0] != PREV[0] && SEQ[0] != EVENT[0] && SEQ[0] != HASH[0];
    assert PREV[0] != EVENT[0] && PREV[0] != HASH[0] && EVENT[0] != HASH[0];
  }

  lemma {:induction false} FirstField(k: Text, v: Json, rest: Fields, j: Text)
    ensures Field(FCons(k, v, rest), j) == if j == k then Some(v) else Field(rest, j)
    ensures Without(FCons(k, v, rest), j) == if j == k then rest else FCons(k, v, Without(rest, j))
  {}

  lemma {:induction false} RecordFields(seqNo: nat, prev: Text, event: Json, hash: Text)
    ensures var fs := Record(seqNo, prev, event, hash).fields;
      && Field(fs, SEQ) == Some(Num(NatText(seqNo))) && Field(fs, PREV) == Some(Str(prev))
      && Field(fs, EVENT) == Some(event) && Field(fs, HASH) == Some(Str(hash))
      && Obj(Without(fs, HASH)) == Body(seqNo, prev, event)
  {
    hide Field, Without, HasKey, Lookup;
    KeysDiffer();
    var f4 := FCons(HASH, Str(hash), FNil);
    var f3 := FCons(EVENT, event, f4);
    var f2 := FCons(PREV, Str(prev), f3);
    FirstField(HASH, Str(hash), FNil, HASH);
    FirstField(EVENT, event, f4, HASH);
    FirstField(EVENT, event, f4, EVENT);
    FirstField(PREV, Str(prev), f3, HASH);
    FirstField(PREV, Str(prev), f3, EVENT);
    FirstField(PREV, Str(prev), f3, PREV);
    FirstField(SEQ, Num(NatText(seqNo)), f2, HASH);
    FirstField(SEQ, Num(NatText(seqNo)), f2, EVENT);
    FirstField(SEQ, Num(NatText(seqNo)), f2, PREV);
    FirstField(SEQ, Num(NatText(seqNo)), f2, SEQ);
  }

  lemma {:induction false} LackKey(k: Text, v: Json, rest: Fields, j: Text)
    requires j != k && !HasKey(rest, j)
    ensures !HasKey(FCons(k, v, rest), j)
  {}

  lemma {:induction false} GoodCons(z: Rules, k: Text, v: Json, rest: Fields)
    requires !HasKey(rest, k) && Good(z, v) && GoodFields(z, rest)
    ensures GoodFields(z, FCons(k, v, rest))
  {}

  lemma {:induction false} GoodNat(z: Rules, n: nat)
    requires NumberLaws(z) && n <= MAX_SAFE
    ensures Good(z, Num(NatText(n)))
  {
    NatIsNumber(n);
    NatLonger(n);
  }

  lemma {:induction false} RecordNulled(seqNo: nat, prev: Text, event: Json, hash: Text)
    ensures Nulled(Record(seqNo, prev, event, hash)) == Record(seqNo, prev, Nulled(event), hash)
    ensures Nulled(Body(seqNo, prev, event)) == Body(seqNo, prev, Nulled(event))
  {
    hide NatText;
    var seqs, h := Num(NatText(seqNo)), FCons(HASH, Str(hash), FNil);
    NulledCons(HASH, Str(hash), FNil);
    NulledCons(EVENT, event, h);
    NulledCons(EVENT, event, FNil);
    NulledCons(PREV, Str(prev), FCons(EVENT, event, h));
    NulledCons(PREV, Str(prev), FCons(EVENT, event, FNil));
    NulledCons(SEQ, seqs, FCons(PREV, Str(prev), FCons(EVENT, event, h)));
    NulledCons(SEQ, seqs, FCons(PREV, Str(prev), FCons(EVENT, event, FNil)));
  }

  lemma {:induction false} NulledCons(k: Text, v: Json, fs: Fields)
    ensures NulledFields(FCons(k, v, fs)) == FCons(k, Nulled(v), NulledFields(fs))
  {}

  lemma {:induction false} RecordSound(z: Rules, seqNo: nat, prev: Text, event: Json, hash: Text)
    requires NumberLaws(z) && Sound(z, event) && seqNo <= MAX_SAFE
    ensures Sound(z, Record(seqNo, prev, event, hash))
  {
    RecordNulled(seqNo, prev, event, hash);
    RecordGood(z, seqNo, prev, Nulled(event), hash);
  }

  lemma {:induction false} RecordGood(z: Rules, seqNo: nat, prev: Text, event: Json, hash: Text)
    requires NumberLaws(z) && Good(z, event) && seqNo <= MAX_SAFE
    ensures Good(z, Record(seqNo, prev, event, hash))
  {
    KeysDiffer();
    GoodNat(z, seqNo);
    assert Good(z, Str(hash)) && Good(z, Str(prev));
    var f4 := FCons(HASH, Str(hash), FNil);
    LackKey(HASH, Str(hash), FNil, SEQ);
    LackKey(HASH, Str(hash), FNil, PREV);
    LackKey(HASH, Str(hash), FNil, EVENT);
    assert GoodFields(z, f4);
    hide GoodFields, HasKey;
    var f3 := FCons(EVENT, event, f4);
    GoodCons(z, EVENT, event, f4);
    LackKey(EVENT, event, f4, PREV);
    LackKey(EVENT, event, f4, SEQ);
    GoodCons(z, PREV, Str(prev), f3);
    LackKey(PREV, Str(prev), f3, SEQ);
    GoodCons(z, SEQ, Num(NatText(seqNo)), FCons(PREV, Str(prev), f3));
  }

  /** The line of a record follows the journal it was made for. */
  lemma {:induction false} OwnStep(y: Setup, j: Journal, event: Json, text: Text)
    requires NumberLaws(y.rules) && Sound(y.rules, event) && j.seqNo < MAX_SAFE
    requires Canon(Body(j.seqNo + 1, j.head, event)) == Some(text)
    ensures Step(y, j, LineText(j.seqNo + 1, j.head, event, y.sha(text)))
         == Ok(Journal(j.seqNo + 1, y.sha(text), j.events + [Some(Nulled(event))]))
  {
    hide NumberLaws, Sound, Canon, Nulled, Print, ParseLine, Field, Without;
    var n, hash := j.seqNo + 1, y.sha(text);
    RecordSound(y.rules, n, j.head, event, hash);
    LineParsed(y, Record(n, j.head, event, hash));
    RecordNulled(n, j.head, event, hash);
    CanonNulled(Body(n, j.head, event));
    RecordFields(n, j.head, Nulled(event), hash);
  }

  lemma {:induction false} StepsAppend(y: Setup, j: Journal, lines: seq<Text>, line: Text)
    requires Steps(y, j, lines).Ok?
    ensures Steps(y, j, lines + [line]) == Step(y, Steps(y, j, lines).value, line)
    decreases |lines|
  {
    hide Step;
    if lines == [] {
      assert lines + [line] == [line] && [line][1..] == [];
    } else {
      assert (lines + [line])[1..] == lines[1..] + [line];
      StepsAppend(y, Step(y, j, lines[0]).value, lines[1..], line);
    }
  }

  /** A file that ends with a whole line and loads to the journal that wrote it. */
  predicate Faithful(y: Setup, j: Journal, raw: Text) {
    (raw == [] || raw[|raw| - 1] == NEWLINE) && Load(y, raw) == Ok(j)
  }

  lemma {:induction false} LineShape(z: Rules, v: Json)
    requires Sound(z, v)
    ensures Print(v) != [] && !Low(Print(v)[0]) && OneLine(Print(v))
  {
    PrintNulled(v);
    PrintOneLine(z, Nulled(v));
    PrintStarts(z, Nulled(v));
  }

  lemma {:induction false} LoadLonger(y: Setup, raw: Text, line: Text, j: Journal, k: Journal)
    requires Faithful(y, j, raw) && line != [] && !Low(line[0]) && OneLine(line)
    requires Step(y, j, line) == Ok(k)
    requires ByteLength(raw) + ByteLength(line + [NEWLINE]) <= y.maxBytes
    ensures Faithful(y, k, raw + (line + [NEWLINE]))
  {
    var tail := line + [NEWLINE];
    assert tail[0] == line[0];
    LengthsAdd(raw, tail);
    SplitAppend(raw, line, NEWLINE);
    StepsAppend(y, EMPTY, Split(raw, NEWLINE), line);
  }

  /** The journal in a file, one event further: what the file holds of the event is what is left of it. */
  function Longer(kept: Journal, next: Journal, event: Json): Journal {
    Journal(next.seqNo, next.head, kept.events + [Some(Nulled(event))])
  }

  lemma {:induction false} AcceptedLoads(y: Setup, j: Journal, raw: Text, event: Json, text: Text)
    requires NumberLaws(y.rules) && Sound(y.rules, event) && j.seqNo < MAX_SAFE && Faithful(y, j, raw)
    requires Canon(Body(j.seqNo + 1, j.head, event)) == Some(text)
    requires ByteLength(raw) + ByteLength(LineText(j.seqNo + 1, j.head, event, y.sha(text)) + [NEWLINE]) <= y.maxBytes
    ensures Faithful(y, Journal(j.seqNo + 1, y.sha(text), j.events + [Some(Nulled(event))]),
                     raw + (LineText(j.seqNo + 1, j.head, event, y.sha(text)) + [NEWLINE]))
  {
    hide Canon, Print, Sound, NumberLaws, Faithful, Step, Record, Body, ByteLength, Nulled;
    var hash := y.sha(text);
    RecordSound(y.rules, j.seqNo + 1, j.head, event, hash);
    LineShape(y.rules, Record(j.seqNo + 1, j.head, event, hash));
    OwnStep(y, j, event, text);
    LoadLonger(y, raw, LineText(j.seqNo + 1, j.head, event, hash), j,
        Journal(j.seqNo + 1, hash, j.events + [Some(Nulled(event))]));
  }

  /**
   * One append, refused or not, to a file that loads to `kept`, a journal with the number and the head of the one in
   * memory: the file loads to `kept` still, or to that and what is left of the event.
   */
  lemma {:induction false} AppendLoads(y: Setup, j: Journal, kept: Journal, raw: Text, event: Json)
    requires NumberLaws(y.rules) && Sound(y.rules, event) && j.seqNo < MAX_SAFE
    requires Faithful(y, kept, raw) && kept.seqNo == j.seqNo && kept.head == j.head
    ensures var (next, file, fault) := Append(y, j, raw, event);
      Faithful(y, if fault.None? then Longer(kept, next, event) else kept, file)
  {
    hide Canon, Sound, NumberLaws, Faithful, LineText, Body, ByteLength;
    var c := Canon(Body(j.seqNo + 1, j.head, event));
    if c.Some? {
      var line := LineText(j.seqNo + 1, j.head, event, y.sha(c.value)) + [NEWLINE];
      if ByteLength(raw) + ByteLength(line) <= y.maxBytes { AcceptedLoads(y, kept, raw, event, c.value); }
    }
  }

  predicate AllSound(z: Rules, events: seq<Json>) { events == [] || (Sound(z, events[0]) && AllSound(z, events[1..])) }

  function NulledEvent(e: Option<Json>): Option<Json> { if e.Some? then Some(Nulled(e.value)) else None }

  function NulledEvents(es: seq<Option<Json>>): seq<Option<Json>> {
    if es == [] then [] else NulledEvents(es[..|es| - 1]) + [NulledEvent(es[|es| - 1])]
  }

  /** A journal as it is after a restart, when all of it was appended. */
  function Reread(j: Journal): Journal { j.(events := NulledEvents(j.events)) }

  predicate FiniteEvent(e: Option<Json>) { e.Some? ==> Finite(e.value) }

  predicate AllFinite(es: seq<Option<Json>>) { forall e :: e in es ==> FiniteEvent(e) }

  lemma {:induction false} NulledEventsSame(es: seq<Option<Json>>)
    ensures NulledEvents(es) == es <==> AllFinite(es)
    decreases |es|
  {
    if es != [] {
      var init, last := es[..|es| - 1], es[|es| - 1];
      assert es == init + [last];
      NulledEventsSame(init);
      NulledLength(init);
      if last.Some? { NulledSame(last.value); }
      assert NulledEvents(es)[..|init|] == NulledEvents(init) && NulledEvents(es)[|init|] == NulledEvent(last);
      assert AllFinite(es) <==> AllFinite(init) && FiniteEvent(last);
    }
  }

  lemma {:induction false} NulledLength(es: seq<Option<Json>>)
    ensures |NulledEvents(es)| == |es|
    decreases |es|
  {
    if es != [] { NulledLength(es[..|es| - 1]); }
  }

  lemma {:induction false} RereadLonger(j: Journal, next: Journal, event: Json)
    requires next.events == j.events + [Some(event)]
    ensures Longer(Reread(j), next, event) == Reread(next)
  {
    assert next.events[..|j.events|] == j.events;
  }

  lemma {:induction false} AppendRereads(y: Setup, j: Journal, raw: Text, event: Json)
    requires NumberLaws(y.rules) && Sound(y.rules, event) && j.seqNo < MAX_SAFE && Faithful(y, Reread(j), raw)
    ensures var (next, file, _) := Append(y, j, raw, event);
        Faithful(y, Reread(next), file) && next.seqNo <= j.seqNo + 1
  {
    hide Canon, Sound, NumberLaws, Faithful, LineText, Body, ByteLength;
    AppendLoads(y, j, Reread(j), raw, event);
    var (next, file, fault) := Append(y, j, raw, event);
    if fault.None? { RereadLonger(j, next, event); }
  }

  lemma {:induction false} AppendAllLoads(y: Setup, j: Journal, raw: Text, events: seq<Json>)
    requires NumberLaws(y.rules) && AllSound(y.rules, events) && j.seqNo + |events| <= MAX_SAFE
    requires Faithful(y, Reread(j), raw)
    ensures var (k, file) := AppendAll(y, j, raw, events); Faithful(y, Reread(k), file)
    decreases |events|
  {
    hide Faithful, Append, NumberLaws, Sound;
    if events != [] {
      AppendRereads(y, j, raw, events[0]);
      var next := Append(y, j, raw, events[0]);
      AppendAllLoads(y, next.0, next.1, events[1..]);
    }
  }

  /**
   * Whatever is appended to a new journal, the file loads to the journal in memory with `null` for every number that is
   * not finite; so it loads to exactly that journal if and only if every number of the events it took is finite.
   */
  lemma {:induction false} LoadOfAppended(y: Setup, events: seq<Json>)
    requires NumberLaws(y.rules) && AllSound(y.rules, events) && |events| <= MAX_SAFE
    ensures var (j, file) := AppendAll(y, EMPTY, [], events);
      Load(y, file) == Ok(Reread(j)) && (Load(y, file) == Ok(j) <==> AllFinite(j.events))
  {
    assert Split([], NEWLINE) == [];
    assert Utf16.Points([]) == [];
    assert Reread(EMPTY) == EMPTY;
    AppendAllLoads(y, EMPTY, [], events);
    NulledEventsSame(AppendAll(y, EMPTY, [], events).0.events);
  }

  // ------------------------------------------------------------------ the head stands for the history

  ghost predicate Injective(sha: Text -> Text) { forall a, b :: sha(a) == sha(b) ==> a == b }

  /** The same event up to the order of members, with `null` for numbers that are not finite. */
  ghost predicate SameEvent(a: Option<Json>, b: Option<Json>) {
    match a case None => b == None case Some(v) => b.Some? && Alike(v, b.value)
  }

  ghost predicate SameEvents(a: seq<Option<Json>>, b: seq<Option<Json>>) {
    |a| == |b| && forall i :: 0 <= i < |a| ==> SameEvent(a[i], b[i])
  }

  /** The same event up to the order of members. */
  ghost predicate EqualEvent(a: Option<Json>, b: Option<Json>) {
    match a case None => b == None case Some(v) => b.Some? && Similar(v, b.value)
  }

  ghost predicate EqualEvents(a: seq<Option<Json>>, b: seq<Option<Json>>) {
    |a| == |b| && forall i :: 0 <= i < |a| ==> EqualEvent(a[i], b[i])
  }

  /** A number that is not finite stands against something else in the two. */
  ghost predicate ClashEvent(a: Option<Json>, b: Option<Json>) { a.Some? && b.Some? && Clash(a.value, b.value) }

  ghost predicate ClashEvents(a: seq<Option<Json>>, b: seq<Option<Json>>) {
    exists i :: 0 <= i < |a| && i < |b| && ClashEvent(a[i], b[i])
  }

  lemma {:induction false} SameIsEqual(a: seq<Option<Json>>, b: seq<Option<Json>>)
    requires SameEvents(a, b)
    ensures EqualEvents(a, b) <==> !ClashEvents(a, b)
  {
    forall i | 0 <= i < |a| ensures EqualEvent(a[i], b[i]) <==> !ClashEvent(a[i], b[i]) {
      assert SameEvent(a[i], b[i]);
      if a[i].Some? { AlikeIsSimilar(a[i].value, b[i].value); }
    }
  }

  // what is parsed is made of printed numbers

  lemma {:induction false} ParsedGood(z: Rules, s: Text)
    requires Parse(z, s).Ok? && NumberLaws(z)
    ensures Sound(z, Parse(z, s).value)
  {
    ParseAccepts(z, s);
    ValueNumbers(z, s, 0);
    GoodFrom(z, Parse(z, s).value);
  }

  predicate Printed(z: Rules, v: Json) {
    match v
    case Num(t) => GoodNumber(z, t)
    case Arr(xs) => PrintedItems(z, xs)
    case Obj(fs) => PrintedFields(z, fs)
    case _ => true
  }

  predicate PrintedItems(z: Rules, xs: Items) { xs.ICons? ==> Printed(z, xs.head) && PrintedItems(z, xs.tail) }

  predicate PrintedFields(z: Rules, fs: Fields) { fs.FCons? ==> Printed(z, fs.value) && PrintedFields(z, fs.rest) }

  lemma {:induction false} GoodFrom(z: Rules, v: Json)
    requires Distinct(v) && Printed(z, v)
    ensures Sound(z, v)
    decreases v
  {
    match v
    case Arr(xs) => GoodItemsFrom(z, xs);
    case Obj(fs) => GoodFieldsFrom(z, fs);
    case _ =>
  }

  lemma {:induction false} GoodItemsFrom(z: Rules, xs: Items)
    requires DistinctItems(xs) && PrintedItems(z, xs)
    ensures GoodItems(z, NulledItems(xs))
    decreases xs
  {
    if xs.ICons? {
      GoodFrom(z, xs.head);
      GoodItemsFrom(z, xs.tail);
    }
  }

  lemma {:induction false} GoodFieldsFrom(z: Rules, fs: Fields)
    requires DistinctFields(fs) && PrintedFields(z, fs)
    ensures GoodFields(z, NulledFields(fs))
    decreases fs
  {
    if fs.FCons? {
      NulledKeys(fs.rest, fs.key);
      GoodFrom(z, fs.value);
      GoodFieldsFrom(z, fs.rest);
    }
  }

  lemma {:induction false} NumberPrinted(z: Rules, s: Text)
    requires NumberLaws(z) && Number(z, s).Got?
    ensures Printed(z, Number(z, s).value)
  {
    var t := s[..NumberLen(Window(z, s))];
    if z.num(t).Some? { assert GoodNumber(z, z.num(t).value); }
  }

  lemma {:induction false} ValueNumbers(z: Rules, s: Text, depth: nat)
    requires Value(z, s, depth).Got? && NumberLaws(z)
    ensures Printed(z, Value(z, s, depth).value)
    decreases |s|, 2
  {
    var t := SkipSpace(s);
    if t[0] == OPEN_OBJECT {
      if !At(SkipSpace(t[1..]), CLOSE_OBJECT) { MembersNumbers(z, t[1..], depth, {}); }
    } else if t[0] == OPEN_ARRAY {
      if !At(SkipSpace(t[1..]), CLOSE_ARRAY) { ElementsNumbers(z, t[1..], depth); }
    } else if t[0] == MINUS || IsDigit(t[0]) {
      NumberPrinted(z, t);
    }
  }

  lemma {:induction false} MembersNumbers(z: Rules, s: Text, depth: nat, seen: set<Text>)
    requires Members(z, s, depth, seen).Got? && NumberLaws(z)
    ensures PrintedFields(z, Members(z, s, depth, seen).value)
    decreases |s|, 0
  {
    var t := SkipSpace(s);
    var key := Chars(t[1..]);
    var u := SkipSpace(key.rest);
    ValueNumbers(z, u[1..], depth + 1);
    var w := SkipSpace(Value(z, u[1..], depth + 1).rest);
    if At(w, COMMA) {
      MembersNumbers(z, w[1..], depth, seen + {key.value});
      PutPrinted(z, key.value, Value(z, u[1..], depth + 1).value, Members(z, w[1..], depth, seen + {key.value}).value);
    }
  }

  lemma {:induction false} LookupPrinted(z: Rules, fs: Fields, k: Text)
    requires PrintedFields(z, fs)
    ensures PrintedFields(z, Without(fs, k)) && (HasKey(fs, k) ==> Printed(z, Lookup(fs, k)))
    decreases fs
  {
    if fs.FCons? && fs.key != k { LookupPrinted(z, fs.rest, k); }
  }

  lemma {:induction false} PutPrinted(z: Rules, k: Text, v: Json, fs: Fields)
    requires Printed(z, v) && PrintedFields(z, fs)
    ensures PrintedFields(z, Put(k, v, fs))
  {
    LookupPrinted(z, fs, k);
  }

  lemma {:induction false} ElementsNumbers(z: Rules, s: Text, depth: nat)
    requires Elements(z, s, depth).Got? && NumberLaws(z)
    ensures PrintedItems(z, Elements(z, s, depth).value)
    decreases |s|, 3
  {
    ValueNumbers(z, s, depth + 1);
    var w := SkipSpace(Value(z, s, depth + 1).rest);
    if At(w, COMMA) { ElementsNumbers(z, w[1..], depth); }
  }

  lemma {:induction false} WithoutLooks(fs: Fields, k: Text, j: Text)
    requires DistinctFields(fs) && j != k
    ensures Field(Without(fs, k), j) == Field(fs, j)
    decreases fs
  {
    if fs.FCons? && fs.key != k { WithoutLooks(fs.rest, k, j); }
  }

  lemma {:induction false} SoundWithout(z: Rules, w: Rules, fs: Fields, k: Text)
    requires Sound(z, Obj(fs)) && w.num == z.num
    ensures Sound(w, Obj(Without(fs, k)))
  {
    NulledKeys(fs, k);
    WithoutGood(z, NulledFields(fs), k);
    GoodFieldsAnyDepth(z, w, Without(NulledFields(fs), k));
  }

  lemma {:induction false} WithoutGood(z: Rules, fs: Fields, k: Text)
    requires GoodFields(z, fs)
    ensures GoodFields(z, Without(fs, k))
    decreases fs
  {
    if fs.FCons? && fs.key != k {
      WithoutGood(z, fs.rest, k);
      WithoutLacks(fs.rest, k, fs.key);
    }
  }

  /** What an accepted line was: a value whose rest without the hash has the digest for its canonical text. */
  lemma {:induction false} StepView(y: Setup, j: Journal, line: Text) returns (fs: Fields)
    requires Step(y, j, line).Ok? && NumberLaws(y.rules)
    ensures Sound(y.rules, Obj(fs)) && !Refused(Obj(fs))
    ensures var k := Step(y, j, line).value;
      && k.head == y.sha(Print(Sorted(Obj(fs))))
      && Field(fs, SEQ) == Some(Num(NatText(j.seqNo + 1))) && Field(fs, PREV) == Some(Str(j.head))
      && k.events == j.events + [Field(fs, EVENT)] && k.seqNo == j.seqNo + 1
  {
    hide Good, Nulled, Parse, Sorted, Print, GoodNumber;
    var z := Loose(y.rules, line);
    var r := ParseLine(y, line).value;
    assert NumberLaws(z) by { LawsAnyDepth(y.rules, z); }
    ParsedGood(z, line);
    fs := Without(r.fields, HASH);
    SoundWithout(z, y.rules, r.fields, HASH);
    ParseAccepts(z, line);
    KeysDiffer();
    WithoutLooks(r.fields, HASH, SEQ);
    WithoutLooks(r.fields, HASH, PREV);
    WithoutLooks(r.fields, HASH, EVENT);
  }

  lemma {:induction false} LawsAnyDepth(z: Rules, w: Rules)
    requires NumberLaws(z) && w.num == z.num
    ensures NumberLaws(w)
  {
    forall t | w.num(t).Some? ensures GoodNumber(w, w.num(t).value) { assert GoodNumber(z, z.num(t).value); }
  }

  lemma {:induction false} AlikeField(fs: Fields, gs: Fields, k: Text)
    requires Alike(Obj(fs), Obj(gs))
    ensures SameEvent(Field(fs, k), Field(gs, k))
  {
    NulledKeys(fs, k);
    NulledKeys(gs, k);
    if HasKey(fs, k) { AmongLooks(NulledFields(fs), NulledFields(gs), k); }
  }

  /** Two lines accepted with the same digest say the same, up to the order of members and numbers without a text. */
  lemma {:induction false} SameLine(y: Setup, j: Journal, line: Text, i: Journal, other: Text)
    requires NumberLaws(y.rules) && Injective(y.sha)
    requires Step(y, j, line).Ok? && Step(y, i, other).Ok?
        && Step(y, j, line).value.head == Step(y, i, other).value.head
    ensures j.seqNo == i.seqNo && j.head == i.head
    ensures SameEvent(Step(y, j, line).value.events[|j.events|], Step(y, i, other).value.events[|i.events|])
  {
    var fs := StepView(y, j, line);
    var gs := StepView(y, i, other);
    assert Canon(Obj(fs)) == Canon(Obj(gs));
    CanonicalIff(y.rules, Obj(fs), Obj(gs));
    AlikeField(fs, gs, SEQ);
    AlikeField(fs, gs, PREV);
    AlikeField(fs, gs, EVENT);
    NatInjective(j.seqNo + 1, i.seqNo + 1);
  }

  lemma {:induction false} StepsLast(y: Setup, j: Journal, lines: seq<Text>)
    requires lines != [] && Steps(y, j, lines).Ok?
    ensures Steps(y, j, lines[..|lines| - 1]).Ok?
    ensures Step(y, Steps(y, j, lines[..|lines| - 1]).value, lines[|lines| - 1]) == Steps(y, j, lines)
    decreases |lines|
  {
    hide Step;
    if |lines| == 1 {
      assert lines[..0] == [] && lines[1..] == [];
    } else {
      StepsLast(y, Step(y, j, lines[0]).value, lines[1..]);
      var init := lines[..|lines| - 1];
      assert init[0] == lines[0] && init[1..] == lines[1..][..|lines[1..]| - 1];
    }
  }

  lemma {:induction false} StepCounts(y: Setup, j: Journal, line: Text)
    requires Step(y, j, line).Ok?
    ensures Step(y, j, line).value.seqNo == j.seqNo + 1 && |Step(y, j, line).value.events| == |j.events| + 1
    ensures Step(y, j, line).value.events[..|j.events|] == j.events
  {}

  lemma {:induction false} StepsCount(y: Setup, lines: seq<Text>)
    requires Steps(y, EMPTY, lines).Ok?
    ensures Steps(y, EMPTY, lines).value.seqNo == |lines| == |Steps(y, EMPTY, lines).value.events|
    decreases |lines|
  {
    if lines != [] {
      StepsLast(y, EMPTY, lines);
      StepsCount(y, lines[..|lines| - 1]);
      StepCounts(y, Steps(y, EMPTY, lines[..|lines| - 1]).value, lines[|lines| - 1]);
    }
  }

  lemma {:induction false} SameHistory(y: Setup, lines: seq<Text>, others: seq<Text>)
    requires NumberLaws(y.rules) && Injective(y.sha)
    requires Steps(y, EMPTY, lines).Ok? && Steps(y, EMPTY, others).Ok?
    requires Steps(y, EMPTY, lines).value.head == Steps(y, EMPTY, others).value.head
    requires lines == [] <==> others == []
    ensures SameEvents(Steps(y, EMPTY, lines).value.events, Steps(y, EMPTY, others).value.events)
    decreases |lines|
  {
    if lines != [] {
      var l, o := lines[..|lines| - 1], others[..|others| - 1];
      StepsLast(y, EMPTY, lines);
      StepsLast(y, EMPTY, others);
      var j, i := Steps(y, EMPTY, l).value, Steps(y, EMPTY, o).value;
      SameLine(y, j, lines[|lines| - 1], i, others[|others| - 1]);
      StepsCount(y, l);
      StepsCount(y, o);
      SameHistory(y, l, o);
      StepCounts(y, j, lines[|lines| - 1]);
      StepCounts(y, i, others[|others| - 1]);
      LongerSame(j.events, i.events, Steps(y, EMPTY, lines).value.events, Steps(y, EMPTY, others).value.events);
    }
  }

  lemma {:induction false} LongerSame(a: seq<Option<Json>>, b: seq<Option<Json>>, c: seq<Option<Json>>,
      d: seq<Option<Json>>)
    requires SameEvents(a, b) && |c| == |a| + 1 && |d| == |b| + 1 && c[..|a|] == a && d[..|b|] == b
    requires SameEvent(c[|a|], d[|b|])
    ensures SameEvents(c, d)
  {
    forall i | 0 <= i < |c| ensures SameEvent(c[i], d[i]) {
      if i < |a| { assert c[..|a|][i] == c[i] && d[..|b|][i] == d[i]; }
    }
  }

  /**
   * Two files that load and end in the same hash hold the same history: the same number of records with the same
   * events, up to the order of members and numbers that are not finite, which count as `null`; without those exactly
   * when no such number stands against something else. The one exception is an empty file beside one whose hash is the
   * genesis text.
   */
  lemma {:induction false} HeadDeterminesHistory(y: Setup, raw: Text, other: Text)
    requires NumberLaws(y.rules) && Injective(y.sha)
    requires Load(y, raw).Ok? && Load(y, other).Ok? && Load(y, raw).value.head == Load(y, other).value.head
    ensures var (a, b) := (Load(y, raw).value.events, Load(y, other).value.events);
      (SameEvents(a, b) && (EqualEvents(a, b) <==> !ClashEvents(a, b)))
         || (Load(y, raw).value.head == GENESIS && Load(y, raw).value.seqNo != Load(y, other).value.seqNo
             && (Load(y, raw).value.seqNo == 0 || Load(y, other).value.seqNo == 0))
  {
    var lines, others := Split(raw, NEWLINE), Split(other, NEWLINE);
    StepsCount(y, lines);
    StepsCount(y, others);
    if lines == [] <==> others == [] {
      SameHistory(y, lines, others);
      SameIsEqual(Load(y, raw).value.events, Load(y, other).value.events);
    }
  }
}
