/** Numbers too large for the language, as they go through the journal. */
module JournalInfinity {
  // `JSON.parse` reads `1e400` as an infinite number, and the serializer writes that as `null`. So one file can stand
  // for another history than its head was made for, and what is appended can come back as something else.

  import opened Common
  import opened Utf16
  import opened JsonModel
  import opened JsonTheorems
  import opened Canonical
  import opened Splitting
  import opened JournalModel
  import opened JournalTheorems
  import opened Numerals

  /** `1e400` */
  const HUGE: Text := [0x31, 0x65, 0x34, 0x30, 0x30]

  const X: Text := [0x78]

  lemma {:induction false} HugeIsNumber()
    ensures NumberLen(HUGE) == 5
  {
    assert Digits(HUGE[5..]) == 0;
    assert HUGE[4..][1..] == HUGE[5..] && Digits(HUGE[4..]) == 1;
    assert HUGE[3..][1..] == HUGE[4..] && Digits(HUGE[3..]) == 2;
    assert HUGE[2..][1..] == HUGE[3..] && Digits(HUGE[2..]) == 3;
    assert HUGE[1..][1..] == HUGE[2..] && SignLen(HUGE[2..]) == 0 && ExpLen(HUGE[1..]) == 4;
    assert Digits(HUGE[1..]) == 0 && HUGE[0..] == HUGE && Digits(HUGE) == 1;
    assert FracLen(HUGE[1..]) == 0 && HUGE[1..][0..] == HUGE[1..];
  }

  lemma {:induction false} HugeRead(z: Rules, depth: nat, rest: Text)
    requires !z.strict && z.num(HUGE).None? && Delimits(rest) && depth <= z.maxDepth
    ensures Value(z, HUGE + rest, depth) == Got(NotFinite(PosInf), rest)
  {
    hide NumberLen;
    HugeIsNumber();
    NumberStop(HUGE, rest);
    NoSpace(HUGE, rest);
    ValueOfNumber(z, HUGE + rest, depth);
    assert (HUGE + rest)[..5] == HUGE && (HUGE + rest)[5..] == rest;
  }

  // ------------------------------------------------------------------ a request

  /** `{"x":1e400}`, and what it means. */
  const REQUEST: Text := [OPEN_OBJECT] + (PrintString(X) + [COLON] + HUGE + [CLOSE_OBJECT])

  const ASKED := Obj(FCons(X, NotFinite(PosInf), FNil))

  const KEPT := Obj(FCons(X, Null, FNil))

  lemma {:induction false} RequestRead(z: Rules)
    requires z.num(HUGE).None?
    ensures Parse(Loose(z, REQUEST), REQUEST) == Ok(ASKED)
  {
    hide Value, Members, PrintString;
    var w := Loose(z, REQUEST);
    var body := PrintString(X) + [COLON] + HUGE + [CLOSE_OBJECT];
    HugeRead(w, 1, [CLOSE_OBJECT] + []);
    LastField(w, X, HUGE, NotFinite(PosInf), 1, 0, {}, []);
    assert body + [] == body;
    KeyStarts(X, [COLON] + HUGE + [CLOSE_OBJECT], body);
    ObjectOpens(w, body, 0, Members(w, body, 0, {}));
    ParseIs(w, REQUEST, Got(ASKED, []));
  }

  lemma {:induction false} KeyStarts(k: Text, tail: Text, s: Text)
    requires s == PrintString(k) + tail
    ensures Starts(s)
  {}

  /** Appended, the request is infinite in memory; read again it is not. */
  lemma {:induction false} RequestLost(y: Setup)
    requires NumberLaws(y.rules) && Append(y, EMPTY, [], ASKED).2.None?
    ensures var (j, file, _) := Append(y, EMPTY, [], ASKED);
      && j.events == [Some(ASKED)] && Load(y, file) == Ok(j.(events := [Some(KEPT)])) && Load(y, file) != Ok(j)
  {
    hide Canon, NumberLaws, ByteLength, LineText, Body, Sound, Nulled, Steps, Split;
    AskedSound(y.rules);
    EmptyLoads(y);
    AppendLoads(y, EMPTY, EMPTY, [], ASKED);
    var (j, file, _) := Append(y, EMPTY, [], ASKED);
    assert [] + [Some(KEPT)] == [Some(KEPT)] && j.events == [Some(ASKED)];
    assert j.events[0] == Some(ASKED) && [Some(KEPT)][0] == Some(KEPT);
  }

  lemma {:induction false} AskedSound(z: Rules)
    ensures Nulled(ASKED) == KEPT && Sound(z, ASKED)
  {
    assert NulledFields(ASKED.fields) == KEPT.fields;
    assert GoodFields(z, FNil) && Good(z, Null) && !HasKey(FNil, X);
    assert GoodFields(z, KEPT.fields);
  }

  lemma {:induction false} EmptyLoads(y: Setup)
    ensures Faithful(y, EMPTY, [])
  {
    assert Split([], NEWLINE) == [];
    assert Utf16.Points([]) == [];
  }

  // ------------------------------------------------------------------ a head

  /** The line of a record, whose event is any text. */
  function LineOf(seqNo: nat, prev: Text, event: Text, hash: Text): Text {
    [OPEN_OBJECT] + MembersOf(seqNo, prev, event, hash)
  }

  function MembersOf(seqNo: nat, prev: Text, event: Text, hash: Text): Text {
    PrintString(SEQ) + [COLON] + NatText(seqNo) + [COMMA] + FromPrev(prev, event, hash)
  }

  function FromPrev(prev: Text, event: Text, hash: Text): Text {
    PrintString(PREV) + [COLON] + PrintString(prev) + [COMMA] + FromEvent(event, hash)
  }

  function FromEvent(event: Text, hash: Text): Text {
    PrintString(EVENT) + [COLON] + event + [COMMA] + FromHash(hash)
  }

  function FromHash(hash: Text): Text { PrintString(HASH) + [COLON] + PrintString(hash) + [CLOSE_OBJECT] }

  /** The event's text means `v`. */
  predicate Means(z: Rules, event: Text, v: Json, hash: Text) {
    Value(z, event + ([COMMA] + FromHash(hash)), 1) == Got(v, [COMMA] + FromHash(hash))
  }

  lemma {:induction false} HashRead(z: Rules, seen: set<Text>, hash: Text)
    requires z.maxDepth >= 1 && HASH !in seen
    ensures Members(z, FromHash(hash), 0, seen) == Got(FCons(HASH, Str(hash), FNil), [])
  {
    hide Members, Value, PrintString;
    StringValueRead(z, hash, 1, [CLOSE_OBJECT] + []);
    LastField(z, HASH, PrintString(hash), Str(hash), 1, 0, seen, []);
    assert FromHash(hash) + [] == FromHash(hash);
  }

  lemma {:induction false} EventRead(z: Rules, seen: set<Text>, event: Text, v: Json, hash: Text)
    requires z.maxDepth >= 1 && EVENT !in seen && HASH !in seen && Means(z, event, v, hash)
    ensures Members(z, FromEvent(event, hash), 0, seen) == Got(FCons(EVENT, v, FCons(HASH, Str(hash), FNil)), [])
  {
    hide Members, Value, PrintString, FromHash;
    KeysDiffer();
    HashRead(z, seen + {EVENT}, hash);
    var more := FromHash(hash);
    assert more + [] == more && FromEvent(event, hash) + [] == FromEvent(event, hash);
    var fs := FCons(HASH, Str(hash), FNil);
    assert !HasKey(fs, EVENT);
    NextField(z, EVENT, event, v, 1, more, fs, 1, 0, seen, [], more, [COMMA] + more);
  }

  lemma {:induction false} PrevRead(z: Rules, seen: set<Text>, prev: Text, event: Text, v: Json, hash: Text)
    requires z.maxDepth >= 1 && PREV !in seen && EVENT !in seen && HASH !in seen && Means(z, event, v, hash)
    ensures Members(z, FromPrev(prev, event, hash), 0, seen)
      == Got(FCons(PREV, Str(prev), FCons(EVENT, v, FCons(HASH, Str(hash), FNil))), [])
  {
    hide Members, Value, PrintString, FromEvent, Means;
    KeysDiffer();
    EventRead(z, seen + {PREV}, event, v, hash);
    var more := FromEvent(event, hash);
    assert more + [] == more && FromPrev(prev, event, hash) + [] == FromPrev(prev, event, hash);
    StringValueRead(z, prev, 1, [COMMA] + more);
    var h := FCons(HASH, Str(hash), FNil);
    var fs := FCons(EVENT, v, h);
    assert !HasKey(h, PREV) && !HasKey(fs, PREV);
    NextField(z, PREV, PrintString(prev), Str(prev), 1, more, fs, 1, 0, seen, [], more, [COMMA] + more);
  }

  /** The line is parsed to the record of its event. */
  lemma {:induction false} LineRead(z: Rules, seqNo: nat, prev: Text, event: Text, v: Json, hash: Text)
    requires z.maxDepth >= 1 && Means(z, event, v, hash) && NumberLaws(z) && seqNo <= MAX_SAFE
    ensures Parse(z, LineOf(seqNo, prev, event, hash)) == Ok(Record(seqNo, prev, v, hash))
  {
    hide Members, Value, PrintString, FromPrev, Means, NatText, NumberLaws, GoodNumber;
    KeysDiffer();
    PrevRead(z, {SEQ}, prev, event, v, hash);
    var more, body, n := FromPrev(prev, event, hash), MembersOf(seqNo, prev, event, hash), NatText(seqNo);
    assert more + [] == more && body + [] == body;
    GoodNat(z, seqNo);
    NumberValueRead(z, n, 1, [COMMA] + more);
    var h := FCons(HASH, Str(hash), FNil);
    var e := FCons(EVENT, v, h);
    var fs := FCons(PREV, Str(prev), e);
    assert !HasKey(h, SEQ) && !HasKey(e, SEQ) && !HasKey(fs, SEQ);
    assert {} + {SEQ} == {SEQ};
    NextField(z, SEQ, n, Num(n), 1, more, fs, 1, 0, {}, [], more, [COMMA] + more);
    KeyStarts(SEQ, [COLON] + n + [COMMA] + more, body);
    ObjectOpens(z, body, 0, Members(z, body, 0, {}));
    ParseIs(z, LineOf(seqNo, prev, event, hash), Got(Record(seqNo, prev, v, hash), []));
  }

  lemma {:induction false} NullRead(z: Rules, depth: nat, rest: Text)
    requires depth <= z.maxDepth
    ensures Value(z, NULL_TEXT + rest, depth) == Got(Null, rest)
  {
    WordRead(z, depth, rest);
  }

  const GENUINE := Body(1, GENESIS, Null)

  /** The hash of a first record whose event is `null`. */
  function FirstHash(y: Setup): Text { y.sha(Print(Sorted(GENUINE))) }

  /** A file of one line. */
  function OneLineFile(y: Setup, event: Text): Text { LineOf(1, GENESIS, event, FirstHash(y)) + [NEWLINE] }

  lemma {:induction false} FirstCanon(v: Json)
    requires Nulled(v) == Null
    ensures Canon(Body(1, GENESIS, v)) == Some(Print(Sorted(GENUINE)))
  {
    hide NatText, Print, Sorted, Repeat;
    RecordNulled(1, GENESIS, v, []);
    CanonNulled(Body(1, GENESIS, v));
    PlainKeys();
    var e := FCons(EVENT, Null, FNil);
    var p := FCons(PREV, Str(GENESIS), e);
    RefusedCons(EVENT, Null, FNil);
    RefusedCons(PREV, Str(GENESIS), e);
    RefusedCons(SEQ, Num(NatText(1)), p);
    assert GENUINE == Obj(FCons(SEQ, Num(NatText(1)), p));
  }

  predicate PlainKey(k: Text) { k != PROTO && k != PROTOTYPE && k != CONSTRUCTOR }

  lemma {:induction false} PlainKeys()
    ensures PlainKey(SEQ) && PlainKey(PREV) && PlainKey(EVENT)
  {
    assert EVENT[0] == 0x65 && PROTO[0] == 0x5F && PROTOTYPE[0] == 0x70 && CONSTRUCTOR[0] == 0x63;
    assert |PREV| == 4 && |PROTOTYPE| == 9 && SEQ[0] == 0x73;
  }

  lemma {:induction false} RefusedCons(k: Text, v: Json, rest: Fields)
    requires PlainKey(k)
    ensures RefusedFields(FCons(k, v, rest)) <==> Refused(v) || RefusedFields(rest)
  {}

  lemma {:induction false} FirstStep(y: Setup, event: Text, v: Json)
    requires NumberLaws(y.rules) && Nulled(v) == Null
    requires var line := LineOf(1, GENESIS, event, FirstHash(y)); Means(Loose(y.rules, line), event, v, FirstHash(y))
    ensures Step(y, EMPTY, LineOf(1, GENESIS, event, FirstHash(y))) == Ok(Journal(1, FirstHash(y), [Some(v)]))
  {
    hide NatText, Print, Sorted, NumberLaws, Means, Parse, Value, Canon, Repeat, Field, Without, PrintString;
    var line := LineOf(1, GENESIS, event, FirstHash(y));
    LawsAnyDepth(y.rules, Loose(y.rules, line));
    LineRead(Loose(y.rules, line), 1, GENESIS, event, v, FirstHash(y));
    RecordFields(1, GENESIS, v, FirstHash(y));
    FirstCanon(v);
    assert [] + [Some(v)] == [Some(v)];
  }

  lemma {:induction false} LineIsOne(event: Text, hash: Text)
    requires OneLine(event)
    ensures OneLine(LineOf(1, GENESIS, event, hash))
  {
    hide PrintString;
    StringOneLine(SEQ);
    StringOneLine(PREV);
    StringOneLine(EVENT);
    StringOneLine(HASH);
    StringOneLine(GENESIS);
    StringOneLine(hash);
    assert NatText(1) == [0x31];
    assert OneLine(FromHash(hash));
    assert OneLine(FromEvent(event, hash));
    assert OneLine(FromPrev(GENESIS, event, hash));
  }

  lemma {:induction false} OneLineLoads(y: Setup, event: Text, v: Json)
    requires NumberLaws(y.rules) && Nulled(v) == Null && OneLine(event)
        && ByteLength(OneLineFile(y, event)) <= y.maxBytes
    requires var line := LineOf(1, GENESIS, event, FirstHash(y)); Means(Loose(y.rules, line), event, v, FirstHash(y))
    ensures Load(y, OneLineFile(y, event)) == Ok(Journal(1, FirstHash(y), [Some(v)]))
  {
    hide NumberLaws, Means, Step, ByteLength, MembersOf;
    var line := LineOf(1, GENESIS, event, FirstHash(y));
    FirstStep(y, event, v);
    LineIsOne(event, FirstHash(y));
    EmptyLoads(y);
    assert ByteLength([]) == 0 by { EmptyBytes(); }
    assert [] + (line + [NEWLINE]) == line + [NEWLINE];
    LoadLonger(y, [], line, EMPTY, Journal(1, FirstHash(y), [Some(v)]));
  }

  lemma {:induction false} EmptyBytes()
    ensures ByteLength([]) == 0
  {}

  /** Two files that end in one hash, and hold two histories. */
  lemma {:induction false} TwoHistories(y: Setup)
    requires NumberLaws(y.rules) && y.rules.num(HUGE).None?
    requires ByteLength(OneLineFile(y, HUGE)) <= y.maxBytes && ByteLength(OneLineFile(y, NULL_TEXT)) <= y.maxBytes
    ensures Load(y, OneLineFile(y, HUGE)) == Ok(Journal(1, FirstHash(y), [Some(NotFinite(PosInf))]))
    ensures Load(y, OneLineFile(y, NULL_TEXT)) == Ok(Journal(1, FirstHash(y), [Some(Null)]))
  {
    hide Value, Load, NumberLaws, ByteLength, MembersOf, FromHash, OneLineFile, FirstHash;
    var hash := FirstHash(y);
    HugeRead(Loose(y.rules, LineOf(1, GENESIS, HUGE, hash)), 1, [COMMA] + FromHash(hash));
    NullRead(Loose(y.rules, LineOf(1, GENESIS, NULL_TEXT, hash)), 1, [COMMA] + FromHash(hash));
    OneLineLoads(y, HUGE, NotFinite(PosInf));
    OneLineLoads(y, NULL_TEXT, Null);
  }
}
