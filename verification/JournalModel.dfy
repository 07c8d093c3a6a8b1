/**
 * The hash-chained journal of lib/journal.js: a file of lines, each a record that names its number, the hash of the one
 * before it, an event, and the hash of all that.
 *
 * `sha` is any function from texts to texts. The file is its text: what is printed has no surrogate alone, so writing
 * it as UTF-8 and reading it back does not change it. A line is parsed without a bound on depth.
 */
module JournalModel {
  import opened Common
  import opened Utf16
  import opened JsonModel
  import opened Canonical
  import opened Splitting
  import opened Numerals

  const NEWLINE: Unit := 10
  const SEQ: Text := [0x73, 0x65, 0x71]
  const PREV: Text := [0x70, 0x72, 0x65, 0x76]
  const EVENT: Text := [0x65, 0x76, 0x65, 0x6E, 0x74]
  const HASH: Text := [0x68, 0x61, 0x73, 0x68]

  /** Sixty-four zeros: the head of an empty journal. */
  const GENESIS: Text := Repeat(ZERO, 64)

  function Repeat(u: Unit, n: nat): Text { if n == 0 then [] else [u] + Repeat(u, n - 1) }

  datatype Fault = TornTail | TooLarge | Unparsable | NotObject | BadKey | ChainBreak

  datatype Journal = Journal(seqNo: nat, head: Text, events: seq<Option<Json>>)

  const EMPTY := Journal(0, GENESIS, [])

  /** What a journal is run with: the rules for numbers, the digest, and the bound on the file. */
  datatype Setup = Setup(rules: Rules, sha: Text -> Text, maxBytes: nat)

  // ------------------------------------------------------------------ records

  function Body(seqNo: nat, prev: Text, event: Json): Json {
    Obj(FCons(SEQ, Num(NatText(seqNo)), FCons(PREV, Str(prev), FCons(EVENT, event, FNil))))
  }

  function Record(seqNo: nat, prev: Text, event: Json, hash: Text): Json {
    Obj(FCons(SEQ, Num(NatText(seqNo)), FCons(PREV, Str(prev), FCons(EVENT, event, FCons(HASH, Str(hash), FNil)))))
  }

  function Field(fs: Fields, k: Text): Option<Json> { if HasKey(fs, k) then Some(Lookup(fs, k)) else None }

  /** One accepted record: the value it was parsed to, without its hash, and the hash. */
  datatype Link = Link(body: Json, hash: Text)

  predicate Follows(y: Setup, j: Journal, fs: Fields, digest: Text) {
    && Field(fs, SEQ) == Some(Num(NatText(j.seqNo + 1)))
    && Field(fs, PREV) == Some(Str(j.head))
    && Field(fs, HASH) == Some(Str(digest))
  }

  /** `JSON.parse`: a line never nests past its own length. */
  function Loose(z: Rules, line: Text): Rules { z.(maxDepth := |line|, strict := false) }

  function ParseLine(y: Setup, line: Text): Result<Json, Error> { Parse(Loose(y.rules, line), line) }

  /** The loop body of the constructor. */
  function Step(y: Setup, j: Journal, line: Text): Result<Journal, Fault> {
    match ParseLine(y, line)
    case Err(_) => Err(Unparsable)
    case Ok(r) =>
      if !r.Obj? then Err(NotObject)
      else
        match Canon(Obj(Without(r.fields, HASH)))
        case None => Err(BadKey)
        case Some(text) =>
          if Follows(y, j, r.fields, y.sha(text))
          then Ok(Journal(j.seqNo + 1, y.sha(text), j.events + [Field(r.fields, EVENT)]))
          else Err(ChainBreak)
  }

  function Steps(y: Setup, j: Journal, lines: seq<Text>): Result<Journal, Fault>
    decreases |lines|
  {
    if lines == [] then Ok(j)
    else
      match Step(y, j, lines[0])
      case Err(e) => Err(e)
      case Ok(k) => Steps(y, k, lines[1..])
  }

  function Load(y: Setup, raw: Text): Result<Journal, Fault> {
    if ByteLength(raw) > y.maxBytes then Err(TooLarge)
    else if raw != [] && raw[|raw| - 1] != NEWLINE then Err(TornTail)
    else Steps(y, EMPTY, Split(raw, NEWLINE))
  }

  // ------------------------------------------------------------------ appending

  function LineText(seqNo: nat, prev: Text, event: Json, hash: Text): Text { Print(Record(seqNo, prev, event, hash)) }

  /** The journal and its file after an append; a refused one changes neither. */
  function Append(y: Setup, j: Journal, raw: Text, event: Json): (Journal, Text, Option<Fault>) {
    match Canon(Body(j.seqNo + 1, j.head, event))
    case None => (j, raw, Some(BadKey))
    case Some(text) =>
      var line := LineText(j.seqNo + 1, j.head, event, y.sha(text)) + [NEWLINE];
      if ByteLength(raw) + ByteLength(line) > y.maxBytes then (j, raw, Some(TooLarge))
      else (Journal(j.seqNo + 1, y.sha(text), j.events + [Some(event)]), raw + line, None)
  }

  function AppendAll(y: Setup, j: Journal, raw: Text, events: seq<Json>): (Journal, Text)
    decreases |events|
  {
    if events == [] then (j, raw)
    else
      var next := Append(y, j, raw, events[0]);
      AppendAll(y, next.0, next.1, events[1..])
  }

  // ------------------------------------------------------------------ laws of the language

  const MAX_SAFE: nat := 9007199254740991

  /** Reading what is printed for a number, and for a natural number its digits, gives that number again. */
  ghost predicate NumberLaws(z: Rules) {
    && (forall n: nat :: n <= MAX_SAFE ==> z.num(NatText(n)) == Some(NatText(n)))
    && (forall t :: z.num(t).Some? ==> GoodNumber(z, z.num(t).value))
  }

  lemma {:induction false} NatIsNumber(n: nat)
    requires n <= MAX_SAFE
    ensures NumberLen(NatText(n)) == |NatText(n)| && |NatText(n)| <= 16
  {
    var t := NatText(n);
    assert Pow10(16) == 10000000000000000 by {
      assert Pow10(4) == 10000;
      assert Pow10(8) == 100000000;
      assert Pow10(12) == 1000000000000;
    }
    NatDigits(n, 16);
    DigitsAll(t);
    assert t[0] in t && t[0..] == t && t[|t|..] == [];
  }
}
