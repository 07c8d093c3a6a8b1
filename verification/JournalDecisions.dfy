/** When a line of the journal is accepted and when an append is refused, field by field. */
module JournalDecisions {
  // lib/journal.js

  import opened Common
  import opened Utf16
  import opened JsonModel
  import opened Canonical
  import opened Splitting
  import opened Numerals
  import opened JournalModel

  /** A text of the characters of a literal. */
  function Lit(s: string): Text
    requires forall i :: 0 <= i < |s| ==> s[i] as int < 0x10000
  {
    if s == "" then [] else [s[0] as int] + Lit(s[1..])
  }

  lemma {:induction false} Names()
    ensures Lit("seq") == SEQ && Lit("prev") == PREV && Lit("event") == EVENT && Lit("hash") == HASH
  {
    assert Lit("") == [];
    assert "seq"[1..] == "eq" && "eq"[1..] == "q" && "q"[1..] == "";
    assert "prev"[1..] == "rev" && "rev"[1..] == "ev" && "ev"[1..] == "v" && "v"[1..] == "";
    assert "event"[1..] == "vent" && "vent"[1..] == "ent" && "ent"[1..] == "nt" && "nt"[1..] == "t" && "t"[1..] == "";
    assert "hash"[1..] == "ash" && "ash"[1..] == "sh" && "sh"[1..] == "h" && "h"[1..] == "";
  }

  /** The member of that name has that value. */
  predicate Is(fs: Fields, k: Text, v: Json) { HasKey(fs, k) && Lookup(fs, k) == v }

  /**
   * A record continues a journal when it has the next number, names the head as its predecessor, and its hash is the
   * digest of the canonical text of everything else in it.
   */
  predicate Continues(y: Setup, j: Journal, fs: Fields, rest: Text) {
    && Is(fs, Lit("seq"), Num(NatText(j.seqNo + 1))) && Is(fs, Lit("prev"), Str(j.head))
    && Is(fs, Lit("hash"), Str(y.sha(rest)))
  }

  /**
   * A line is accepted exactly when it is the text of an object whose keys the canonical form takes and that continues
   * the journal; it then adds its event, and its hash is the new head. A refusal says which of these fails first.
   */
  lemma {:induction false} LineDecided(y: Setup, j: Journal, line: Text)
    ensures var p, r := ParseLine(y, line), Step(y, j, line);
      && (p.Err? ==> r == Err(Unparsable))
      && (p.Ok? && !p.value.Obj? ==> r == Err(NotObject))
      && (p.Ok? && p.value.Obj? ==>
            var fs, rest := p.value.fields, Canon(Obj(Without(p.value.fields, Lit("hash"))));
            && (rest.None? ==> r == Err(BadKey))
            && (rest.Some? && !Continues(y, j, fs, rest.value) ==> r == Err(ChainBreak))
            && (rest.Some? && Continues(y, j, fs, rest.value) ==>
                  && r.Ok? && r.value.seqNo == j.seqNo + 1 && r.value.head == y.sha(rest.value)
                  && |r.value.events| == |j.events| + 1 && r.value.events[..|j.events|] == j.events
                  && (HasKey(fs, Lit("event")) ==> r.value.events[|j.events|] == Some(Lookup(fs, Lit("event"))))
                  && (!HasKey(fs, Lit("event")) ==> r.value.events[|j.events|] == None)))
  {
    Names();
  }

  /** A file is refused for its size, for a last line that is not ended, and else for the first line that is refused. */
  lemma {:induction false} FileDecided(y: Setup, raw: Text)
    ensures ByteLength(raw) > y.maxBytes ==> Load(y, raw) == Err(TooLarge)
    ensures ByteLength(raw) <= y.maxBytes && raw != [] && raw[|raw| - 1] != '\n' as int ==>
        Load(y, raw) == Err(TornTail)
    ensures ByteLength(raw) <= y.maxBytes && raw == [] ==> Load(y, raw) == Ok(Journal(0, Repeat('0' as int, 64), []))
    ensures ByteLength(raw) <= y.maxBytes && raw != [] && raw[|raw| - 1] == '\n' as int ==>
      Load(y, raw) == Steps(y, Journal(0, Repeat('0' as int, 64), []), Split(raw, '\n' as int))
  {}

  /**
   * An append is refused exactly when the event has a key that the canonical form refuses or the file would grow beyond
   * its bound; otherwise the file has one more line, of a record with the next number, the head, the event and the
   * hash.
   */
  lemma {:induction false} AppendDecided(y: Setup, j: Journal, raw: Text, event: Json)
    ensures var (after, file, refused) := Append(y, j, raw, event);
      var body := FCons(Lit("seq"), Num(NatText(j.seqNo + 1)),
          FCons(Lit("prev"), Str(j.head), FCons(Lit("event"), event, FNil)));
      && (Canon(Obj(body)).None? ==> refused == Some(BadKey))
      && (Canon(Obj(body)).Some? ==>
            var hash := y.sha(Canon(Obj(body)).value);
            var record := FCons(Lit("seq"), Num(NatText(j.seqNo + 1)), FCons(Lit("prev"), Str(j.head),
                FCons(Lit("event"), event, FCons(Lit("hash"), Str(hash), FNil))));
            var line := Print(Obj(record)) + ['\n' as int];
            && (ByteLength(raw) + ByteLength(line) > y.maxBytes ==> refused == Some(TooLarge))
            && (ByteLength(raw) + ByteLength(line) <= y.maxBytes ==>
                  refused.None? && file == raw + line && after == Journal(j.seqNo + 1, hash, j.events + [Some(event)])))
      && (refused.Some? ==> after == j && file == raw)
  {
    Names();
  }
}
