/** The journal of lib/journal.js as the object that keeps it: its fields, the replay at construction, and `append`. */
module JournalFile {
  import opened Common
  import opened Utf16
  import opened JsonModel
  import opened Canonical
  import opened Splitting
  import opened JournalModel
  import opened Numerals
  import opened JsonTheorems
  import opened JournalTheorems

  class Store {
    const setup: Setup
    var file: Text
    var seqNo: nat
    var head: Text
    var events: seq<Option<Json>>

    function State(): Journal
      reads this
    {
      Journal(seqNo, head, events)
    }

    constructor (setup: Setup, file: Text)
      ensures this.setup == setup && this.file == file && State() == EMPTY
    {
      this.setup, this.file := setup, file;
      seqNo, head, events := 0, GENESIS, [];
    }

    /** The replay of an existing file; on a fault the caller gets no journal. */
    method Replay() returns (fault: Option<Fault>)
      requires State() == EMPTY
      modifies `seqNo, `head, `events
      ensures fault == match Load(setup, file) case Ok(_) => None case Err(e) => Some(e)
      ensures fault.None? ==> Load(setup, file) == Ok(State())
    {
      hide Split, ByteLength, Step, Repeat, Field, Canon, Parse;
      if ByteLength(file) > setup.maxBytes { return Some(TooLarge); }
      if file != [] && file[|file| - 1] != NEWLINE { return Some(TornTail); }
      var lines := Split(file, NEWLINE);
      for i := 0 to |lines|
        invariant Steps(setup, EMPTY, lines) == Steps(setup, State(), lines[i..])
      {
        fault := Accept(lines[i]);
        assert lines[i..][0] == lines[i] && lines[i..][1..] == lines[i + 1..];
        if fault.Some? { return; }
      }
      fault := None;
    }

    /** The loop body: one line checked against the chain and taken. */
    method Accept(line: Text) returns (fault: Option<Fault>)
      modifies `seqNo, `head, `events
      ensures match Step(setup, old(State()), line)
        case Ok(k) => fault == None && State() == k
        case Err(e) => fault == Some(e)
    {
      hide Canon, Parse;
      var parsed := ParseLine(setup, line);
      if parsed.Err? { return Some(Unparsable); }
      if !parsed.value.Obj? { return Some(NotObject); }
      var fields := parsed.value.fields;
      var text := Canon(Obj(Without(fields, HASH)));
      if text.None? { return Some(BadKey); }
      var digest := setup.sha(text.value);
      if Field(fields, SEQ) != Some(Num(NatText(seqNo + 1))) || Field(fields, PREV) != Some(Str(head))
         || Field(fields, HASH) != Some(Str(digest)) {
        return Some(ChainBreak);
      }
      seqNo, head, events := seqNo + 1, digest, events + [Field(fields, EVENT)];
      fault := None;
    }

    /** The file loads to a journal with this number and this head. */
    ghost predicate Holds(raw: Text, j: Journal) {
      Load(setup, raw).Ok? && Load(setup, raw).value.seqNo == j.seqNo && Load(setup, raw).value.head == j.head
    }

    ghost predicate Fits(event: Json)
      reads this
    {
      NumberLaws(setup.rules) && Sound(setup.rules, event) && seqNo < MAX_SAFE && Holds(file, State())
    }

    /**
     * One record written behind the file, or a refusal that changes nothing. What the file loaded to it loads to still,
     * and after a record to that and what is left of the event; to the event itself exactly when its numbers are
     * finite.
     */
    method Add(event: Json) returns (fault: Option<Fault>)
      modifies `file, `seqNo, `head, `events
      ensures (State(), file, fault) == Append(setup, old(State()), old(file), event)
      ensures old(Fits(event)) ==>
        && Holds(file, State())
        && Load(setup, file).value ==
          if fault.None? then Longer(old(Load(setup, file)).value, State(), event) else old(Load(setup, file)).value
      ensures old(Fits(event)) && old(Load(setup, file)) == Ok(old(State())) ==>
          (Load(setup, file) == Ok(State()) <==> fault.Some? || Finite(event))
    {
      ghost var j, raw := State(), file;
      Kept(j, raw, event);
      hide Canon, Print, Load, ByteLength, NumberLaws, Sound, Nulled, Finite, Longer;
      var text := Canon(Body(seqNo + 1, head, event));
      if text.None? { return Some(BadKey); }
      var hash := setup.sha(text.value);
      var line := LineText(seqNo + 1, head, event, hash) + [NEWLINE];
      if ByteLength(file) + ByteLength(line) > setup.maxBytes { return Some(TooLarge); }
      file := file + line;
      seqNo, head, events := seqNo + 1, hash, events + [Some(event)];
      fault := None;
    }

    lemma {:induction false} Kept(j: Journal, raw: Text, event: Json)
      ensures NumberLaws(setup.rules) && Sound(setup.rules, event) && j.seqNo < MAX_SAFE && Holds(raw, j) ==>
        var (next, file, fault) := Append(setup, j, raw, event); var was := Load(setup, raw).value;
        && Holds(file, next) && Load(setup, file).value == (if fault.None? then Longer(was, next, event) else was)
        && (was == j ==> (Load(setup, file).value == next <==> fault.Some? || Finite(event)))
    {
      hide Canon, Print, ByteLength, Steps, NumberLaws, Sound, Nulled, Finite;
      if NumberLaws(setup.rules) && Sound(setup.rules, event) && j.seqNo < MAX_SAFE && Holds(raw, j) {
        AppendLoads(setup, j, Load(setup, raw).value, raw, event);
        NulledSame(event);
        var (next, _, fault) := Append(setup, j, raw, event);
        if fault.None? { LongerSame(j, next, event); }
      }
    }

    lemma {:induction false} LongerSame(j: Journal, next: Journal, event: Json)
      requires next.events == j.events + [Some(event)]
      ensures Longer(j, next, event) == next <==> Nulled(event) == event
    {
      assert next.events[|j.events|] == Some(event);
      assert (j.events + [Some(Nulled(event))])[|j.events|] == Some(Nulled(event));
    }
  }
}
