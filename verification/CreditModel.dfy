/**
 * The gateway's outbound half of a terminal connection (runtime/hermit/gateway/connection.js) with the socket writes of
 * runtime/hermit/gateway/ws.js, as values.
 *
 * The worker hands over payloads, the client grants byte credits, and each socket write reports back through its
 * callback. `wire` is the log of frames in the order they were written. `refs` counts the references on the memory
 * lease of each payload, and `reported` the bytes the worker is told are off its hands.
 */
module CreditModel {
  import opened Common

  const U48_MAX: nat := 281474976710655

  datatype Config = Config(window: nat, maxOutstanding: nat, sendQueue: nat, controlReserve: nat)

  datatype Phase = Active | Draining | Closed

  datatype Frame = Frame(seqNo: nat, payload: seq<Byte>)

  /** A payload that waits, and the name of its lease. */
  datatype Item = Item(payload: seq<Byte>, lease: nat)

  /** A frame the client has not reported consumed: its number, and the bytes sent up to and with it. */
  datatype Mark = Mark(seqNo: nat, cum: nat)

  /** A socket write whose callback has not fired. */
  datatype Flight = Flight(total: nat, lease: Option<nat>)

  datatype Conn = Conn(
    phase: Phase, wsOpen: bool, exited: bool, outSeq: nat, sentBytes: nat, creditBytes: int, consumedSeq: nat,
    consumedBytes: nat,
    outstanding: seq<Mark>, pendingOut: seq<Item>, paused: bool, discard: bool,
    inflight: seq<Flight>, congested: bool, refs: map<nat, nat>, nextLease: nat,
    wire: seq<Frame>, cutBytes: nat, reported: nat)

  function Opened(creditBytes: nat): Conn {
    Conn(Active, true, false, 0, 0, creditBytes, 0, 0, [], [], false, false, [], false, map[], 0, [], 0, 0)
  }

  // ------------------------------------------------------------------ bytes

  function Bytes(frames: seq<Frame>): nat {
    if frames == [] then 0 else Bytes(frames[..|frames| - 1]) + |frames[|frames| - 1].payload|
  }

  function Total(inflight: seq<Flight>): nat {
    if inflight == [] then 0 else Total(inflight[..|inflight| - 1]) + inflight[|inflight| - 1].total
  }

  function ItemBytes(items: seq<Item>): nat {
    if items == [] then 0 else |items[0].payload| + ItemBytes(items[1..])
  }

  function Payloads(frames: seq<Frame>): seq<seq<Byte>> {
    if frames == [] then [] else Payloads(frames[..|frames| - 1]) + [frames[|frames| - 1].payload]
  }

  /** The WebSocket frame header of a payload of `n` bytes. */
  function HeadSize(n: nat): nat { if n < 126 then 2 else if n < 65536 then 4 else 10 }

  // ------------------------------------------------------------------ references

  function Retain(refs: map<nat, nat>, id: nat): map<nat, nat> {
    refs[id := (if id in refs then refs[id] else 0) + 1]
  }

  function Drop(refs: map<nat, nat>, id: nat): map<nat, nat> {
    if id !in refs then refs else if refs[id] > 1 then refs[id := refs[id] - 1] else refs - {id}
  }

  function DropAll(refs: map<nat, nat>, items: seq<Item>): map<nat, nat>
    decreases |items|
  {
    if items == [] then refs else DropAll(Drop(refs, items[0].lease), items[1..])
  }

  // ------------------------------------------------------------------ sending

  predicate CanSend(z: Config, c: Conn, n: nat) {
    c.sentBytes + n <= c.creditBytes && |c.outstanding| < z.maxOutstanding
  }

  /** `_budget` of a data message: seven bytes of data header come with every payload. */
  predicate Room(z: Config, c: Conn, n: nat) { Total(c.inflight) + (n + 7) + 10 <= z.sendQueue }

  /** `_write`: a write is in flight until its callback, and enough of them make the socket congested. */
  function Written(z: Config, c: Conn, n: nat, lease: Option<nat>): Conn {
    var inflight := c.inflight + [Flight(HeadSize(n) + n, lease)];
    c.(inflight := inflight, congested := c.congested || 2 * Total(inflight) >= z.sendQueue,
       refs := if lease.Some? then Retain(c.refs, lease.value) else c.refs)
  }

  /** The bookkeeping of a payload that was written: it is numbered, and its producer's reference is dropped. */
  function Numbered(c: Conn): Conn
    requires c.pendingOut != []
  {
    var item := c.pendingOut[0];
    c.(pendingOut := c.pendingOut[1..], outSeq := c.outSeq + 1,
       sentBytes := c.sentBytes + |item.payload|,
       outstanding := c.outstanding + [Mark(c.outSeq + 1, c.sentBytes + |item.payload|)],
       wire := c.wire + [Frame(c.outSeq + 1, item.payload)],
       reported := c.reported + |item.payload|,
       refs := Drop(c.refs, item.lease))
  }

  /** The first waiting payload goes out; the socket keeps a reference of its own. */
  function SendFirst(z: Config, c: Conn): Conn
    requires c.pendingOut != []
  {
    Numbered(Written(z, c, |c.pendingOut[0].payload| + 7, Some(c.pendingOut[0].lease)))
  }

  /** `end`: no more input or credit; what was paused is discarded. */
  function End(c: Conn): Conn {
    if c.phase != Active then c else c.(phase := Draining, discard := c.discard || c.paused, paused := false)
  }

  /** The loop of `_flush`; the second result is false when the sequence space was exhausted. */
  function Flushed(z: Config, c: Conn): (Conn, bool)
    decreases |c.pendingOut|
  {
    if c.pendingOut == [] then (c, true)
    else
      var item := c.pendingOut[0];
      if !CanSend(z, c, |item.payload|) then (c, true)
      else if item.lease !in c.refs then Flushed(z, c.(pendingOut := c.pendingOut[1..]))
      else if c.outSeq + 1 >= U48_MAX then (End(c), false)
      else if !c.wsOpen then (c, true)
      else if !Room(z, c, |item.payload|) then (c.(congested := true), true)
      else Flushed(z, SendFirst(z, c))
  }

  /** `_flow`: the worker is paused exactly while something waits. */
  function Flow(c: Conn): Conn { if c.phase != Active then c else c.(paused := c.pendingOut != []) }

  function Flush(z: Config, c: Conn): Conn {
    var (f, ok) := Flushed(z, c);
    if ok then Flow(f) else f
  }

  // ------------------------------------------------------------------ what happens to a connection

  function Cut(c: Conn, cut: nat, reported: nat): Conn {
    c.(cutBytes := c.cutBytes + cut, reported := c.reported + reported)
  }

  function Enqueued(c: Conn, payload: seq<Byte>): Conn {
    c.(pendingOut := c.pendingOut + [Item(payload, c.nextLease)],
       refs := c.refs[c.nextLease := 1], nextLease := c.nextLease + 1)
  }

  /** `_output`: a payload from the worker; without memory for it the session ends. */
  function Output(z: Config, c: Conn, payload: seq<Byte>, granted: bool): Conn {
    if c.discard || c.phase == Closed then Cut(c, |payload|, |payload|)
    else if !granted then End(Cut(c, |payload|, 0))
    else
      Flush(z, Enqueued(c, payload))
  }

  function Consumed(marks: seq<Mark>, upTo: nat): seq<Mark>
    decreases |marks|
  {
    if marks == [] || marks[0].seqNo > upTo then marks else Consumed(marks[1..], upTo)
  }

  function ConsumedBytes(marks: seq<Mark>, upTo: nat, bytes: nat): nat
    decreases |marks|
  {
    if marks == [] || marks[0].seqNo > upTo then bytes else ConsumedBytes(marks[1..], upTo, marks[0].cum)
  }

  /** `_credit` refuses it before anything is changed. */
  predicate CreditRefused(c: Conn, consumedSeq: int, creditBytes: int) {
    consumedSeq < c.consumedSeq || consumedSeq > c.outSeq || creditBytes < c.creditBytes
  }

  function Acknowledged(c: Conn, consumedSeq: nat): Conn {
    c.(outstanding := Consumed(c.outstanding, consumedSeq),
       consumedBytes := ConsumedBytes(c.outstanding, consumedSeq, c.consumedBytes), consumedSeq := consumedSeq)
  }

  predicate CreditTooWide(z: Config, c: Conn, consumedSeq: nat, creditBytes: int) {
    creditBytes - Acknowledged(c, consumedSeq).consumedBytes > z.window
  }

  predicate CreditViolates(z: Config, c: Conn, consumedSeq: int, creditBytes: int) {
    CreditRefused(c, consumedSeq, creditBytes) || CreditTooWide(z, c, consumedSeq, creditBytes)
  }

  /** A credit message; once the session is ending none is read. */
  function Credit(z: Config, c: Conn, consumedSeq: int, creditBytes: int): Conn {
    if c.phase != Active then c
    else if CreditRefused(c, consumedSeq, creditBytes) then End(c)
    else if CreditTooWide(z, c, consumedSeq, creditBytes) then End(Acknowledged(c, consumedSeq))
    else Flush(z, Acknowledged(c, consumedSeq).(creditBytes := creditBytes))
  }

  /** The socket has drained below a quarter: what waits is tried again. */
  function Relieved(z: Config, c: Conn): Conn {
    if c.congested && 4 * Total(c.inflight) < z.sendQueue && c.phase != Closed
    then Flush(z, c.(congested := false)) else c
  }

  /** The callback of the oldest write. */
  function Settled(z: Config, c: Conn): Conn {
    if c.inflight == [] then c
    else
      var f := c.inflight[0];
      var refs := if f.lease.Some? then Drop(c.refs, f.lease.value) else c.refs;
      Relieved(z, c.(inflight := c.inflight[1..], refs := refs))
  }

  /** `_onSocketClose`: what waited is given up; what is in flight keeps its memory until its callback. */
  function Close(c: Conn): Conn {
    c.(phase := Closed, wsOpen := false, cutBytes := c.cutBytes + ItemBytes(c.pendingOut),
       refs := DropAll(c.refs, c.pendingOut), pendingOut := [], outstanding := [])
  }

  /** A control message of `n` bytes has a reserve of its own; without room even there the socket is torn down. */
  function Control(z: Config, c: Conn, n: nat): Conn {
    if c.phase == Closed then c
    else if c.wsOpen && Total(c.inflight) + n + 10 <= z.sendQueue + z.controlReserve then Written(z, c, n, None)
    else Close(c)
  }

  /** The closing handshake begins, from either side, with a close frame of `n` bytes. */
  function Closing(z: Config, c: Conn, n: nat): Conn {
    if !c.wsOpen then c else Written(z, c, n, None).(wsOpen := false)
  }

  /** `_finalExit`: what still waits for credit is given up, once, counted, and its memory returned. */
  function FinalExit(c: Conn): Conn {
    if c.exited then c
    else c.(exited := true, cutBytes := c.cutBytes + ItemBytes(c.pendingOut), refs := DropAll(c.refs, c.pendingOut),
        pendingOut := [])
  }

  datatype Op =
    | DoOutput(payload: seq<Byte>, granted: bool)
    | DoCredit(consumedSeq: int, creditBytes: int)
    | DoSettle
    | DoDrain
    | DoControl(n: nat)
    | DoEnd
    | DoClosing(n: nat)
    | DoFinalExit
    | DoClose

  function Do(z: Config, c: Conn, op: Op): Conn {
    match op
    case DoOutput(payload, granted) => Output(z, c, payload, granted)
    case DoCredit(consumedSeq, creditBytes) => Credit(z, c, consumedSeq, creditBytes)
    case DoSettle => Settled(z, c)
    case DoDrain => Relieved(z, c)
    case DoControl(n) => Control(z, c, n)
    case DoEnd => End(c)
    case DoClosing(n) => Closing(z, c, n)
    case DoFinalExit => FinalExit(c)
    case DoClose => Close(c)
  }

  function Run(z: Config, c: Conn, ops: seq<Op>): Conn
    decreases |ops|
  {
    if ops == [] then c else Run(z, Do(z, c, ops[0]), ops[1..])
  }
}
