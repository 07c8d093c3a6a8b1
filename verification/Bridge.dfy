/** Encoder and decoder of bridge records: header and body are buffers that chunks fill. */
module BridgeCodec {
  import opened Common
  import opened BridgeModel

  method Encode(body: array<Byte>) returns (out: array?<Byte>)
    ensures out == null <==> body.Length == 0 || body.Length > MAX_BODY
    ensures out != null ==> fresh(out) && out[..] == EncodeRecord(body[..])
  {
    if body.Length == 0 || body.Length > MAX_BODY { return null; }
    var n := body.Length;
    var o := new Byte[4 + n](_ => 0);
    o[0], o[1], o[2], o[3] := n / 16777216, n / 65536 % 256, n / 256 % 256, n % 256;
    for i := 0 to n
      invariant o[..4] == WordBytes(n) && o[4..4 + i] == body[..i]
    {
      o[4 + i] := body[i];
      assert o[4..4 + i + 1] == o[4..4 + i] + [o[4 + i]];
    }
    assert body[..n] == body[..];
    assert o[..] == o[..4] + o[4..4 + n];
    out := o;
  }

  class FrameDecoder {
    const valid: seq<Byte> -> bool
    const header: array<Byte>
    var headerFill: nat
    var hasBody: bool
    var body: array<Byte>
    var bodyFill: nat
    var failed: Option<Failure>
    var records: seq<seq<Byte>>

    ghost predicate Shape()
      reads this
    {
      && header.Length == 4 && headerFill <= 4 && header != body
      && (hasBody ==> bodyFill <= body.Length)
    }

    ghost function State(): Rx
      reads this, header, body
      requires Shape()
    {
      Rx(header[..headerFill], if hasBody then Some(Part(body.Length, body[..bodyFill])) else None, failed, records)
    }

    ghost predicate Good()
      reads this, header, body
    {
      Shape() && Valid(State())
    }

    constructor (valid: seq<Byte> -> bool)
      ensures Good() && State() == START && this.valid == valid && fresh(header) && fresh(body)
    {
      this.valid := valid;
      header := new Byte[4](_ => 0);
      body := new Byte[0];
      headerFill, hasBody, bodyFill, failed, records := 0, false, 0, None, [];
    }

    static method Copy(chunk: array<Byte>, off: nat, take: nat, buf: array<Byte>, at: nat)
      requires off + take <= chunk.Length && at + take <= buf.Length && chunk != buf
      modifies buf
      ensures buf[..at + take] == old(buf[..at]) + chunk[off..off + take]
    {
      for i := 0 to take
        invariant buf[..at] == old(buf[..at]) && buf[at..at + i] == chunk[off..off + i]
      {
        buf[at + i] := chunk[off + i];
        assert buf[at..at + i + 1] == buf[at..at + i] + [buf[at + i]];
        assert chunk[off..off + i + 1] == chunk[off..off + i] + [chunk[off + i]];
      }
      assert buf[..at + take] == buf[..at] + buf[at..at + take];
    }

    method PushHeader(chunk: array<Byte>, off: nat) returns (next: nat)
      requires Good() && failed.None? && !hasBody && off < chunk.Length && chunk != header
      modifies this, header
      ensures Good() && off < next <= chunk.Length && (body == old(body) || fresh(body))
      ensures State() == Receive(valid, old(State()), chunk[off..next])
    {
      ghost var before := State();
      var take := if 4 - headerFill < chunk.Length - off then 4 - headerFill else chunk.Length - off;
      HeaderRun(valid, before, chunk[off..off + take]);
      ReceiveKeeps(valid, before, chunk[off..off + take]);
      Copy(chunk, off, take, header, headerFill);
      headerFill := headerFill + take;
      next := off + take;
      assert header[..4] == header[..];
      if headerFill == 4 { Decide(); }
    }

    /** A complete header: refused, or room made for its body. */
    method Decide()
      requires Shape() && headerFill == 4 && !hasBody
      modifies this
      ensures Shape() && (body == old(body) || fresh(body)) && headerFill == 4
      ensures State() == Headed(old(State()), header[..])
    {
      assert header[..4] == header[..];
      var len := BigEndian(header[0], header[1], header[2], header[3]);
      if len == 0 {
        failed := Some(ZeroLength);
      } else if len > MAX_BODY {
        failed := Some(TooLong);
      } else {
        body := new Byte[len](_ => 0);
        hasBody, bodyFill := true, 0;
        assert body[..0] == [];
      }
    }

    method PushBody(chunk: array<Byte>, off: nat) returns (next: nat)
      requires Good() && failed.None? && hasBody && off < chunk.Length && chunk != body
      modifies this, body
      ensures Good() && off < next <= chunk.Length && body == old(body)
      ensures State() == Receive(valid, old(State()), chunk[off..next])
    {
      hide Receive, Word;
      ghost var before := State();
      var take := if body.Length - bodyFill < chunk.Length - off then body.Length - bodyFill else chunk.Length - off;
      BodyRun(valid, before, chunk[off..off + take]);
      ReceiveKeeps(valid, before, chunk[off..off + take]);
      Copy(chunk, off, take, body, bodyFill);
      bodyFill := bodyFill + take;
      next := off + take;
      if bodyFill < body.Length { return; }
      hasBody, headerFill := false, 0;
      assert header[..0] == [];
      assert body[..] == body[..bodyFill];
      if valid(body[..]) { records := records + [body[..]]; } else { failed := Some(BadRecord); }
    }

    /** One chunk: afterwards the decoder is where the byte-by-byte meaning of the stream puts it. */
    method Push(chunk: array<Byte>)
      requires Good() && chunk != header && chunk != body
      modifies this, header, body
      ensures Good() && State() == Receive(valid, old(State()), chunk[..])
    {
      var off := 0;
      ghost var before := State();
      while off < chunk.Length && failed.None?
        invariant Good() && off <= chunk.Length && chunk != body && (body == old(body) || fresh(body))
        invariant State() == Receive(valid, before, chunk[..off])
        decreases chunk.Length - off
      {
        var next;
        if hasBody { next := PushBody(chunk, off); } else { next := PushHeader(chunk, off); }
        ReceiveAppend(valid, before, chunk[..off], chunk[off..next]);
        assert chunk[..next] == chunk[..off] + chunk[off..next];
        off := next;
      }
      assert chunk[..] == chunk[..off] + chunk[off..];
      ReceiveAppend(valid, before, chunk[..off], chunk[off..]);
      if off < chunk.Length { FailedStays(valid, State(), chunk[off..]); }
    }

    method End() returns (clean: bool)
      requires Shape()
      ensures clean <==> Clean(State())
    {
      clean := !hasBody && headerFill == 0;
    }
  }
}
