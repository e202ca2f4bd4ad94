/** Framing of packets on a socket:
      [command id: 4 bytes][payload length: 4 bytes][payload]
    both ints big-endian.  `Send` appends a frame to the output stream;
    `Receive` consumes one from the input stream. */
module SocketIO {
  import opened Bytes
  import opened Failures
  import opened Commands
  import opened Packets
  import opened Streams

  /** The largest payload length receive accepts. */
  const MAX_PAYLOAD: int := 100_000_000

  /** The bytes send writes for a packet. */
  function Frame(p: Packet): seq<byte>
    requires IsArrayLength(|p.payload|)
  {
    Be32(Id(p.command)) + Be32(|p.payload|) + p.payload
  }

  /** What one receive does at cursor `pos`. */
  function ReceiveAt(data: seq<byte>, pos: nat): Step<Packet> {
    match ReadIntAt(data, pos)
    case Err(e) => Step(Err(e), |data|)
    case Ok((id, p1)) =>
      match FromId(id)
      case Err(e) => Step(Err(e), p1)
      case Ok(cmd) =>
        match ReadIntAt(data, p1)
        case Err(e) => Step(Err(e), |data|)
        case Ok((len, p2)) =>
          if len < 0 || len > MAX_PAYLOAD then
            Step(Err(IOFailure), p2)
          else if len > 0 then
            match ReadFullyAt(data, p2, len)
            case Err(e) => Step(Err(e), |data|)
            case Ok((payload, p3)) => Step(Ok(Packet(cmd, payload)), p3)
          else
            Step(Ok(Packet(cmd, [])), p2)
  }

  /** SocketIO.send: writeInt(id), writeInt(length), the payload, flush.
      Nothing checks the payload against MAX_PAYLOAD. */
  method Send(out: ByteOutput, p: Packet)
    requires IsArrayLength(|p.payload|)
    modifies out
    ensures out.written == old(out.written) + Frame(p)
  {
    out.WriteInt(Id(p.command));
    out.WriteInt(|p.payload|);
    if |p.payload| > 0 {
      out.Write(p.payload);
    }
  }

  /** SocketIO.receive. */
  method Receive(inp: ByteInput) returns (r: Result<Packet>)
    requires inp.Valid()
    modifies inp
    ensures inp.Valid()
    ensures var s := ReceiveAt(inp.data, old(inp.pos)); r == s.result && inp.pos == s.next
  {
    var id := inp.ReadInt();
    if id.Err? {
      return Err(id.error);
    }
    var cmd := FromId(id.value);
    if cmd.Err? {
      return Err(cmd.error);
    }
    var len := inp.ReadInt();
    if len.Err? {
      return Err(len.error);
    }
    if len.value < 0 || len.value > MAX_PAYLOAD {
      return Err(IOFailure);
    }
    var payload: seq<byte> := [];
    if len.value > 0 {
      var body := inp.ReadFully(len.value);
      if body.Err? {
        return Err(body.error);
      }
      payload := body.value;
    }
    r := Ok(Packet(cmd.value, payload));
  }

  // ---------------------------------------------------------------------
  // Properties

  /** A frame is the eight header bytes and the payload, nothing else. */
  lemma FrameLayout(p: Packet)
    requires IsArrayLength(|p.payload|)
    ensures |Frame(p)| == 8 + |p.payload|
    ensures FromBe32(Frame(p)[..4]) == Id(p.command)
    ensures FromBe32(Frame(p)[4..8]) == |p.payload|
    ensures Frame(p)[8..] == p.payload
  {
    var f := Frame(p);
    assert f[..4] == Be32(Id(p.command));
    assert f[4..8] == Be32(|p.payload|);
    Be32RoundTrip(Id(p.command));
    Be32RoundTrip(|p.payload|);
  }

  /** Round trip: wherever a frame with an acceptable payload sits in the
      input, receive at its start returns the packet and consumes exactly
      its 8 + |payload| bytes. */
  lemma ReceiveFrame(data: seq<byte>, pos: nat, p: Packet)
    requires |p.payload| <= MAX_PAYLOAD
    requires pos + |Frame(p)| <= |data| && data[pos..pos + |Frame(p)|] == Frame(p)
    ensures ReceiveAt(data, pos) == Step(Ok(p), pos + 8 + |p.payload|)
  {
    var f := Frame(p);
    var n := |p.payload|;
    assert f[..4] == Be32(Id(p.command)) && f[4..8] == Be32(n) && f[8..] == p.payload;
    SliceOfSlice(data, pos, pos + |f|, 0, 4);
    SliceOfSlice(data, pos, pos + |f|, 4, 8);
    SliceOfSlice(data, pos, pos + |f|, 8, |f|);
    assert data[pos..pos + 4] == Be32(Id(p.command));
    assert data[pos + 4..pos + 8] == Be32(n);
    ReadIntAtSlice(data, pos, Id(p.command));
    ReadIntAtSlice(data, pos + 4, n);
    FromIdOfId(p.command);
    if n > 0 {
      assert data[pos + 8..pos + 8 + n] == p.payload;
    }
  }

  /** The same, for a frame at the front of the input. */
  lemma ReceiveSent(p: Packet, rest: seq<byte>)
    requires |p.payload| <= MAX_PAYLOAD
    ensures ReceiveAt(Frame(p) + rest, 0) == Step(Ok(p), |Frame(p)|)
  {
    var data := Frame(p) + rest;
    assert data[0..|Frame(p)|] == Frame(p);
    ReceiveFrame(data, 0, p);
  }

  /** send writes a packet whose payload exceeds the cap, but receive
      rejects it with an IOException after reading only the header. */
  lemma OversizedNotReceivable(p: Packet, rest: seq<byte>)
    requires IsArrayLength(|p.payload|) && |p.payload| > MAX_PAYLOAD
    ensures ReceiveAt(Frame(p) + rest, 0) == Step(Err(IOFailure), 8)
  {
    var data := Frame(p) + rest;
    assert data[0..4] == Be32(Id(p.command));
    assert data[4..8] == Be32(|p.payload|);
    ReadIntAtSlice(data, 0, Id(p.command));
    ReadIntAtSlice(data, 4, |p.payload|);
    FromIdOfId(p.command);
  }

  /** A declared length below 0 or above the cap fails with an IOException
      before any payload byte is read. */
  lemma BadLengthRejected(data: seq<byte>, pos: nat)
    requires pos + 8 <= |data|
    requires FromId(FromBe32(data[pos..pos + 4])).Ok?
    requires var len := FromBe32(data[pos + 4..pos + 8]); len < 0 || len > MAX_PAYLOAD
    ensures ReceiveAt(data, pos) == Step(Err(IOFailure), pos + 8)
  {
  }

  /** An unknown command id fails in fromId, before the length is read. */
  lemma UnknownIdRejected(data: seq<byte>, pos: nat)
    requires pos + 4 <= |data| && !IsKnownId(FromBe32(data[pos..pos + 4]))
    ensures ReceiveAt(data, pos) == Step(Err(IllegalArgument), pos + 4)
  {
    FromIdUnknown(FromBe32(data[pos..pos + 4]));
  }

  /** A zero length gives an empty payload and reads no body. */
  lemma ZeroLengthNoBody(data: seq<byte>, pos: nat)
    requires pos + 8 <= |data|
    requires FromId(FromBe32(data[pos..pos + 4])).Ok?
    requires FromBe32(data[pos + 4..pos + 8]) == 0
    ensures ReceiveAt(data, pos) ==
      Step(Ok(Packet(FromId(FromBe32(data[pos..pos + 4])).value, [])), pos + 8)
  {
  }

  /** receive never invents bytes: a packet it returns came from a complete
      header and body, and fewer than four bytes of input end in EOF. */
  lemma ReceiveBounds(data: seq<byte>, pos: nat)
    ensures var s := ReceiveAt(data, pos);
      s.result.Ok? ==> s.next == pos + 8 + |s.result.value.payload| <= |data|
                       && |s.result.value.payload| <= MAX_PAYLOAD
                       && s.result.value.payload == data[pos + 8..s.next]
    ensures |data| < pos + 4 ==> ReceiveAt(data, pos) == Step(Err(EOF), |data|)
    ensures (IsKnownId(if pos + 4 <= |data| then FromBe32(data[pos..pos + 4]) else 0)
             && |data| < pos + 8) ==> ReceiveAt(data, pos).result == Err(EOF)
  {
    if pos + 4 <= |data| {
      FromIdSucceedsIffKnown(FromBe32(data[pos..pos + 4]));
    }
  }
}
