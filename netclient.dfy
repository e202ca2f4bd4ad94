/** The client's side of the protocol (NetworkClient): each request sends
    one packet and reads one reply, which is then classified.  The server
    is whatever wrote the reply bytes the client reads. */
module NetClient {
  import opened Bytes
  import opened Failures
  import opened Commands
  import opened Packets
  import opened Utf8
  import opened Streams
  import opened SocketIO
  import opened Payloads

  /** The `socket` field: null before connect, then open, then closed. */
  datatype SocketState = NoSocket | Open | Closed

  /** The client's end of a connection as a value: the socket, every byte
      sent so far, and how far the server's replies have been read. */
  datatype Link = Link(socket: SocketState, sent: seq<byte>, pos: nat)

  /** A request's outcome and the link it leaves. */
  datatype Call<T> = Call(result: Result<T>, link: Link)

  /** A LOCK_REQ or UNLOCK payload fits in a packet. */
  predicate PairSendable(path: string, mode: string) {
    IsArrayLength(8 + |Encode(path)| + |Encode(mode)|)
  }

  /** A GET_META or GET_FILE payload fits in a packet. */
  predicate PathSendable(path: string) {
    IsArrayLength(4 + |Encode(path)|)
  }

  /** A PUT_FILE payload fits in a packet. */
  predicate UploadSendable(path: string, data: seq<byte>) {
    IsArrayLength(8 + |Encode(path)| + |data|)
  }

  /** SocketIO.send then SocketIO.receive: without a socket the send is a
      NullPointerException, on a closed one an IOException, and nothing
      is sent or read. */
  function Exchange(replies: seq<byte>, l: Link, req: Packet): (c: Call<Packet>)
    requires IsArrayLength(|req.payload|)
    ensures l.socket != Open ==> c.link == l && c.result.Err?
    ensures l.socket == Open ==> c.link.socket == Open && c.link.sent == l.sent + Frame(req)
  {
    match l.socket
    case NoSocket => Call(Err(NullPointer), l)
    case Closed => Call(Err(IOFailure), l)
    case Open =>
      var s := ReceiveAt(replies, l.pos);
      Call(s.result, Link(Open, l.sent + Frame(req), s.next))
  }

  /** bytesToLong, ByteBuffer.getLong over the payload: the first eight
      bytes, big-endian; fewer is a BufferUnderflowException. */
  function BytesToLong(b: seq<byte>): (r: Result<int>)
    ensures r.Ok? <==> |b| >= 8
    ensures r.Ok? ==> IsLong(r.value) && Be64(r.value) == b[..8]
    ensures r.Err? ==> r.error == BufferUnderflow
  {
    if |b| < 8 then Err(BufferUnderflow)
    else
      FromBe64Inverse(b[..8]);
      Ok(FromBe64(b[..8]))
  }

  /** requestLock's reading of the reply: granted iff RES_OK. */
  function LockGranted(reply: Packet): bool {
    reply.command == ResOk
  }

  /** requestUnlock's and uploadFile's reading of the reply. */
  function ExpectOk(reply: Packet): (r: Result<()>)
    ensures r.Ok? <==> reply.command == ResOk
    ensures r.Err? ==> r.error == IOFailure
  {
    if reply.command == ResOk then Ok(()) else Err(IOFailure)
  }

  /** getMetadata's reading of the reply: the time from META_RES, -1 from
      RES_FAIL, an IOException from anything else. */
  function MetaOutcome(reply: Packet): (r: Result<int>)
    ensures reply.command == ResFail ==> r == Ok(-1)
    ensures reply.command == MetaRes ==> r == BytesToLong(reply.payload)
    ensures reply.command != ResFail && reply.command != MetaRes ==> r == Err(IOFailure)
  {
    match reply.command
    case MetaRes => BytesToLong(reply.payload)
    case ResFail => Ok(-1)
    case _ => Err(IOFailure)
  }

  /** downloadFile's reading of the reply: the payload of FILE_RES, a
      FileNotFoundException from RES_FAIL, an IOException otherwise. */
  function FileOutcome(reply: Packet): (r: Result<seq<byte>>)
    ensures r.Ok? <==> reply.command == FileRes
    ensures r.Ok? ==> r.value == reply.payload
    ensures r.Err? ==> r.error == if reply.command == ResFail then FileNotFound else IOFailure
  {
    match reply.command
    case FileRes => Ok(reply.payload)
    case ResFail => Err(FileNotFound)
    case _ => Err(IOFailure)
  }

  /** A request followed by the reading of its reply; an exception from
      send or receive propagates. */
  function Then<T>(c: Call<Packet>, f: Packet -> Result<T>): Call<T> {
    if c.result.Ok? then Call(f(c.result.value), c.link) else Call(Err(c.result.error), c.link)
  }

  function LockPacket(path: string, mode: string): (p: Packet)
    requires PairSendable(path, mode)
    ensures IsArrayLength(|p.payload|)
  {
    Packet(LockReq, BuildLockReqPayload(path, mode))
  }

  function UnlockPacket(path: string, mode: string): (p: Packet)
    requires PairSendable(path, mode)
    ensures IsArrayLength(|p.payload|)
  {
    Packet(Unlock, BuildUnlockPayload(path, mode))
  }

  function MetaPacket(path: string): (p: Packet)
    requires PathSendable(path)
    ensures IsArrayLength(|p.payload|)
  {
    Packet(GetMeta, BuildStringPayload(path))
  }

  function FilePacket(path: string): (p: Packet)
    requires PathSendable(path)
    ensures IsArrayLength(|p.payload|)
  {
    Packet(GetFile, BuildStringPayload(path))
  }

  function PutPacket(path: string, data: seq<byte>): (p: Packet)
    requires UploadSendable(path, data)
    ensures IsArrayLength(|p.payload|)
  {
    Packet(PutFile, BuildPutFilePayload(path, data))
  }

  /** requestLock. */
  function RequestLockAt(replies: seq<byte>, l: Link, path: string, mode: string): Call<bool>
    requires PairSendable(path, mode)
  {
    Then(Exchange(replies, l, LockPacket(path, mode)), (p: Packet) => Ok(LockGranted(p)))
  }

  /** requestUnlock. */
  function RequestUnlockAt(replies: seq<byte>, l: Link, path: string, mode: string): Call<()>
    requires PairSendable(path, mode)
  {
    Then(Exchange(replies, l, UnlockPacket(path, mode)), ExpectOk)
  }

  /** getMetadata. */
  function GetMetadataAt(replies: seq<byte>, l: Link, path: string): Call<int>
    requires PathSendable(path)
  {
    Then(Exchange(replies, l, MetaPacket(path)), MetaOutcome)
  }

  /** downloadFile. */
  function DownloadFileAt(replies: seq<byte>, l: Link, path: string): Call<seq<byte>>
    requires PathSendable(path)
  {
    Then(Exchange(replies, l, FilePacket(path)), FileOutcome)
  }

  /** uploadFile. */
  function UploadFileAt(replies: seq<byte>, l: Link, path: string, data: seq<byte>): Call<()>
    requires UploadSendable(path, data)
  {
    Then(Exchange(replies, l, PutPacket(path, data)), ExpectOk)
  }

  // ---------------------------------------------------------------------
  // The client object

  class NetworkClient {
    var socket: SocketState
    /** What the socket's output stream has carried. */
    const output: ByteOutput
    /** The bytes the server sends, and how far they have been read. */
    const input: ByteInput

    ghost predicate Valid()
      reads this, input
    {
      input.Valid()
    }

    /** The connection as a value. */
    ghost function State(): Link
      reads this, output, input
    {
      Link(socket, output.written, input.pos)
    }

    /** new NetworkClient(): no socket yet, so not connected. */
    constructor (out: ByteOutput, inp: ByteInput)
      requires inp.Valid()
      ensures Valid() && output == out && input == inp && socket == NoSocket && !IsConnected()
    {
      socket := NoSocket;
      output := out;
      input := inp;
    }

    /** connect: a new open socket.  Host, port and a failure to connect
        are not modelled. */
    method Connect()
      modifies this
      ensures socket == Open && IsConnected()
    {
      socket := Open;
    }

    /** disconnect: closes an open socket; without one nothing happens. */
    method Disconnect()
      modifies this
      ensures socket == if old(socket) == NoSocket then NoSocket else Closed
      ensures !IsConnected()
    {
      if socket == Open {
        socket := Closed;
      }
    }

    /** isConnected: a socket that exists and is not closed. */
    predicate IsConnected()
      reads this
    {
      socket == Open
    }

    /** One send and one receive on the socket. */
    method Call(req: Packet) returns (r: Result<Packet>)
      requires Valid() && IsArrayLength(|req.payload|)
      modifies output, input
      ensures Valid()
      ensures var c := Exchange(input.data, old(State()), req); r == c.result && State() == c.link
    {
      if socket == NoSocket {
        return Err(NullPointer);
      }
      if socket == Closed {
        return Err(IOFailure);
      }
      Send(output, req);
      r := Receive(input);
    }

    method RequestLock(path: string, mode: string) returns (r: Result<bool>)
      requires Valid() && PairSendable(path, mode)
      modifies output, input
      ensures Valid()
      ensures var c := RequestLockAt(input.data, old(State()), path, mode); r == c.result && State() == c.link
    {
      var res := Call(LockPacket(path, mode));
      if res.Err? {
        return Err(res.error);
      }
      r := Ok(res.value.command == ResOk);
    }

    method RequestUnlock(path: string, mode: string) returns (r: Result<()>)
      requires Valid() && PairSendable(path, mode)
      modifies output, input
      ensures Valid()
      ensures var c := RequestUnlockAt(input.data, old(State()), path, mode); r == c.result && State() == c.link
    {
      var res := Call(UnlockPacket(path, mode));
      if res.Err? {
        return Err(res.error);
      }
      if res.value.command != ResOk {
        return Err(IOFailure);
      }
      r := Ok(());
    }

    method GetMetadata(path: string) returns (r: Result<int>)
      requires Valid() && PathSendable(path)
      modifies output, input
      ensures Valid()
      ensures var c := GetMetadataAt(input.data, old(State()), path); r == c.result && State() == c.link
    {
      var res := Call(MetaPacket(path));
      if res.Err? {
        return Err(res.error);
      }
      if res.value.command == MetaRes {
        r := BytesToLong(res.value.payload);
      } else if res.value.command == ResFail {
        r := Ok(-1);
      } else {
        r := Err(IOFailure);
      }
    }

    method DownloadFile(path: string) returns (r: Result<seq<byte>>)
      requires Valid() && PathSendable(path)
      modifies output, input
      ensures Valid()
      ensures var c := DownloadFileAt(input.data, old(State()), path); r == c.result && State() == c.link
    {
      var res := Call(FilePacket(path));
      if res.Err? {
        return Err(res.error);
      }
      if res.value.command == FileRes {
        r := Ok(res.value.payload);
      } else if res.value.command == ResFail {
        r := Err(FileNotFound);
      } else {
        r := Err(IOFailure);
      }
    }

    method UploadFile(path: string, data: seq<byte>) returns (r: Result<()>)
      requires Valid() && UploadSendable(path, data)
      modifies output, input
      ensures Valid()
      ensures var c := UploadFileAt(input.data, old(State()), path, data); r == c.result && State() == c.link
    {
      var res := Call(PutPacket(path, data));
      if res.Err? {
        return Err(res.error);
      }
      if res.value.command != ResOk {
        return Err(IOFailure);
      }
      r := Ok(());
    }
  }

  // ---------------------------------------------------------------------
  // Properties

  /** getLong reads back what longToBytes wrote. */
  lemma BytesToLongOfLongToBytes(v: int)
    requires IsLong(v)
    ensures BytesToLong(BigEndian(v, 8)) == Ok(v)
  {
    assert BigEndian(v, 8)[..8] == BigEndian(v, 8);
    Be64RoundTrip(v);
  }

  /** The bytes after the first eight are ignored. */
  lemma BytesToLongPrefix(b: seq<byte>, rest: seq<byte>)
    requires |b| == 8
    ensures BytesToLong(b + rest) == BytesToLong(b)
  {
    assert (b + rest)[..8] == b == b[..8];
  }

  /** Each request sends exactly its one frame and reads exactly one reply
      frame: a reply that arrived whole is returned and consumed, whatever
      follows it. */
  lemma ExchangeOneReply(replies: seq<byte>, l: Link, req: Packet, reply: Packet)
    requires l.socket == Open && IsArrayLength(|req.payload|) && |reply.payload| <= MAX_PAYLOAD
    requires l.pos + |Frame(reply)| <= |replies| && replies[l.pos..l.pos + |Frame(reply)|] == Frame(reply)
    ensures Exchange(replies, l, req) == Call(Ok(reply), Link(Open, l.sent + Frame(req), l.pos + |Frame(reply)|))
  {
    ReceiveFrame(replies, l.pos, reply);
    FrameLayout(reply);
  }

  /** requestLock is true exactly for a RES_OK reply. */
  lemma RequestLockGranted(replies: seq<byte>, l: Link, path: string, mode: string)
    requires PairSendable(path, mode)
    ensures var c := RequestLockAt(replies, l, path, mode);
      var e := Exchange(replies, l, LockPacket(path, mode));
      c.link == e.link && (c.result == Ok(true) <==> e.result.Ok? && e.result.value.command == ResOk)
  {
  }
}
