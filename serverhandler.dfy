/** One server connection: receive a packet, dispatch on its command, send
    one reply, until the input ends or a handler throws.  The lock table
    and the file store are shared by all connections; a connection is
    modelled on its own, so other connections' steps are not interleaved. */
module ServerHandler {
  import opened Bytes
  import opened Failures
  import opened Commands
  import opened Packets
  import opened Streams
  import opened SocketIO
  import opened Payloads
  import opened LockInfo
  import opened Locks
  import opened Paths
  import opened Stores
  import opened ServerFiles

  /** What the handlers change: the lock table and the stored files. */
  datatype ServerState = ServerState(locks: Table, files: Store)

  /** One handler's effect: the reply it sends, or the exception that
      escapes it (and ends the connection), and the state it leaves. */
  datatype Handled = Handled(reply: Result<Packet>, state: ServerState)

  /** The reply is sent only when the handler completes. */
  function Sent(h: Handled): seq<byte>
    requires h.reply.Ok? ==> IsArrayLength(|h.reply.value.payload|)
  {
    if h.reply.Ok? then Frame(h.reply.value) else []
  }

  /** Whether the handler completed, as a method reports it. */
  function Completed(h: Handled): Result<()> {
    if h.reply.Ok? then Ok(()) else Err(h.reply.error)
  }

  const OK_REPLY: Packet := Packet(ResOk, [])
  const FAIL_REPLY: Packet := Packet(ResFail, [])

  /** handleLockReq: the reply is RES_OK whether or not lock granted the
      lock; an unparsable payload or an unknown mode escapes. */
  function OnLockReq(st: ServerState, packet: Packet): Handled {
    match ParseLockReqPayload(packet.payload)
    case Err(e) => Handled(Err(e), st)
    case Ok(d) =>
      var o := LockSpec(st.locks, d.path, d.mode);
      Handled(if o.result.Err? then Err(o.result.error) else Ok(OK_REPLY), st.(locks := o.table))
  }

  /** handleGetMeta: META_RES with the eight-byte time (-1 for a missing
      file), RES_FAIL when getLastModified throws an IOException. */
  function OnGetMeta(root: Path, st: ServerState, packet: Packet): Handled {
    match ParseStringPayload(packet.payload)
    case Err(e) => Handled(Err(e), st)
    case Ok(path) =>
      match LastModifiedIn(root, st.files, path)
      case Ok(t) => Handled(Ok(Packet(MetaRes, BigEndian(t, 8))), st)
      case Err(e) => Handled(if e.IsIOException() then Ok(FAIL_REPLY) else Err(e), st)
  }

  /** handleGetFile: FILE_RES with the whole content, RES_FAIL when readFile
      throws an IOException (a missing file or an invalid path). */
  function OnGetFile(root: Path, st: ServerState, packet: Packet): Handled {
    match ParseStringPayload(packet.payload)
    case Err(e) => Handled(Err(e), st)
    case Ok(path) =>
      match ReadFileIn(root, st.files, path)
      case Ok(data) => Handled(Ok(Packet(FileRes, data)), st)
      case Err(e) => Handled(if e.IsIOException() then Ok(FAIL_REPLY) else Err(e), st)
  }

  /** handlePutFile: parsing and writing both sit inside the try, so any
      IOException gives RES_FAIL.  No lock is checked. */
  function OnPutFile(root: Path, st: ServerState, packet: Packet, now: int): (h: Handled)
    ensures ValidStore(st.files) ==> ValidStore(h.state.files)
  {
    match ParsePutFilePayload(packet.payload)
    case Err(e) => Handled(if e.IsIOException() then Ok(FAIL_REPLY) else Err(e), st)
    case Ok(d) =>
      WriteKeepsValid(root, st.files, d.path, d.content, now);
      var w := WriteFileIn(root, st.files, d.path, d.content, now);
      if w.result.Ok? then Handled(Ok(OK_REPLY), st.(files := w.store))
      else Handled(if w.result.error.IsIOException() then Ok(FAIL_REPLY) else Err(w.result.error), st)
  }

  /** handleUnlock: always RES_OK once the payload parses. */
  function OnUnlock(st: ServerState, packet: Packet): Handled {
    match ParseUnlockPayload(packet.payload)
    case Err(e) => Handled(Err(e), st)
    case Ok(d) => Handled(Ok(OK_REPLY), st.(locks := UnlockSpec(st.locks, d.path, d.mode)))
  }

  /** The dispatch switch of run: a reply-type command gets RES_FAIL. */
  function Handle(root: Path, st: ServerState, packet: Packet, now: int): (h: Handled)
    requires ValidStore(st.files)
    ensures h.reply.Ok? ==> IsArrayLength(|h.reply.value.payload|)
    ensures ValidStore(h.state.files)
  {
    match packet.command
    case LockReq => OnLockReq(st, packet)
    case GetMeta => OnGetMeta(root, st, packet)
    case GetFile => OnGetFile(root, st, packet)
    case PutFile => OnPutFile(root, st, packet, now)
    case Unlock => OnUnlock(st, packet)
    case _ => Handled(Ok(FAIL_REPLY), st)
  }

  /** One pass of run's loop: the reply sent, the state left, where the
      input stands, and the exception that ends the loop, if any. */
  datatype Turn = Turn(sent: seq<byte>, state: ServerState, next: nat, stop: Option<Error>)

  function TurnAt(root: Path, st: ServerState, data: seq<byte>, pos: nat, now: int): (t: Turn)
    requires ValidStore(st.files)
    ensures ValidStore(t.state.files)
    ensures t.stop.None? ==> pos < t.next <= |data|
  {
    var r := ReceiveAt(data, pos);
    if r.result.Err? then Turn([], st, r.next, Some(r.result.error))
    else
      ReceiveBounds(data, pos);
      var h := Handle(root, st, r.result.value, now);
      if h.reply.Err? then Turn([], h.state, r.next, Some(h.reply.error))
      else Turn(Frame(h.reply.value), h.state, r.next, None)
  }

  /** What a whole connection does: the bytes it sends, the state it
      leaves, and the exception that ended it (an EOFException when the
      client closes cleanly).  `clock(k)` is the time of the k-th request. */
  datatype Session = Session(output: seq<byte>, state: ServerState, end: Error)

  function Serve(root: Path, st: ServerState, data: seq<byte>, pos: nat, k: nat, clock: nat -> int): Session
    requires ValidStore(st.files)
    decreases |data| - pos
  {
    var t := TurnAt(root, st, data, pos, clock(k));
    if t.stop.Some? then Session(t.sent, t.state, t.stop.value)
    else
      var rest := Serve(root, t.state, data, t.next, k + 1, clock);
      Session(t.sent + rest.output, rest.state, rest.end)
  }

  /** A session is its first turn followed by the rest. */
  lemma ServeTurn(root: Path, st: ServerState, data: seq<byte>, pos: nat, k: nat, clock: nat -> int,
                  sent: seq<byte>, whole: Session)
    requires ValidStore(st.files)
    requires var rest := Serve(root, st, data, pos, k, clock);
      whole == Session(sent + rest.output, rest.state, rest.end)
    ensures var t := TurnAt(root, st, data, pos, clock(k));
      (t.stop.Some? ==> whole == Session(sent + t.sent, t.state, t.stop.value)) &&
      (t.stop.None? ==> var rest := Serve(root, t.state, data, t.next, k + 1, clock);
         whole == Session((sent + t.sent) + rest.output, rest.state, rest.end))
  {
    var t := TurnAt(root, st, data, pos, clock(k));
    if t.stop.None? {
      var rest := Serve(root, t.state, data, t.next, k + 1, clock);
      assert sent + (t.sent + rest.output) == (sent + t.sent) + rest.output;
    }
  }

  // ---------------------------------------------------------------------
  // longToBytes

  /** longToBytes: fills the array from the last byte backwards, shifting
      the value right by eight bits each time. */
  method LongToBytes(value: int) returns (buf: seq<byte>)
    ensures buf == BigEndian(value, 8)
  {
    var a := new byte[8];
    var v := value;
    var i := 7;
    while i >= 0
      invariant -1 <= i <= 7
      invariant BigEndian(value, 8) == BigEndian(v, i + 1) + a[i + 1..]
    {
      ghost var tail := a[i + 1..];
      a[i] := (v % 256) as byte;
      assert a[i..] == [(v % 256) as byte] + tail;
      v := v / 256;
      i := i - 1;
    }
    buf := a[..];
  }

  /** Byte i of longToBytes(v) is (v >> 8 * (7 - i)) & 0xff. */
  lemma LongToBytesLayout(v: int, i: nat)
    requires i < 8
    ensures BigEndian(v, 8)[i] as int == (v / Pow256(7 - i)) % 256
  {
    BigEndianByte(v, 8, i);
  }

  // ---------------------------------------------------------------------
  // The connection as an object

  class ClientHandler {
    const lockManager: LockManager
    const fileManager: FileManager
    const input: ByteInput
    const output: ByteOutput
    var socketOpen: bool

    ghost predicate Valid()
      reads this, lockManager, lockManager.Repr, fileManager, input
    {
      lockManager.Valid() && input.Valid() && ValidStore(fileManager.files)
    }

    /** The shared state as a value. */
    ghost function State(): ServerState
      reads this, lockManager, fileManager
    {
      ServerState(lockManager.table, fileManager.files)
    }

    constructor (locks: LockManager, files: FileManager, inp: ByteInput, out: ByteOutput)
      ensures lockManager == locks && fileManager == files && input == inp && output == out
      ensures socketOpen
    {
      lockManager := locks;
      fileManager := files;
      input := inp;
      output := out;
      socketOpen := true;
    }

    method HandleLockReq(packet: Packet) returns (r: Result<()>)
      requires Valid()
      modifies lockManager, lockManager.Repr, output
      ensures Valid()
      ensures fresh(lockManager.Repr - old(lockManager.Repr))
      ensures var h := OnLockReq(old(State()), packet);
        r == Completed(h) && State() == h.state && output.written == old(output.written) + Sent(h)
    {
      var data := ParseLockReqPayload(packet.payload);
      if data.Err? {
        return Err(data.error);
      }
      var granted := lockManager.Lock(data.value.path, data.value.mode);
      if granted.Err? {
        return Err(granted.error);
      }
      Send(output, OK_REPLY);
      r := Ok(());
    }

    method HandleGetMeta(packet: Packet) returns (r: Result<()>)
      requires Valid()
      modifies output
      ensures ValidStore(fileManager.files)
      ensures var h := OnGetMeta(fileManager.rootDir, old(State()), packet);
        r == Completed(h) && output.written == old(output.written) + Sent(h)
    {
      var path := ParseStringPayload(packet.payload);
      if path.Err? {
        return Err(path.error);
      }
      var lastModified := fileManager.GetLastModified(path.value);
      if lastModified.Err? {
        if lastModified.error.IsIOException() {
          Send(output, FAIL_REPLY);
          return Ok(());
        }
        return Err(lastModified.error);
      }
      var payload := LongToBytes(lastModified.value);
      Send(output, Packet(MetaRes, payload));
      r := Ok(());
    }

    method HandleGetFile(packet: Packet) returns (r: Result<()>)
      requires Valid()
      modifies output
      ensures var h := OnGetFile(fileManager.rootDir, old(State()), packet);
        r == Completed(h) && output.written == old(output.written) + Sent(h)
    {
      var path := ParseStringPayload(packet.payload);
      if path.Err? {
        return Err(path.error);
      }
      var data := fileManager.ReadFile(path.value);
      if data.Err? {
        if data.error.IsIOException() {
          Send(output, FAIL_REPLY);
          return Ok(());
        }
        return Err(data.error);
      }
      Send(output, Packet(FileRes, data.value));
      r := Ok(());
    }

    method HandlePutFile(packet: Packet, now: int) returns (r: Result<()>)
      requires Valid()
      modifies fileManager, output
      ensures ValidStore(fileManager.files)
      ensures var h := OnPutFile(fileManager.rootDir, old(State()), packet, now);
        r == Completed(h) && fileManager.files == h.state.files
        && output.written == old(output.written) + Sent(h)
    {
      var data := ParsePutFilePayload(packet.payload);
      if data.Err? {
        Send(output, FAIL_REPLY);
        return Ok(());
      }
      var written := fileManager.WriteFile(data.value.path, data.value.content, now);
      if written.Err? {
        if written.error.IsIOException() {
          Send(output, FAIL_REPLY);
          return Ok(());
        }
        return Err(written.error);
      }
      ghost var st := old(State());
      WriteKeepsValid(fileManager.rootDir, st.files, data.value.path, data.value.content, now);
      Send(output, OK_REPLY);
      r := Ok(());
    }

    method HandleUnlock(packet: Packet) returns (r: Result<()>)
      requires Valid()
      modifies lockManager, lockManager.Repr, output
      ensures Valid()
      ensures lockManager.Repr == old(lockManager.Repr)
      ensures var h := OnUnlock(old(State()), packet);
        r == Completed(h) && State() == h.state && output.written == old(output.written) + Sent(h)
    {
      var data := ParseUnlockPayload(packet.payload);
      if data.Err? {
        return Err(data.error);
      }
      lockManager.Unlock(data.value.path, data.value.mode);
      Send(output, OK_REPLY);
      r := Ok(());
    }

    /** The switch in run. */
    method Dispatch(packet: Packet, now: int) returns (r: Result<()>)
      requires Valid()
      modifies lockManager, lockManager.Repr, fileManager, output
      ensures Valid()
      ensures fresh(lockManager.Repr - old(lockManager.Repr))
      ensures var h := Handle(fileManager.rootDir, old(State()), packet, now);
        r == Completed(h) && State() == h.state && output.written == old(output.written) + Sent(h)
    {
      match packet.command {
        case LockReq => r := HandleLockReq(packet);
        case GetMeta => r := HandleGetMeta(packet);
        case GetFile => r := HandleGetFile(packet);
        case PutFile => r := HandlePutFile(packet, now);
        case Unlock => r := HandleUnlock(packet);
        case _ =>
          Send(output, FAIL_REPLY);
          r := Ok(());
      }
    }

    /** One pass of run's loop: receive a packet and dispatch it. */
    method Exchange(now: int) returns (stop: Option<Error>, ghost t: Turn)
      requires Valid()
      modifies lockManager, lockManager.Repr, fileManager, input, output
      ensures Valid()
      ensures fresh(lockManager.Repr - old(lockManager.Repr))
      ensures t == TurnAt(fileManager.rootDir, old(State()), input.data, old(input.pos), now)
      ensures stop == t.stop && State() == t.state && input.pos == t.next
        && output.written == old(output.written) + t.sent
    {
      ghost var before := State();
      ghost var pos := input.pos;
      t := TurnAt(fileManager.rootDir, before, input.data, pos, now);
      var packet := Receive(input);
      if packet.Err? {
        assert State() == before;
        stop := Some(packet.error);
        return;
      }
      ReceiveBounds(input.data, pos);
      assert State() == before;
      var handled := Dispatch(packet.value, now);
      if handled.Err? {
        stop := Some(handled.error);
        return;
      }
      stop := None;
    }

    /** run's receive/dispatch loop, until an exception escapes. */
    method Loop(clock: nat -> int) returns (end: Error)
      requires Valid()
      modifies lockManager, lockManager.Repr, fileManager, input, output
      ensures Valid()
      ensures var s := Serve(fileManager.rootDir, old(State()), input.data, old(input.pos), 0, clock);
        output.written == old(output.written) + s.output && State() == s.state && end == s.end
    {
      ghost var root := fileManager.rootDir;
      ghost var whole := Serve(root, State(), input.data, input.pos, 0, clock);
      ghost var sent: seq<byte> := [];
      var k: nat := 0;
      while true
        invariant Valid()
        invariant fresh(lockManager.Repr - old(lockManager.Repr))
        invariant output.written == old(output.written) + sent
        invariant var rest := Serve(root, State(), input.data, input.pos, k, clock);
          whole == Session(sent + rest.output, rest.state, rest.end)
        decreases |input.data| - input.pos
      {
        ServeTurn(root, State(), input.data, input.pos, k, clock, sent, whole);
        var stop, t := Exchange(clock(k));
        AppendAssoc(old(output.written), sent, t.sent);
        if stop.Some? {
          end := stop.value;
          break;
        }
        sent := sent + t.sent;
        k := k + 1;
      }
    }

    /** run: the loop, then the socket is closed however the loop ended. */
    method Run(clock: nat -> int) returns (end: Error)
      requires Valid()
      modifies this, lockManager, lockManager.Repr, fileManager, input, output
      ensures Valid() && !socketOpen
      ensures var s := Serve(fileManager.rootDir, old(State()), input.data, old(input.pos), 0, clock);
        output.written == old(output.written) + s.output && State() == s.state && end == s.end
    {
      end := Loop(clock);
      socketOpen := false;
    }
  }
}
