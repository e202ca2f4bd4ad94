/** What a server connection promises its client, stated over the handler
    and session functions of ServerHandler. */
module ServerProperties {
  import opened Bytes
  import opened Failures
  import opened Commands
  import opened Packets
  import opened SocketIO
  import opened Payloads
  import opened Utf8
  import opened LockInfo
  import opened Locks
  import opened Paths
  import opened Stores
  import opened ServerHandler

  // ---------------------------------------------------------------------
  // One request

  /** LOCK_REQ with a known mode replies RES_OK whether or not lock
      granted it, and leaves the table lock leaves; an unknown mode
      escapes as IllegalArgumentException.  The files do not change. */
  lemma LockReqReply(root: Path, st: ServerState, packet: Packet, now: int)
    requires ValidStore(st.files) && packet.command == LockReq
    requires ParseLockReqPayload(packet.payload).Ok?
    ensures var d := ParseLockReqPayload(packet.payload).value;
      var h := Handle(root, st, packet, now);
      h.state == ServerState(LockSpec(st.locks, d.path, d.mode).table, st.files) &&
      (IsReadMode(d.mode) || IsWriteMode(d.mode) <==> h.reply == Ok(OK_REPLY)) &&
      (!IsReadMode(d.mode) && !IsWriteMode(d.mode) <==> h.reply == Err(IllegalArgument))
  {
  }

  /** So RES_OK does not mean the lock is held: a second writer on a path
      already held for writing is told RES_OK, and nothing changes. */
  lemma RefusedWriterToldOk(root: Path, st: ServerState, path: string, now: int)
    requires ValidStore(st.files) && Encodable(path) && |Encode(path)| <= MAX_STRING
    requires path in st.locks && st.locks[path].writer
    ensures var packet := Packet(LockReq, BuildLockReqPayload(path, "wo"));
      var h := Handle(root, st, packet, now);
      h.reply == Ok(OK_REPLY) && h.state == st
  {
    EncodeAscii("wo");
    LockReqRoundTrip(path, "wo", []);
    assert BuildLockReqPayload(path, "wo") + [] == BuildLockReqPayload(path, "wo");
    assert st.locks[path := st.locks[path]] == st.locks;
  }

  /** GET_META replies META_RES with the eight big-endian bytes of the
      time (-1 for a missing file), RES_FAIL for a path outside the root,
      and lets the IllegalArgumentException of a NUL in the path escape.
      Nothing changes. */
  lemma GetMetaReply(root: Path, st: ServerState, packet: Packet, now: int)
    requires ValidStore(st.files) && packet.command == GetMeta
    requires ParseStringPayload(packet.payload).Ok?
    ensures var path := ParseStringPayload(packet.payload).value;
      var h := Handle(root, st, packet, now);
      h.state == st &&
      (ResolveUnder(root, path).Ok? ==>
         var p := ResolveUnder(root, path).value;
         h.reply == Ok(Packet(MetaRes, BigEndian(if p in st.files then st.files[p].mtime else -1, 8)))) &&
      (ResolveUnder(root, path).Err? && '\0' !in path ==> h.reply == Ok(FAIL_REPLY)) &&
      ('\0' in path ==> h.reply == Err(IllegalArgument))
  {
  }

  /** GET_FILE replies FILE_RES with the whole stored content, RES_FAIL for
      a missing file or a path outside the root.  Nothing changes. */
  lemma GetFileReply(root: Path, st: ServerState, packet: Packet, now: int)
    requires ValidStore(st.files) && packet.command == GetFile
    requires ParseStringPayload(packet.payload).Ok?
    ensures var path := ParseStringPayload(packet.payload).value;
      var h := Handle(root, st, packet, now);
      var p := ResolveUnder(root, path);
      h.state == st &&
      (p.Ok? && p.value in st.files ==> h.reply == Ok(Packet(FileRes, st.files[p.value].content))) &&
      ((p.Ok? && p.value !in st.files) || (p.Err? && '\0' !in path) ==> h.reply == Ok(FAIL_REPLY)) &&
      ('\0' in path ==> h.reply == Err(IllegalArgument))
  {
  }

  /** PUT_FILE checks no lock: the table never changes.  A payload that
      parses and names a file under the root is written and answered with
      RES_OK; a malformed payload or a path outside the root gets RES_FAIL
      and changes nothing. */
  lemma PutFileReply(root: Path, st: ServerState, packet: Packet, now: int)
    requires ValidStore(st.files) && packet.command == PutFile
    ensures var h := Handle(root, st, packet, now);
      var d := ParsePutFilePayload(packet.payload);
      h.state.locks == st.locks &&
      (d.Err? ==> h == Handled(Ok(FAIL_REPLY), st)) &&
      (d.Ok? && ResolveUnder(root, d.value.path).Ok? ==>
         h == Handled(Ok(OK_REPLY), st.(files := WriteFileIn(root, st.files, d.value.path, d.value.content, now).store))) &&
      (d.Ok? && ResolveUnder(root, d.value.path).Err? && '\0' !in d.value.path ==>
         h == Handled(Ok(FAIL_REPLY), st))
  {
  }

  /** UNLOCK always replies RES_OK once its payload parses, and leaves the
      table unlock leaves. */
  lemma UnlockReply(root: Path, st: ServerState, packet: Packet, now: int)
    requires ValidStore(st.files) && packet.command == Unlock
    requires ParseUnlockPayload(packet.payload).Ok?
    ensures var d := ParseUnlockPayload(packet.payload).value;
      Handle(root, st, packet, now) ==
        Handled(Ok(OK_REPLY), st.(locks := UnlockSpec(st.locks, d.path, d.mode)))
  {
  }

  /** A reply command sent as a request gets RES_FAIL and changes nothing. */
  lemma ReplyCommandRefused(root: Path, st: ServerState, packet: Packet, now: int)
    requires ValidStore(st.files) && !IsRequest(packet.command)
    ensures Handle(root, st, packet, now) == Handled(Ok(FAIL_REPLY), st)
  {
  }

  /** An unparsable LOCK_REQ, GET_META, GET_FILE or UNLOCK payload is not
      caught by its handler: the exception escapes, nothing is sent and
      nothing changes.  PUT_FILE instead answers RES_FAIL. */
  lemma ParseFailureEscapes(root: Path, st: ServerState, packet: Packet, now: int)
    requires ValidStore(st.files)
    requires (packet.command == LockReq && ParseLockReqPayload(packet.payload).Err?) ||
             (packet.command == Unlock && ParseUnlockPayload(packet.payload).Err?) ||
             ((packet.command == GetMeta || packet.command == GetFile) && ParseStringPayload(packet.payload).Err?)
    ensures var h := Handle(root, st, packet, now);
      h.reply.Err? && h.reply.error.IsIOException() && h.state == st
  {
  }

  /** Every handler keeps each lock record exclusive (no writer beside a
      reader).  */
  lemma HandleKeepsExclusive(root: Path, st: ServerState, packet: Packet, now: int)
    requires ValidStore(st.files) && AllExclusive(st.locks)
    ensures AllExclusive(Handle(root, st, packet, now).state.locks)
  {
    match packet.command
    case LockReq =>
      var d := ParseLockReqPayload(packet.payload);
      if d.Ok? {
        LockKeepsExclusive(st.locks, d.value.path, d.value.mode);
      }
    case Unlock =>
      var d := ParseUnlockPayload(packet.payload);
      if d.Ok? {
        UnlockKeepsExclusive(st.locks, d.value.path, d.value.mode);
      }
    case _ =>
  }

  /** Only LOCK_REQ and UNLOCK touch the lock table, and only PUT_FILE
      touches the files. */
  lemma HandleTouches(root: Path, st: ServerState, packet: Packet, now: int)
    requires ValidStore(st.files)
    ensures var h := Handle(root, st, packet, now);
      (packet.command != LockReq && packet.command != Unlock ==> h.state.locks == st.locks) &&
      (packet.command != PutFile ==> h.state.files == st.files)
  {
  }

  // ---------------------------------------------------------------------
  // A connection

  /** A frame the client sent is received whole and handled: the turn
      sends the handler's reply, or stops with the handler's exception. */
  lemma TurnOnFrame(root: Path, st: ServerState, p: Packet, rest: seq<byte>, now: int)
    requires ValidStore(st.files) && |p.payload| <= MAX_PAYLOAD
    ensures var t := TurnAt(root, st, Frame(p) + rest, 0, now);
      var h := Handle(root, st, p, now);
      t.state == h.state && t.next == 8 + |p.payload| &&
      (h.reply.Ok? ==> t.sent == Frame(h.reply.value) && t.stop.None?) &&
      (h.reply.Err? ==> t.sent == [] && t.stop == Some(h.reply.error))
  {
    ReceiveSent(p, rest);
    FrameLayout(p);
  }

  /** A connection whose client sends nothing more ends at once with an
      EOFException, sending nothing and changing nothing. */
  lemma ServeAtEnd(root: Path, st: ServerState, data: seq<byte>, k: nat, clock: nat -> int)
    requires ValidStore(st.files)
    ensures Serve(root, st, data, |data|, k, clock) == Session([], st, EOF)
  {
    ReceiveBounds(data, |data|);
  }

  /** Every session keeps each lock record exclusive. */
  lemma {:induction false} ServeKeepsExclusive(root: Path, st: ServerState, data: seq<byte>, pos: nat,
                                               k: nat, clock: nat -> int)
    requires ValidStore(st.files) && AllExclusive(st.locks)
    ensures AllExclusive(Serve(root, st, data, pos, k, clock).state.locks)
    decreases |data| - pos
  {
    var r := ReceiveAt(data, pos);
    if r.result.Ok? {
      ReceiveBounds(data, pos);
      HandleKeepsExclusive(root, st, r.result.value, clock(k));
    }
    var t := TurnAt(root, st, data, pos, clock(k));
    if t.stop.None? {
      ServeKeepsExclusive(root, t.state, data, t.next, k + 1, clock);
    }
  }

  /** A written file is served back: PUT_FILE then GET_FILE of the same
      path under the root replies RES_OK, then FILE_RES with exactly the
      uploaded content. */
  lemma UploadThenDownload(root: Path, st: ServerState, path: string, content: seq<byte>, t1: int, t2: int)
    requires ValidStore(st.files) && Encodable(path) && |Encode(path)| <= MAX_STRING
    requires |content| <= MAX_CONTENT && ResolveUnder(root, path).Ok?
    ensures var put := Handle(root, st, Packet(PutFile, BuildPutFilePayload(path, content)), t1);
      put.reply == Ok(OK_REPLY) &&
      Handle(root, put.state, Packet(GetFile, BuildStringPayload(path)), t2).reply == Ok(Packet(FileRes, content))
  {
    PutFileRoundTrip(path, content, []);
    assert BuildPutFilePayload(path, content) + [] == BuildPutFilePayload(path, content);
    StringRoundTrip(path, []);
    assert BuildStringPayload(path) + [] == BuildStringPayload(path);
    var put := Handle(root, st, Packet(PutFile, BuildPutFilePayload(path, content)), t1);
    ReadAfterWrite(root, st.files, path, content, t1, path);
  }
}
