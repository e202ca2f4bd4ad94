/** The server of the line-based version: Server's repository root and
    safeResolve, and the connection handler (the root ClientHandler), which
    reads commands line by line, keeps the paths this connection locked,
    and releases them all when the connection ends. */
module LineServer {
  import opened Bytes
  import opened Failures
  import opened Utf8
  import opened Paths
  import opened Streams
  import opened LineText
  import opened RwLocks

  // ---------------------------------------------------------------------
  // Server

  /** The constructor's repoRoot: Paths.get(dir), made absolute against
      the working directory and normalized.  A NUL in `dir` is an
      InvalidPathException. */
  function RepoRootOf(dir: string, cwd: Path): (r: Result<Path>)
    requires cwd.absolute
    ensures r.Ok? ==> r.value.absolute && IsNormal(r.value)
    ensures r.Err? <==> '\0' in dir
  {
    var p :- Parse(dir);
    NormalizeIsNormal(ToAbsolute(p, cwd));
    Ok(Normalize(ToAbsolute(p, cwd)))
  }

  /** safeResolve: one leading '/' is dropped, then the path is resolved
      against the root, normalized, and accepted only under the root. */
  function SafeResolve(root: Path, raw: string): (r: Result<Path>)
    ensures r.Ok? ==> StartsWith(r.value, root) && IsNormal(r.value)
    ensures r.Err? ==> r.error == (if '\0' in raw then IllegalArgument else IOFailure)
  {
    var rel := if |raw| > 0 && raw[0] == '/' then raw[1..] else raw;
    assert '\0' in raw <==> '\0' in rel by {
      if |raw| > 0 && raw[0] == '/' {
        assert raw == [raw[0]] + rel;
      }
    }
    ResolveUnder(root, rel)
  }

  /** The message of safeResolve's IOException. */
  const TRAVERSAL: string := "Path traversal blocked"

  // ---------------------------------------------------------------------
  // A connection, as values

  /** The files under the repository root. */
  type Repo = map<Path, seq<byte>>

  /** What a connection's handling changes: the shared locks and files,
      and the paths this connection recorded as read- and write-locked. */
  datatype Conn = Conn(locks: LockTable, files: Repo, readLocks: set<string>, writeLocks: set<string>)

  /** How a connection's loop ends: the client went away (readLine gave
      null), the thread waits for a lock another connection holds, or an
      exception that is not an IOException escaped. */
  datatype End = Disconnected | Blocked | Thrown(error: Error)

  /** One command: the bytes sent, the new state, where reading resumes,
      and whether the loop ends. */
  datatype Turn = Turn(sent: seq<Chunk>, conn: Conn, next: nat, stop: Option<End>)

  const OK_LINE: seq<Chunk> := [TextLine("OK")]

  /** writeErr. */
  function ErrReply(msg: string): seq<Chunk> {
    [TextLine("ERR"), TextLine(msg)]
  }

  /** The reply to a successful OPEN: "OK", the length, the bytes. */
  function OpenReply(data: seq<byte>): seq<Chunk> {
    [TextLine("OK"), TextLine(Decimal(|data|)), Data(data)]
  }

  /** The paths of the connection are held by its thread. */
  ghost predicate HeldBy(c: Conn, owner: Owner) {
    (forall p | p in c.readLocks :: owner in LockOf(c.locks, p).readers) &&
    (forall p | p in c.writeLocks :: LockOf(c.locks, p).writer == Some(owner))
  }

  /** Two lines read one after the other, as handleOpen and
      handleWriteback read their fields. */
  datatype Fields = Fields(first: Option<seq<byte>>, second: Option<seq<byte>>, next: nat)

  function TwoLines(data: seq<byte>, pos: nat): (f: Fields)
    requires pos <= |data|
    ensures pos <= f.next <= |data|
  {
    var a := LineAt(data, pos);
    var b := LineAt(data, a.next);
    Fields(a.bytes, b.bytes, b.next)
  }

  /** The lock part of OPEN, once mode and path passed: the lock is
      created if needed, then taken, and the path recorded. */
  function OpenLock(c: Conn, owner: Owner, pathStr: string, readOnly: bool): (r: Option<Conn>)
    ensures r.Some? ==> r.value.files == c.files
  {
    var k := LockOf(c.locks, pathStr);
    if readOnly then
      var g := GrantRead(k, owner);
      if g.None? then None else Some(c.(locks := c.locks[pathStr := g.value], readLocks := c.readLocks + {pathStr}))
    else
      var g := GrantWrite(k, owner);
      if g.None? then None else Some(c.(locks := c.locks[pathStr := g.value], writeLocks := c.writeLocks + {pathStr}))
  }

  /** OPEN of a path under the root: the lock, then the file's bytes; a
      missing file is an error only in mode "ro", and the lock stays. */
  function OpenResolved(owner: Owner, c: Conn, readOnly: bool, pathStr: string, file: Path, next: nat): (t: Turn)
    ensures t.next == next
  {
    match OpenLock(c, owner, pathStr, readOnly)
    case None => Turn([], c.(locks := c.locks[pathStr := LockOf(c.locks, pathStr)]), next, Some(Blocked))
    case Some(c2) =>
      if file in c.files then Turn(OpenReply(c.files[file]), c2, next, None)
      else if readOnly then Turn(ErrReply("ENOENT"), c2, next, None)
      else Turn(OpenReply([]), c2, next, None)
  }

  /** OPEN once both lines arrived: the mode is trimmed and lower-cased
      and must be one of the three; the path must resolve under the root. */
  function OpenFields(root: Path, owner: Owner, c: Conn, modeText: string, pathStr: string, next: nat): (t: Turn)
    ensures t.next == next
  {
    var mode := ToLower(Trim(modeText));
    if !IsMode(mode) then Turn(ErrReply("MODE"), c, next, None)
    else
      match SafeResolve(root, pathStr)
      case Err(e) =>
        if e.IsIOException() then Turn(ErrReply(TRAVERSAL), c, next, None)
        else Turn([], c, next, Some(Thrown(e)))
      case Ok(file) => OpenResolved(owner, c, mode == "ro", pathStr, file, next)
  }

  /** handleOpen. */
  function OnOpen(root: Path, owner: Owner, c: Conn, data: seq<byte>, pos: nat): (t: Turn)
    requires pos <= |data|
    ensures pos <= t.next <= |data|
  {
    var f := TwoLines(data, pos);
    if f.first.None? || f.second.None? then Turn(ErrReply("Protocol: OPEN missing fields"), c, f.next, None)
    else OpenFields(root, owner, c, Decode(f.first.value), Decode(f.second.value), f.next)
  }

  /** How many bytes readNBytes(len) takes at `pos`: `len`, or what is
      left. */
  function Available(data: seq<byte>, pos: nat, len: nat): (k: nat)
    requires pos <= |data|
    ensures pos + k <= |data| && k <= len
  {
    if pos + len <= |data| then len else |data| - pos
  }

  /** WRITEBACK once the length parsed: the path must be write-locked by
      this connection and lie under the root; the body is then read, and
      a body cut short by the end of the stream is written as it is. */
  function WritebackLocked(root: Path, c: Conn, pathStr: string, len: int, data: seq<byte>, next: nat): (t: Turn)
    requires next <= |data|
    ensures next <= t.next <= |data|
    ensures t.conn.locks == c.locks && t.conn.readLocks == c.readLocks && t.conn.writeLocks == c.writeLocks
    ensures t.stop.Some? ==> t.stop.value == Thrown(IllegalArgument)
  {
    if pathStr !in c.writeLocks then Turn(ErrReply("WRITEBACK without write lock"), c, next, None)
    else
      match SafeResolve(root, pathStr)
      case Err(e) =>
        if e.IsIOException() then Turn(ErrReply(TRAVERSAL), c, next, None)
        else Turn([], c, next, Some(Thrown(e)))
      case Ok(file) =>
        if len < 0 then Turn([], c, next, Some(Thrown(IllegalArgument)))
        else
          var k := Available(data, next, len);
          Turn(OK_LINE, c.(files := c.files[file := data[next..next + k]]), next + k, None)
  }

  /** handleWriteback: the path and the length, trimmed, then the rest. */
  function OnWriteback(root: Path, c: Conn, data: seq<byte>, pos: nat): (t: Turn)
    requires pos <= |data|
    ensures pos <= t.next <= |data|
    ensures t.conn.locks == c.locks && t.conn.readLocks == c.readLocks && t.conn.writeLocks == c.writeLocks
    ensures t.stop.Some? ==> t.stop.value == Thrown(IllegalArgument)
  {
    var f := TwoLines(data, pos);
    if f.first.None? || f.second.None? then Turn(ErrReply("Protocol: WRITEBACK missing fields"), c, f.next, None)
    else
      match ParseInt(Trim(Decode(f.second.value)))
      case Err(_) => Turn(ErrReply("Bad length"), c, f.next, None)
      case Ok(len) => WritebackLocked(root, c, Decode(f.first.value), len, data, f.next)
  }

  /** One release of handleClose or of the final cleanup: the lock is
      created if needed, then released; an IllegalMonitorStateException
      leaves the created lock in place. */
  datatype Released = Released(locks: LockTable, error: Option<Error>)

  function ReleaseWriteIn(t: LockTable, path: string, owner: Owner): Released {
    var k := LockOf(t, path);
    match DropWrite(k, owner)
    case Ok(k2) => Released(t[path := k2], None)
    case Err(e) => Released(t[path := k], Some(e))
  }

  function ReleaseReadIn(t: LockTable, path: string, owner: Owner): Released {
    var k := LockOf(t, path);
    match DropRead(k, owner)
    case Ok(k2) => Released(t[path := k2], None)
    case Err(e) => Released(t[path := k], Some(e))
  }

  /** The read half of CLOSE, after the write half. */
  function CloseRead(owner: Owner, c: Conn, s: string, next: nat): (t: Turn)
    ensures t.next == next && t.conn.files == c.files
  {
    var r := if s in c.readLocks then ReleaseReadIn(c.locks, s, owner) else Released(c.locks, None);
    var c2 := c.(locks := r.locks, readLocks := c.readLocks - {s});
    if r.error.Some? then Turn([], c2, next, Some(Thrown(r.error.value)))
    else Turn(OK_LINE, c2, next, None)
  }

  /** CLOSE of a path: it leaves whichever sets hold it, each removal
      releasing that lock, and the reply is OK even when nothing was held. */
  function CloseFields(owner: Owner, c: Conn, s: string, next: nat): (t: Turn)
    ensures t.next == next && t.conn.files == c.files
  {
    var w := if s in c.writeLocks then ReleaseWriteIn(c.locks, s, owner) else Released(c.locks, None);
    var c1 := c.(locks := w.locks, writeLocks := c.writeLocks - {s});
    if w.error.Some? then Turn([], c1, next, Some(Thrown(w.error.value)))
    else CloseRead(owner, c1, s, next)
  }

  /** handleClose. */
  function OnClose(owner: Owner, c: Conn, data: seq<byte>, pos: nat): (t: Turn)
    requires pos <= |data|
    ensures pos <= t.next <= |data|
    ensures t.conn.files == c.files
  {
    var pl := LineAt(data, pos);
    if pl.bytes.None? then Turn(ErrReply("Protocol: CLOSE missing path"), c, pl.next, None)
    else CloseFields(owner, c, Decode(pl.bytes.value), pl.next)
  }

  /** One pass of run's loop: a command line, then its handler. */
  function TurnAt(root: Path, owner: Owner, c: Conn, data: seq<byte>, pos: nat): (t: Turn)
    requires pos <= |data|
    ensures pos <= t.next <= |data|
    ensures t.stop.None? ==> pos < t.next
  {
    var cmd := LineAt(data, pos);
    if cmd.bytes.None? then Turn([], c, pos, Some(Disconnected))
    else
      var name := Decode(cmd.bytes.value);
      if name == "OPEN" then OnOpen(root, owner, c, data, cmd.next)
      else if name == "WRITEBACK" then OnWriteback(root, c, data, cmd.next)
      else if name == "CLOSE" then OnClose(owner, c, data, cmd.next)
      else Turn(ErrReply("Unknown cmd: " + name), c, cmd.next, None)
  }

  /** run's loop: every reply sent, the state, how it ended. */
  datatype Session = Session(output: seq<Chunk>, conn: Conn, end: End)

  function Serve(root: Path, owner: Owner, c: Conn, data: seq<byte>, pos: nat): Session
    requires pos <= |data|
    decreases |data| - pos
  {
    var t := TurnAt(root, owner, c, data, pos);
    if t.stop.Some? then Session(t.sent, t.conn, t.stop.value)
    else
      var rest := Serve(root, owner, t.conn, data, t.next);
      Session(t.sent + rest.output, rest.conn, rest.end)
  }

  /** The loop's invariant carried over one command: a command that ends
      the loop ends the session, any other is followed by the rest of it. */
  lemma ServeTurn(root: Path, owner: Owner, c: Conn, data: seq<byte>, pos: nat, sent: seq<Chunk>, whole: Session)
    requires pos <= |data|
    requires var rest := Serve(root, owner, c, data, pos);
      whole == Session(sent + rest.output, rest.conn, rest.end)
    ensures var t := TurnAt(root, owner, c, data, pos);
      (t.stop.Some? ==> whole == Session(sent + t.sent, t.conn, t.stop.value)) &&
      (t.stop.None? ==> var rest := Serve(root, owner, t.conn, data, t.next);
         whole == Session((sent + t.sent) + rest.output, rest.conn, rest.end))
  {
    var t := TurnAt(root, owner, c, data, pos);
    if t.stop.None? {
      var rest := Serve(root, owner, t.conn, data, t.next);
      AppendAssoc(sent, t.sent, rest.output);
    }
  }

  /** A lock after the cleanup of run's finally block: one read hold
      released if the path was recorded as read, then one write hold if it
      was recorded as written. */
  function Cleaned(k: RwLock, owner: Owner, read: bool, written: bool): RwLock {
    var k1 := if read && DropRead(k, owner).Ok? then DropRead(k, owner).value else k;
    if written && DropWrite(k1, owner).Ok? then DropWrite(k1, owner).value else k1
  }

  /** The lock table after the cleanup, when nothing fails. */
  function CleanedLocks(c: Conn, owner: Owner): LockTable {
    map p | p in c.locks.Keys + c.readLocks + c.writeLocks ::
      Cleaned(LockOf(c.locks, p), owner, p in c.readLocks, p in c.writeLocks)
  }

  // ---------------------------------------------------------------------
  // The handler object

  /** The repository directory's files. */
  class Repository {
    var files: Repo

    constructor (initial: Repo)
      ensures files == initial
    {
      files := initial;
    }
  }

  /** writeErr. */
  method SendErr(out: LineOutput, msg: string)
    modifies out
    ensures out.chunks == old(out.chunks) + ErrReply(msg)
  {
    out.WriteLine("ERR");
    out.WriteLine(msg);
  }

  class ClientHandler {
    const input: ByteInput
    const output: LineOutput
    const root: Path
    /** The connection's thread, as the locks see it. */
    const owner: Owner
    const lockManager: LockManager
    const repo: Repository
    var readLocks: set<string>
    var writeLocks: set<string>

    ghost predicate Valid()
      reads this, input
    {
      input.Valid()
    }

    ghost function State(): Conn
      reads this, lockManager, repo
    {
      Conn(lockManager.table, repo.files, readLocks, writeLocks)
    }

    constructor (inp: ByteInput, out: LineOutput, r: Path, o: Owner, locks: LockManager, files: Repository)
      requires inp.Valid()
      ensures input == inp && output == out && root == r && owner == o && lockManager == locks && repo == files
      ensures readLocks == {} && writeLocks == {} && Valid()
    {
      input := inp;
      output := out;
      root := r;
      owner := o;
      lockManager := locks;
      repo := files;
      readLocks := {};
      writeLocks := {};
    }

    /** The lock-taking part of handleOpen. */
    method TakeLock(pathStr: string, readOnly: bool) returns (granted: bool)
      modifies this, lockManager
      ensures var o := OpenLock(old(State()), owner, pathStr, readOnly);
        granted == o.Some? &&
        State() == if o.Some? then o.value
                   else old(State()).(locks := old(lockManager.table)[pathStr := LockOf(old(lockManager.table), pathStr)])
    {
      if readOnly {
        granted := lockManager.AcquireRead(pathStr, owner);
        if granted {
          readLocks := readLocks + {pathStr};
        }
      } else {
        granted := lockManager.AcquireWrite(pathStr, owner);
        if granted {
          writeLocks := writeLocks + {pathStr};
        }
      }
    }

    method OpenAtPath(readOnly: bool, pathStr: string, file: Path, ghost next: nat) returns (stop: Option<End>)
      modifies this, lockManager, output
      ensures var t := OpenResolved(owner, old(State()), readOnly, pathStr, file, next);
        State() == t.conn && output.chunks == old(output.chunks) + t.sent && stop == t.stop
    {
      var granted := TakeLock(pathStr, readOnly);
      if !granted {
        return Some(Blocked);
      }
      var data: seq<byte> := [];
      if file in repo.files {
        data := repo.files[file];
      } else if readOnly {
        SendErr(output, "ENOENT");
        return None;
      }
      output.WriteLine("OK");
      output.WriteLine(Decimal(|data|));
      output.Write(data);
      stop := None;
    }

    method OpenWith(modeText: string, pathStr: string, ghost next: nat) returns (stop: Option<End>)
      modifies this, lockManager, output
      ensures var t := OpenFields(root, owner, old(State()), modeText, pathStr, next);
        State() == t.conn && output.chunks == old(output.chunks) + t.sent && stop == t.stop
    {
      var mode := ToLower(Trim(modeText));
      var isRO := mode == "ro";
      var isWO := mode == "wo";
      var isRW := mode == "rw";
      if !(isRO || isWO || isRW) {
        SendErr(output, "MODE");
        return None;
      }
      var p := SafeResolve(root, pathStr);
      if p.Err? {
        if p.error.IsIOException() {
          SendErr(output, TRAVERSAL);
          return None;
        }
        return Some(Thrown(p.error));
      }
      stop := OpenAtPath(isRO, pathStr, p.value, next);
    }

    /** readLine twice. */
    method ReadFields() returns (first: Option<seq<byte>>, second: Option<seq<byte>>)
      requires Valid()
      modifies input
      ensures Valid()
      ensures var f := TwoLines(input.data, old(input.pos));
        first == f.first && second == f.second && input.pos == f.next
    {
      first := ReadLine(input);
      second := ReadLine(input);
    }

    method HandleOpen() returns (stop: Option<End>)
      requires Valid()
      modifies this, lockManager, input, output
      ensures Valid()
      ensures var t := OnOpen(root, owner, old(State()), input.data, old(input.pos));
        State() == t.conn && input.pos == t.next && output.chunks == old(output.chunks) + t.sent && stop == t.stop
    {
      ghost var c := State();
      ghost var f := TwoLines(input.data, input.pos);
      var modeLine, pathLine := ReadFields();
      assert State() == c;
      if modeLine.None? || pathLine.None? {
        SendErr(output, "Protocol: OPEN missing fields");
        return None;
      }
      assert OnOpen(root, owner, c, input.data, old(input.pos)) ==
             OpenFields(root, owner, c, Decode(modeLine.value), Decode(pathLine.value), f.next);
      stop := OpenWith(Decode(modeLine.value), Decode(pathLine.value), input.pos);
    }

    method WritebackWith(pathStr: string, len: int) returns (stop: Option<End>)
      requires Valid()
      modifies repo, input, output
      ensures Valid()
      ensures var t := WritebackLocked(root, old(State()), pathStr, len, input.data, old(input.pos));
        State() == t.conn && input.pos == t.next && output.chunks == old(output.chunks) + t.sent && stop == t.stop
    {
      if pathStr !in writeLocks {
        SendErr(output, "WRITEBACK without write lock");
        return None;
      }
      var p := SafeResolve(root, pathStr);
      if p.Err? {
        if p.error.IsIOException() {
          SendErr(output, TRAVERSAL);
          return None;
        }
        return Some(Thrown(p.error));
      }
      var buf := input.ReadNBytes(len);
      if buf.Err? {
        return Some(Thrown(buf.error));
      }
      repo.files := repo.files[p.value := buf.value];
      output.WriteLine("OK");
      stop := None;
    }

    method HandleWriteback() returns (stop: Option<End>)
      requires Valid()
      modifies repo, input, output
      ensures Valid()
      ensures var t := OnWriteback(root, old(State()), input.data, old(input.pos));
        State() == t.conn && input.pos == t.next && output.chunks == old(output.chunks) + t.sent && stop == t.stop
    {
      ghost var c := State();
      ghost var f := TwoLines(input.data, input.pos);
      var pathLine, lenLine := ReadFields();
      assert State() == c;
      if pathLine.None? || lenLine.None? {
        SendErr(output, "Protocol: WRITEBACK missing fields");
        return None;
      }
      var len := ParseInt(Trim(Decode(lenLine.value)));
      if len.Err? {
        SendErr(output, "Bad length");
        return None;
      }
      assert OnWriteback(root, c, input.data, old(input.pos)) ==
             WritebackLocked(root, c, Decode(pathLine.value), len.value, input.data, f.next);
      stop := WritebackWith(Decode(pathLine.value), len.value);
    }

    method CloseWith(s: string, ghost next: nat) returns (stop: Option<End>)
      modifies this, lockManager, output
      ensures var t := CloseFields(owner, old(State()), s, next);
        State() == t.conn && output.chunks == old(output.chunks) + t.sent && stop == t.stop
    {
      if s in writeLocks {
        writeLocks := writeLocks - {s};
        var u := lockManager.ReleaseWrite(s, owner);
        if u.Err? {
          return Some(Thrown(u.error));
        }
      }
      if s in readLocks {
        readLocks := readLocks - {s};
        var u := lockManager.ReleaseRead(s, owner);
        if u.Err? {
          return Some(Thrown(u.error));
        }
      }
      output.WriteLine("OK");
      stop := None;
    }

    method HandleClose() returns (stop: Option<End>)
      requires Valid()
      modifies this, lockManager, input, output
      ensures Valid()
      ensures var t := OnClose(owner, old(State()), input.data, old(input.pos));
        State() == t.conn && input.pos == t.next && output.chunks == old(output.chunks) + t.sent && stop == t.stop
    {
      var pathLine := ReadLine(input);
      if pathLine.None? {
        SendErr(output, "Protocol: CLOSE missing path");
        return None;
      }
      stop := CloseWith(Decode(pathLine.value), input.pos);
    }

    /** One pass of run's loop. */
    method Step() returns (stop: Option<End>, ghost t: Turn)
      requires Valid()
      modifies this, lockManager, repo, input, output
      ensures Valid()
      ensures t == TurnAt(root, owner, old(State()), input.data, old(input.pos))
      ensures State() == t.conn && input.pos == t.next && output.chunks == old(output.chunks) + t.sent && stop == t.stop
    {
      t := TurnAt(root, owner, State(), input.data, input.pos);
      var cmd := ReadLine(input);
      if cmd.None? {
        return Some(Disconnected), t;
      }
      var name := Decode(cmd.value);
      if name == "OPEN" {
        stop := HandleOpen();
      } else if name == "WRITEBACK" {
        stop := HandleWriteback();
      } else if name == "CLOSE" {
        stop := HandleClose();
      } else {
        SendErr(output, "Unknown cmd: " + name);
        stop := None;
      }
    }

    /** run's loop, until the client goes away, the thread blocks, or an
        exception escapes. */
    method Loop() returns (end: End)
      requires Valid()
      modifies this, lockManager, repo, input, output
      ensures Valid()
      ensures var s := Serve(root, owner, old(State()), input.data, old(input.pos));
        output.chunks == old(output.chunks) + s.output && State() == s.conn && end == s.end
    {
      ghost var whole := Serve(root, owner, State(), input.data, input.pos);
      ghost var sent: seq<Chunk> := [];
      while true
        invariant Valid()
        invariant output.chunks == old(output.chunks) + sent
        invariant var rest := Serve(root, owner, State(), input.data, input.pos);
          whole == Session(sent + rest.output, rest.conn, rest.end)
        decreases |input.data| - input.pos
      {
        ServeTurn(root, owner, State(), input.data, input.pos, sent, whole);
        var stop, t := Step();
        AppendAssoc(old(output.chunks), sent, t.sent);
        if stop.Some? {
          end := stop.value;
          break;
        }
        sent := sent + t.sent;
      }
    }

    /** The finally block: one read release per path recorded as read,
        then one write release per path recorded as written, then both
        sets cleared.  A release that throws ends it early. */
    method Cleanup() returns (r: Result<()>)
      modifies this, lockManager
      ensures r.Ok? ==> readLocks == {} && writeLocks == {}
      ensures r.Err? ==> r.error == IllegalMonitorState
      ensures old(HeldBy(State(), owner)) ==> r.Ok? && lockManager.table == CleanedLocks(old(State()), owner)
      ensures repo.files == old(repo.files)
    {
      ghost var c := State();
      ghost var held := HeldBy(c, owner);
      var pending := readLocks;
      while pending != {}
        invariant pending <= c.readLocks && readLocks == c.readLocks && writeLocks == c.writeLocks
        invariant held ==> ReadsReleased(c, owner, pending, lockManager.table)
        decreases pending
      {
        var p :| p in pending;
        ghost var t := lockManager.table;
        ReleaseReadHeld(c, owner, pending, t, p);
        var u := lockManager.ReleaseRead(p, owner);
        if u.Err? {
          return Err(u.error);
        }
        ReadsReleasedStep(c, owner, pending, t, p);
        pending := pending - {p};
      }
      pending := writeLocks;
      ghost var mid := lockManager.table;
      while pending != {}
        invariant pending <= c.writeLocks && readLocks == c.readLocks && writeLocks == c.writeLocks
        invariant held ==> WritesReleased(c, owner, mid, pending, lockManager.table)
        decreases pending
      {
        var p :| p in pending;
        ghost var t := lockManager.table;
        ReleaseWriteHeld(c, owner, mid, pending, t, p);
        var u := lockManager.ReleaseWrite(p, owner);
        if u.Err? {
          return Err(u.error);
        }
        WritesReleasedStep(c, owner, mid, pending, t, p);
        pending := pending - {p};
      }
      readLocks := {};
      writeLocks := {};
      if held {
        CleanupComplete(c, owner, mid, lockManager.table);
      }
      r := Ok(());
    }

    /** run: the loop, then the finally block's cleanup.  A thread that
        would wait inside `lock` never leaves run's try block, so after a
        `Blocked` end no cleanup runs (`None`) and every hold the
        session took is still held. */
    method Run() returns (end: End, cleanup: Option<Result<()>>)
      requires Valid()
      modifies this, lockManager, repo, input, output
      ensures Valid()
      ensures var s := Serve(root, owner, old(State()), input.data, old(input.pos));
        output.chunks == old(output.chunks) + s.output && end == s.end && repo.files == s.conn.files &&
        (end == Blocked ==> cleanup.None? && State() == s.conn) &&
        (end != Blocked ==> cleanup.Some?) &&
        (cleanup.Some? && cleanup.value.Ok? ==> readLocks == {} && writeLocks == {}) &&
        (end != Blocked && HeldBy(s.conn, owner) ==>
           cleanup.Some? && cleanup.value.Ok? && lockManager.table == CleanedLocks(s.conn, owner))
      ensures end != Blocked && old(HeldBy(State(), owner)) ==> cleanup.Some? && cleanup.value.Ok?
    {
      ghost var c := State();
      ghost var pos := input.pos;
      end := Loop();
      if end == Blocked {
        return end, None;
      }
      if HeldBy(c, owner) {
        SessionHeld(root, owner, c, input.data, pos);
      }
      var r := Cleanup();
      cleanup := Some(r);
    }
  }

  // ---------------------------------------------------------------------
  // The cleanup loops' invariants

  /** Midway through the read releases: the paths already done lost one
      read hold, pending ones are still held, the rest is as it was. */
  ghost predicate ReadsReleased(c: Conn, owner: Owner, pending: set<string>, t: LockTable) {
    HeldBy(c, owner) &&
    t.Keys == c.locks.Keys + (c.readLocks - pending) &&
    (forall p | p in t.Keys ::
       t[p] == if p in c.readLocks && p !in pending then Cleaned(LockOf(c.locks, p), owner, true, false)
               else c.locks[p])
  }

  lemma ReleaseReadHeld(c: Conn, owner: Owner, pending: set<string>, t: LockTable, p: string)
    requires p in pending && pending <= c.readLocks
    ensures ReadsReleased(c, owner, pending, t) ==> DropRead(LockOf(t, p), owner).Ok?
  {
  }

  lemma ReadsReleasedStep(c: Conn, owner: Owner, pending: set<string>, t: LockTable, p: string)
    requires p in pending && pending <= c.readLocks
    requires ReadsReleased(c, owner, pending, t) ==> DropRead(LockOf(t, p), owner).Ok?
    ensures var u := DropRead(LockOf(t, p), owner);
      ReadsReleased(c, owner, pending, t) ==> ReadsReleased(c, owner, pending - {p}, t[p := u.value])
  {
  }

  /** Midway through the write releases, after the read releases left
      `mid`. */
  ghost predicate WritesReleased(c: Conn, owner: Owner, mid: LockTable, pending: set<string>, t: LockTable) {
    ReadsReleased(c, owner, {}, mid) &&
    t.Keys == mid.Keys + (c.writeLocks - pending) &&
    (forall p | p in t.Keys ::
       t[p] == if p in c.writeLocks && p !in pending then Cleaned(LockOf(c.locks, p), owner, p in c.readLocks, true)
               else mid[p])
  }

  lemma ReleaseWriteHeld(c: Conn, owner: Owner, mid: LockTable, pending: set<string>, t: LockTable, p: string)
    requires p in pending && pending <= c.writeLocks
    ensures WritesReleased(c, owner, mid, pending, t) ==> DropWrite(LockOf(t, p), owner).Ok?
  {
    if WritesReleased(c, owner, mid, pending, t) && p in c.readLocks {
      assert p in mid;
    }
  }

  /** After the read releases, a path's lock is what the read half of
      the cleanup made of it. */
  lemma MidLock(c: Conn, owner: Owner, mid: LockTable, p: string)
    requires ReadsReleased(c, owner, {}, mid)
    ensures LockOf(mid, p) == Cleaned(LockOf(c.locks, p), owner, p in c.readLocks, false)
  {
    if p !in c.readLocks && p in c.locks {
      assert mid[p] == c.locks[p];
    }
  }

  lemma WritesReleasedStep(c: Conn, owner: Owner, mid: LockTable, pending: set<string>, t: LockTable, p: string)
    requires p in pending && pending <= c.writeLocks
    requires WritesReleased(c, owner, mid, pending, t) ==> DropWrite(LockOf(t, p), owner).Ok?
    ensures var u := DropWrite(LockOf(t, p), owner);
      WritesReleased(c, owner, mid, pending, t) ==> WritesReleased(c, owner, mid, pending - {p}, t[p := u.value])
  {
    if WritesReleased(c, owner, mid, pending, t) {
      var k1 := LockOf(t, p);
      assert k1 == LockOf(mid, p);
      MidLock(c, owner, mid, p);
      var u := DropWrite(k1, owner);
      var t2 := t[p := u.value];
      assert t2[p] == Cleaned(LockOf(c.locks, p), owner, p in c.readLocks, true);
      assert t2.Keys == mid.Keys + (c.writeLocks - (pending - {p}));
      forall q | q in t2.Keys
        ensures t2[q] == if q in c.writeLocks && q !in pending - {p} then Cleaned(LockOf(c.locks, q), owner, q in c.readLocks, true)
                         else mid[q]
      {
        if q != p {
          assert t2[q] == t[q];
        }
      }
    }
  }

  lemma CleanupComplete(c: Conn, owner: Owner, mid: LockTable, t: LockTable)
    requires WritesReleased(c, owner, mid, {}, t)
    ensures t == CleanedLocks(c, owner)
  {
    var cl := CleanedLocks(c, owner);
    assert t.Keys == cl.Keys;
    forall p | p in t.Keys ensures t[p] == cl[p] {
      CleanedAt(c, owner, mid, t, p);
    }
  }

  /** One path once both halves of the cleanup are done. */
  lemma CleanedAt(c: Conn, owner: Owner, mid: LockTable, t: LockTable, p: string)
    requires WritesReleased(c, owner, mid, {}, t) && p in t.Keys
    ensures t[p] == Cleaned(LockOf(c.locks, p), owner, p in c.readLocks, p in c.writeLocks)
  {
    if p !in c.writeLocks {
      MidLock(c, owner, mid, p);
      assert p in mid;
    }
  }

  // ---------------------------------------------------------------------
  // Properties

  /** The repository root is absolute and has neither "." nor "..". */
  lemma RepoRootPlain(dir: string, cwd: Path)
    requires cwd.absolute && RepoRootOf(dir, cwd).Ok?
    ensures var root := RepoRootOf(dir, cwd).value;
      root.absolute && Plain(root.names)
  {
    var root := RepoRootOf(dir, cwd).value;
    assert NormalNames(true, root.names);
  }

  /** "/a" and "a" name the same file. */
  lemma SafeResolveLeadingSlash(root: Path, rel: string)
    ensures SafeResolve(root, "/" + rel) == ResolveUnder(root, rel)
  {
    assert ("/" + rel)[1..] == rel;
  }

  /** ".." steps are resolved before the check: "a/../b" is "b" under the
      root, while "..", with or without the leading '/', climbs out of a
      root below "/" and is refused. */
  lemma SafeResolveTraversal(root: Path)
    requires root.absolute && Plain(root.names) && root.names != []
    ensures SafeResolve(root, "a/../b") == Ok(Path(true, root.names + ["b"]))
    ensures SafeResolve(root, "/a/../b") == Ok(Path(true, root.names + ["b"]))
    ensures SafeResolve(root, "..") == Err(IOFailure)
    ensures SafeResolve(root, "/..") == Err(IOFailure)
  {
    DotDotCancels(root);
    ClimbOutRejected(root);
    SafeResolveLeadingSlash(root, "a/../b");
    SafeResolveLeadingSlash(root, "..");
  }

  /** Taking a lock keeps the connection's paths held by its thread. */
  lemma OpenLockHeld(c: Conn, owner: Owner, p: string, readOnly: bool)
    requires HeldBy(c, owner)
    ensures OpenLock(c, owner, p, readOnly).Some? ==> HeldBy(OpenLock(c, owner, p, readOnly).value, owner)
    ensures HeldBy(c.(locks := c.locks[p := LockOf(c.locks, p)]), owner)
  {
    var c0 := c.(locks := c.locks[p := LockOf(c.locks, p)]);
    assert forall q :: LockOf(c0.locks, q) == LockOf(c.locks, q);
  }

  /** CLOSE keeps the connection's paths held by its thread, and under
      that invariant neither of its releases throws. */
  lemma CloseHeld(owner: Owner, c: Conn, s: string, next: nat)
    requires HeldBy(c, owner)
    ensures var t := CloseFields(owner, c, s, next);
      t.stop.None? && t.sent == OK_LINE && HeldBy(t.conn, owner) &&
      s !in t.conn.readLocks && s !in t.conn.writeLocks
  {
    var w := if s in c.writeLocks then ReleaseWriteIn(c.locks, s, owner) else Released(c.locks, None);
    var c1 := c.(locks := w.locks, writeLocks := c.writeLocks - {s});
    assert w.error.None?;
    assert forall q | q != s :: LockOf(c1.locks, q) == LockOf(c.locks, q);
    assert LockOf(c1.locks, s).readers == LockOf(c.locks, s).readers;
    assert HeldBy(c1, owner);
    var r := if s in c1.readLocks then ReleaseReadIn(c1.locks, s, owner) else Released(c1.locks, None);
    assert r.error.None?;
    assert forall q | q != s :: LockOf(r.locks, q) == LockOf(c1.locks, q);
  }

  /** What a command keeps as long as the connection's paths are held by
      its thread: they stay held, and no IllegalMonitorStateException
      escapes. */
  ghost predicate KeepsHeld(t: Turn, owner: Owner) {
    HeldBy(t.conn, owner) && t.stop != Some(Thrown(IllegalMonitorState))
  }

  lemma OpenFieldsHeld(root: Path, owner: Owner, c: Conn, modeText: string, pathStr: string, next: nat)
    requires HeldBy(c, owner)
    ensures KeepsHeld(OpenFields(root, owner, c, modeText, pathStr, next), owner)
  {
    OpenLockHeld(c, owner, pathStr, ToLower(Trim(modeText)) == "ro");
  }

  lemma OpenHeld(root: Path, owner: Owner, c: Conn, data: seq<byte>, pos: nat)
    requires pos <= |data| && HeldBy(c, owner)
    ensures KeepsHeld(OnOpen(root, owner, c, data, pos), owner)
  {
    var f := TwoLines(data, pos);
    if f.first.Some? && f.second.Some? {
      OpenFieldsHeld(root, owner, c, Decode(f.first.value), Decode(f.second.value), f.next);
    }
  }

  lemma CloseTurnHeld(owner: Owner, c: Conn, data: seq<byte>, pos: nat)
    requires pos <= |data| && HeldBy(c, owner)
    ensures KeepsHeld(OnClose(owner, c, data, pos), owner)
  {
    var pl := LineAt(data, pos);
    if pl.bytes.Some? {
      CloseHeld(owner, c, Decode(pl.bytes.value), pl.next);
    }
  }

  /** Every command keeps the connection's paths held by its thread, and
      none throws IllegalMonitorStateException. */
  lemma TurnHeld(root: Path, owner: Owner, c: Conn, data: seq<byte>, pos: nat)
    requires pos <= |data| && HeldBy(c, owner)
    ensures KeepsHeld(TurnAt(root, owner, c, data, pos), owner)
  {
    var cmd := LineAt(data, pos);
    if cmd.bytes.Some? {
      var name := Decode(cmd.bytes.value);
      if name == "OPEN" {
        OpenHeld(root, owner, c, data, cmd.next);
      } else if name == "CLOSE" {
        CloseTurnHeld(owner, c, data, cmd.next);
      }
    }
  }

  /** A whole session keeps the connection's paths held by its thread,
      and never ends in an IllegalMonitorStateException. */
  lemma {:induction false} SessionHeld(root: Path, owner: Owner, c: Conn, data: seq<byte>, pos: nat)
    requires pos <= |data| && HeldBy(c, owner)
    ensures var s := Serve(root, owner, c, data, pos);
      HeldBy(s.conn, owner) && s.end != Thrown(IllegalMonitorState)
    decreases |data| - pos
  {
    TurnHeld(root, owner, c, data, pos);
    var t := TurnAt(root, owner, c, data, pos);
    if t.stop.None? {
      SessionHeld(root, owner, t.conn, data, t.next);
    }
  }

  /** While another thread writes a path, OPEN of it in any mode waits. */
  lemma OpenWaitsForWriter(owner: Owner, c: Conn, readOnly: bool, pathStr: string, file: Path, next: nat)
    requires LockOf(c.locks, pathStr).writer.Some? && LockOf(c.locks, pathStr).writer.value != owner
    ensures OpenResolved(owner, c, readOnly, pathStr, file, next).stop == Some(Blocked)
  {
  }

  /** OPEN for writing waits while any thread reads, the calling one
      included: holding "ro" and asking for "wo" or "rw" never returns. */
  lemma OpenWriteWaitsForReaders(owner: Owner, c: Conn, pathStr: string, file: Path, next: nat)
    requires LockOf(c.locks, pathStr).readers != multiset{}
    requires LockOf(c.locks, pathStr).writer != Some(owner)
    ensures OpenResolved(owner, c, false, pathStr, file, next).stop == Some(Blocked)
  {
  }

  /** An OPEN refused for its mode or its path takes no lock, records
      nothing and reads on: the mode is checked first, then the path. */
  lemma OpenRefusals(root: Path, owner: Owner, c: Conn, modeText: string, pathStr: string, next: nat)
    ensures !IsMode(ToLower(Trim(modeText))) ==>
      OpenFields(root, owner, c, modeText, pathStr, next) == Turn(ErrReply("MODE"), c, next, None)
    ensures IsMode(ToLower(Trim(modeText))) && '\0' !in pathStr && SafeResolve(root, pathStr).Err? ==>
      OpenFields(root, owner, c, modeText, pathStr, next) == Turn(ErrReply(TRAVERSAL), c, next, None)
  {
  }

  /** OPEN of a path under the root that the lock grants: an existing
      file is sent whole; a missing one is "ENOENT" in mode "ro", with the
      lock kept and recorded all the same, and an empty file otherwise. */
  lemma OpenGrantedReply(owner: Owner, c: Conn, readOnly: bool, pathStr: string, file: Path, next: nat)
    requires OpenLock(c, owner, pathStr, readOnly).Some?
    ensures var c2 := OpenLock(c, owner, pathStr, readOnly).value;
      var t := OpenResolved(owner, c, readOnly, pathStr, file, next);
      t.conn == c2 && t.stop.None? &&
      (readOnly ==> pathStr in c2.readLocks && owner in LockOf(c2.locks, pathStr).readers) &&
      (!readOnly ==> pathStr in c2.writeLocks && LockOf(c2.locks, pathStr).writer == Some(owner)) &&
      t.sent == (if file in c.files then OpenReply(c.files[file])
                 else if readOnly then ErrReply("ENOENT") else OpenReply([]))
  {
  }

  /** A command line other than OPEN, WRITEBACK and CLOSE is answered with
      ERR and changes nothing. */
  lemma UnknownCommandRefused(root: Path, owner: Owner, c: Conn, data: seq<byte>, pos: nat, name: string)
    requires '\n' !in name && name != "OPEN" && name != "WRITEBACK" && name != "CLOSE"
    requires pos + |WriteLine(name)| <= |data| && data[pos..pos + |WriteLine(name)|] == WriteLine(name)
    ensures TurnAt(root, owner, c, data, pos) == Turn(ErrReply("Unknown cmd: " + name), c, pos + |WriteLine(name)|, None)
  {
    ReadWrittenLine(data, pos, name);
    DecodeEncode(name);
  }

  /** handleOpen records a path in a set while the lock counts holds: a
      second OPEN "ro" of a path takes a second read hold, CLOSE gives one
      back and forgets the path, and the cleanup leaves the other, so a
      writer on another connection waits for ever. */
  lemma RepeatedOpenKeepsReadHold(c: Conn, owner: Owner, other: Owner, p: string, next: nat)
    requires p !in c.readLocks && p !in c.writeLocks && LockOf(c.locks, p).writer.None?
    ensures OpenLock(c, owner, p, true).Some?
    ensures OpenLock(OpenLock(c, owner, p, true).value, owner, p, true).Some?
    ensures var c2 := OpenLock(OpenLock(c, owner, p, true).value, owner, p, true).value;
      var t := CloseFields(owner, c2, p, next);
      t.stop.None? && p !in t.conn.readLocks && p !in t.conn.writeLocks &&
      owner in LockOf(t.conn.locks, p).readers &&
      owner in LockOf(CleanedLocks(t.conn, owner), p).readers &&
      GrantWrite(LockOf(CleanedLocks(t.conn, owner), p), other) == (if other == owner then GrantWrite(LockOf(t.conn.locks, p), other) else None)
  {
    var k := LockOf(c.locks, p);
    var c1 := OpenLock(c, owner, p, true).value;
    assert LockOf(c1.locks, p) == k.(readers := k.readers + multiset{owner});
    var c2 := OpenLock(c1, owner, p, true).value;
    var k2 := LockOf(c2.locks, p);
    assert k2 == k.(readers := k.readers + multiset{owner} + multiset{owner});
    var t := CloseFields(owner, c2, p, next);
    var k3 := LockOf(t.conn.locks, p);
    assert k3 == k2.(readers := k2.readers - multiset{owner});
    assert k3.readers[owner] == k.readers[owner] + 1;
    assert p in t.conn.locks;
    assert CleanedLocks(t.conn, owner)[p] == k3;
  }

  /** The same for writing: a second OPEN "rw" or "wo" re-enters the write
      lock, CLOSE gives one write hold back and forgets the path, and the
      cleanup releases nothing more, so the path stays write-locked and
      every other connection is refused both reading and writing. */
  lemma RepeatedOpenKeepsWriteHold(c: Conn, owner: Owner, other: Owner, p: string, next: nat)
    requires p !in c.readLocks && p !in c.writeLocks
    requires LockOf(c.locks, p).writer.None? && LockOf(c.locks, p).readers == multiset{}
    requires other != owner
    ensures OpenLock(c, owner, p, false).Some?
    ensures OpenLock(OpenLock(c, owner, p, false).value, owner, p, false).Some?
    ensures var c2 := OpenLock(OpenLock(c, owner, p, false).value, owner, p, false).value;
      var t := CloseFields(owner, c2, p, next);
      var k := LockOf(CleanedLocks(t.conn, owner), p);
      t.stop.None? && p !in t.conn.readLocks && p !in t.conn.writeLocks &&
      LockOf(t.conn.locks, p).writer == Some(owner) &&
      k.writer == Some(owner) && GrantRead(k, other).None? && GrantWrite(k, other).None?
  {
    var c1 := OpenLock(c, owner, p, false).value;
    assert LockOf(c1.locks, p) == RwLock(multiset{}, Some(owner), 1);
    var c2 := OpenLock(c1, owner, p, false).value;
    assert LockOf(c2.locks, p) == RwLock(multiset{}, Some(owner), 2);
    var t := CloseFields(owner, c2, p, next);
    assert LockOf(t.conn.locks, p) == RwLock(multiset{}, Some(owner), 1);
    assert p in t.conn.locks;
    assert CleanedLocks(t.conn, owner)[p] == LockOf(t.conn.locks, p);
  }

  /** A connection that opened one path and ends there leaves the lock as
      it found it. */
  lemma OpenThenCleanup(c: Conn, owner: Owner, p: string, readOnly: bool)
    requires c.readLocks == {} && c.writeLocks == {} && Coherent(LockOf(c.locks, p))
    requires OpenLock(c, owner, p, readOnly).Some?
    ensures CleanedLocks(OpenLock(c, owner, p, readOnly).value, owner) == c.locks[p := LockOf(c.locks, p)]
  {
    var c1 := OpenLock(c, owner, p, readOnly).value;
    var k := LockOf(c.locks, p);
    ReleaseUndoesAcquire(k, owner);
    var m := CleanedLocks(c1, owner);
    var want := c.locks[p := k];
    assert m.Keys == want.Keys;
    forall q | q in m.Keys ensures m[q] == want[q] {
      if q != p {
        assert q !in c1.readLocks && q !in c1.writeLocks;
        assert LockOf(c1.locks, q) == c.locks[q];
      }
    }
  }

  /** Two lines of bytes are read as the two fields. */
  lemma TwoLinesOf(data: seq<byte>, pos: nat, x: seq<byte>, y: seq<byte>)
    requires NL !in x && NL !in y
    requires pos + |x| + |y| + 2 <= |data|
    requires data[pos..pos + |x| + |y| + 2] == x + [NL] + y + [NL]
    ensures TwoLines(data, pos) == Fields(Some(x), Some(y), pos + |x| + |y| + 2)
  {
    var w := data[pos..pos + |x| + |y| + 2];
    forall i | 0 <= i < |x| ensures data[pos + i] == x[i] {
      assert data[pos + i] == w[i];
    }
    assert data[pos..pos + |x|] == x;
    assert data[pos + |x|] == w[|x|] == NL;
    var q := pos + |x| + 1;
    forall i | 0 <= i < |y| ensures data[q + i] == y[i] {
      assert data[q + i] == w[|x| + 1 + i];
    }
    assert data[q..q + |y|] == y;
    assert data[q + |y|] == w[|x| + 1 + |y|] == NL;
    LineOfBytes(data, pos, x);
    LineOfBytes(data, q, y);
  }

  /** The two fields the client writes are the two fields the handler
      reads. */
  lemma TwoLinesWritten(data: seq<byte>, pos: nat, a: string, b: string)
    requires '\n' !in a && '\n' !in b
    requires var w := Wire([TextLine(a), TextLine(b)]);
      pos + |w| <= |data| && data[pos..pos + |w|] == w
    ensures var w := Wire([TextLine(a), TextLine(b)]);
      TwoLines(data, pos) == Fields(Some(Encode(a)), Some(Encode(b)), pos + |w|)
  {
    var x := Encode(a);
    var y := Encode(b);
    WireLines(a, b);
    EncodeAvoids(a, '\n');
    EncodeAvoids(b, '\n');
    TwoLinesOf(data, pos, x, y);
  }

  /** A WRITEBACK whose fields are the encoded path and a decimal length
      is handled as that path and length. */
  lemma WritebackRequestRead(root: Path, c: Conn, data: seq<byte>, pos: nat, path: string, n: nat, next: nat)
    requires pos <= |data| && next <= |data| && n <= INT_MAX
    requires TwoLines(data, pos) == Fields(Some(Encode(path)), Some(Encode(Decimal(n))), next)
    ensures OnWriteback(root, c, data, pos) == WritebackLocked(root, c, path, n, data, next)
  {
    var d := Decimal(n);
    DecodeEncode(path);
    DecodeEncode(d);
    TrimDecimal(n);
    ParseDecimal(n);
    OnWritebackFields(root, c, data, pos, Encode(path), Encode(d), path, n, next);
  }

  /** A WRITEBACK to a path this connection holds for writing, with the
      whole announced body present, stores exactly that body and is
      acknowledged; reading goes on after the body.  With
      WritebackRequestRead this gives the whole turn. */
  lemma WritebackStoresBody(root: Path, c: Conn, pathStr: string, body: seq<byte>, data: seq<byte>, next: nat, file: Path)
    requires next + |body| <= |data| && data[next..next + |body|] == body
    requires pathStr in c.writeLocks && SafeResolve(root, pathStr) == Ok(file)
    ensures WritebackLocked(root, c, pathStr, |body|, data, next) == Turn(OK_LINE, c.(files := c.files[file := body]), next + |body|, None)
  {
  }

  lemma OnWritebackFields(root: Path, c: Conn, data: seq<byte>, pos: nat, x: seq<byte>, y: seq<byte>,
                          path: string, n: int, next: nat)
    requires pos <= |data| && next <= |data|
    requires TwoLines(data, pos) == Fields(Some(x), Some(y), next)
    requires Decode(x) == path && ParseInt(Trim(Decode(y))) == Ok(n)
    ensures OnWriteback(root, c, data, pos) == WritebackLocked(root, c, path, n, data, next)
  {
  }

  /** A WRITEBACK whose body the stream cuts short is still acknowledged,
      and the file becomes the bytes that did arrive. */
  lemma WritebackShortBody(root: Path, c: Conn, pathStr: string, len: int, data: seq<byte>, next: nat, file: Path)
    requires next <= |data| && len > |data| - next
    requires pathStr in c.writeLocks && SafeResolve(root, pathStr) == Ok(file)
    ensures WritebackLocked(root, c, pathStr, len, data, next) == Turn(OK_LINE, c.(files := c.files[file := data[next..]]), |data|, None)
  {
    assert data[next..next + Available(data, next, len)] == data[next..];
  }

  /** A WRITEBACK for a path this connection does not hold for writing is
      refused and its body is not read: those bytes are taken as the next
      command. */
  lemma WritebackNeedsWriteLock(root: Path, c: Conn, pathStr: string, len: int, data: seq<byte>, next: nat)
    requires next <= |data| && pathStr !in c.writeLocks
    ensures var t := WritebackLocked(root, c, pathStr, len, data, next);
      t.conn == c && t.next == next && t.stop.None? && t.sent[0] == TextLine("ERR")
  {
  }

  /** An OPEN whose fields are the encoded mode and path is handled as
      that mode and path. */
  lemma OpenRequestRead(root: Path, owner: Owner, c: Conn, data: seq<byte>, pos: nat, mode: string, path: string, next: nat)
    requires pos <= |data|
    requires TwoLines(data, pos) == Fields(Some(Encode(mode)), Some(Encode(path)), next)
    ensures OnOpen(root, owner, c, data, pos) == OpenFields(root, owner, c, mode, path, next)
  {
    DecodeEncode(mode);
    DecodeEncode(path);
    OnOpenFields(root, owner, c, data, pos, Encode(mode), Encode(path), mode, path, next);
  }

  lemma OnOpenFields(root: Path, owner: Owner, c: Conn, data: seq<byte>, pos: nat, x: seq<byte>, y: seq<byte>,
                     mode: string, path: string, next: nat)
    requires pos <= |data|
    requires TwoLines(data, pos) == Fields(Some(x), Some(y), next)
    requires Decode(x) == mode && Decode(y) == path
    ensures OnOpen(root, owner, c, data, pos) == OpenFields(root, owner, c, mode, path, next)
  {
  }

  /** The bytes of two written lines. */
  lemma WireLines(a: string, b: string)
    ensures Wire([TextLine(a), TextLine(b)]) == Encode(a) + [NL] + Encode(b) + [NL]
  {
    assert [TextLine(a), TextLine(b)][1..] == [TextLine(b)];
    assert Wire([TextLine(b)]) == WriteLine(b) + Wire([]);
  }
}
