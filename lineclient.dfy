/** DFSClient of the line-based version: one file open at a time, fetched
    whole over a fresh connection by OPEN, edited in memory, written back
    by WRITEBACK when it changed, and released by CLOSE.  The server's
    side of each connection is the sequence of bytes it sends back. */
module LineClient {
  import opened Bytes
  import opened Failures
  import opened Utf8
  import opened Streams
  import opened LineText
  import opened LineFiles

  // ---------------------------------------------------------------------
  // parseServer

  /** The index of the first ':', or the length when there is none. */
  function ColonIndex(s: string): (i: nat)
    ensures i <= |s| && (i < |s| ==> s[i] == ':')
    ensures forall j | 0 <= j < i :: s[j] != ':'
  {
    if s == [] || s[0] == ':' then 0 else 1 + ColonIndex(s[1..])
  }

  /** parseServer: split("host:port", 2), which cuts at the first ':'
      only; without a ':' it is an IllegalArgumentException. */
  function ParseServer(s: string): (r: Result<(string, string)>)
    ensures r.Err? <==> ':' !in s
    ensures r.Err? ==> r.error == IllegalArgument
    ensures r.Ok? ==> ':' !in r.value.0 && s == r.value.0 + ":" + r.value.1
  {
    var i := ColonIndex(s);
    if i == |s| then Err(IllegalArgument) else Ok((s[..i], s[i + 1..]))
  }

  // ---------------------------------------------------------------------
  // The client as a value

  /** The FileHandler `current`. */
  datatype Handle = Handle(path: string, mode: string, cache: seq<byte>, dirty: bool)

  /** An open socket: what the server sends on it, how far that has been
      read, and the calls made on its output stream. */
  datatype Sock = Sock(replies: seq<byte>, pos: nat, sent: seq<Chunk>)

  /** The fields `current` and `sock`/`in`/`out`, with every call the
      client has made on an output stream, on any socket. */
  datatype Client = Client(current: Option<Handle>, sock: Option<Sock>, log: seq<Chunk>)

  /** What the methods keep: an open file always has its connection, and
      reading never runs past the server's bytes. */
  predicate Coherent(c: Client) {
    (c.current.Some? ==> c.sock.Some?) &&
    (c.sock.Some? ==> c.sock.value.pos <= |c.sock.value.replies|)
  }

  const CLOSED: Client := Client(None, None, [])

  /** An operation's outcome and the client it leaves. */
  datatype Outcome<T> = Outcome(result: Result<T>, client: Client)

  /** A read from the socket: the outcome and the socket after it. */
  datatype Got<T> = Got(result: Result<T>, sock: Sock)

  /** readLine: the line decoded as UTF-8; an EOFException when the
      stream ended before any byte. */
  function ReadLineIn(s: Sock): (g: Got<string>)
    requires s.pos <= |s.replies|
    ensures g.sock.replies == s.replies && g.sock.sent == s.sent
    ensures s.pos <= g.sock.pos <= |s.replies|
    ensures g.result.Err? <==> s.pos == |s.replies|
    ensures g.result.Err? ==> g.result.error == EOF && g.sock == s
  {
    var l := LineAt(s.replies, s.pos);
    if l.bytes.None? then Got(Err(EOF), s) else Got(Ok(Decode(l.bytes.value)), s.(pos := l.next))
  }

  /** The status check that follows every request: "ERR" and the message
      line is an IOException, any other status but "OK" too, and a
      stream that ends first an EOFException. */
  function AckIn(s: Sock): (g: Got<()>)
    requires s.pos <= |s.replies|
    ensures g.sock.replies == s.replies && g.sock.sent == s.sent
    ensures s.pos <= g.sock.pos <= |s.replies|
    ensures g.result.Err? ==> g.result.error == EOF || g.result.error == IOFailure
  {
    var st := ReadLineIn(s);
    if st.result.Err? then Got(Err(st.result.error), st.sock)
    else if st.result.value == "ERR" then
      var msg := ReadLineIn(st.sock);
      Got(if msg.result.Err? then Err(msg.result.error) else Err(IOFailure), msg.sock)
    else if st.result.value != "OK" then Got(Err(IOFailure), st.sock)
    else Got(Ok(()), st.sock)
  }

  /** writeLine and write calls on the open socket's output stream. */
  function Send(c: Client, cs: seq<Chunk>): (d: Client)
    requires c.sock.Some?
    ensures d.current == c.current && d.sock.Some?
    ensures d.sock.value == c.sock.value.(sent := c.sock.value.sent + cs)
    ensures d.log == c.log + cs
  {
    c.(sock := Some(c.sock.value.(sent := c.sock.value.sent + cs)), log := c.log + cs)
  }

  /** Two sends are one send of both. */
  lemma SendSend(c: Client, a: seq<Chunk>, b: seq<Chunk>)
    requires c.sock.Some?
    ensures Send(Send(c, a), b) == Send(c, a + b)
  {
    AppendAssoc(c.sock.value.sent, a, b);
    AppendAssoc(c.log, a, b);
  }

  /** The request open writes. */
  function OpenRequest(mode: string, path: string): seq<Chunk> {
    [TextLine("OPEN"), TextLine(mode), TextLine(path)]
  }

  /** The WRITEBACK request close writes for a changed file. */
  function WritebackRequest(h: Handle): seq<Chunk> {
    [TextLine("WRITEBACK"), TextLine(h.path), TextLine(Decimal(|h.cache|)), Data(h.cache)]
  }

  /** The CLOSE request. */
  function CloseRequest(path: string): seq<Chunk> {
    [TextLine("CLOSE"), TextLine(path)]
  }

  // ---------------------------------------------------------------------
  // open

  /** The length line after "OK": Integer.parseInt of the untrimmed
      line, then readNBytes, which gives fewer bytes only at the end of
      the stream. */
  function OpenBody(c: Client, path: string, mode: string): (o: Outcome<()>)
    requires Coherent(c) && c.sock.Some? && c.current.None?
    ensures Coherent(o.client) && o.client.log == c.log
    ensures o.client.sock.Some? && o.client.sock.value.sent == c.sock.value.sent
    ensures o.result.Ok? <==> o.client.current.Some?
    ensures o.result.Ok? ==> var h := o.client.current.value;
      h.path == path && h.mode == mode && !h.dirty
  {
    var ln := ReadLineIn(c.sock.value);
    var c1 := c.(sock := Some(ln.sock));
    if ln.result.Err? then Outcome(Err(ln.result.error), c1)
    else OpenContent(c1, path, mode, ln.result.value)
  }

  /** The content, once the length line is read. */
  function OpenContent(c: Client, path: string, mode: string, lenText: string): (o: Outcome<()>)
    requires Coherent(c) && c.sock.Some? && c.current.None?
    ensures Coherent(o.client) && o.client.log == c.log
    ensures o.client.sock.Some? && o.client.sock.value.sent == c.sock.value.sent
    ensures o.result.Ok? <==> o.client.current.Some?
  {
    match ParseInt(lenText)
    case Err(e) => Outcome(Err(e), c)
    case Ok(len) =>
      if len < 0 then Outcome(Err(IllegalArgument), c)
      else
        var s := c.sock.value;
        var k := if s.pos + len <= |s.replies| then len else |s.replies| - s.pos;
        Outcome(Ok(()), c.(current := Some(Handle(path, mode, s.replies[s.pos..s.pos + k], false)),
                           sock := Some(s.(pos := s.pos + k))))
  }

  /** open once connected: the mode is checked only now, so a bad mode
      leaves the new socket open; then the request, and the reply, whose
      "ERR" and unknown statuses close the socket. */
  function OpenOn(c: Client, path: string, mode: string): (o: Outcome<()>)
    requires Coherent(c) && c.sock.Some? && c.current.None?
    ensures Coherent(o.client)
    ensures o.result.Ok? <==> o.client.current.Some?
    ensures !IsMode(mode) ==> o == Outcome(Err(IllegalArgument), c)
    ensures IsMode(mode) ==> o.client.log == c.log + OpenRequest(mode, path)
  {
    if !IsMode(mode) then Outcome(Err(IllegalArgument), c)
    else
      var c1 := Send(c, OpenRequest(mode, path));
      var a := AckIn(c1.sock.value);
      var c2 := c1.(sock := Some(a.sock));
      if a.result.Ok? then OpenBody(c2, path, mode)
      else if a.result.error == IOFailure then Outcome(Err(IOFailure), c2.(sock := None))
      else Outcome(Err(a.result.error), c2)
  }

  /** open(servername, filepath, mode): `reachable` says whether the
      connection to host:port can be made, and `replies` is what the
      server then sends on it. */
  function OpenAt(c: Client, servername: string, path: string, mode: string, reachable: bool,
                  replies: seq<byte>): (o: Outcome<()>)
    requires Coherent(c)
    ensures Coherent(o.client)
    ensures o.result.Ok? <==> o.client.current.Some? && c.current.None?
    ensures c.current.Some? ==> o == Outcome(Err(IllegalState), c)
  {
    if c.current.Some? then Outcome(Err(IllegalState), c)
    else
      match ParseServer(servername)
      case Err(e) => Outcome(Err(e), c)
      case Ok(hp) =>
        match ParseInt(hp.1)
        case Err(e) => Outcome(Err(e), c)
        case Ok(port) =>
          if port < 0 || port > 65535 then Outcome(Err(IllegalArgument), c)
          else if !reachable then Outcome(Err(IOFailure), c)
          else OpenOn(c.(sock := Some(Sock(replies, 0, []))), path, ToLower(mode))
  }

  // ---------------------------------------------------------------------
  // read, write, append

  /** read: ensureOpen, then readString. */
  function ReadAt(c: Client): (r: Result<string>)
    ensures r.Err? <==> c.current.None?
    ensures r.Err? ==> r.error == IllegalState
  {
    if c.current.None? then Err(IllegalState) else Ok(Decode(c.current.value.cache))
  }

  /** write and append: ensureOpen, then the handler, which refuses mode
      "ro"; `content` is what the handler would then hold. */
  function EditAt(c: Client, content: seq<byte>): (o: Outcome<()>)
    requires Coherent(c)
    ensures Coherent(o.client) && o.client.sock == c.sock && o.client.log == c.log
    ensures o.result.Ok? <==> c.current.Some? && c.current.value.mode != "ro"
    ensures o.result.Err? ==> o == Outcome(Err(IllegalState), c)
    ensures o.result.Ok? ==> o.client.current == Some(c.current.value.(cache := content, dirty := true))
  {
    if c.current.None? || c.current.value.mode == "ro" then Outcome(Err(IllegalState), c)
    else Outcome(Ok(()), c.(current := Some(c.current.value.(cache := content, dirty := true))))
  }

  function WriteAt(c: Client, s: string): (o: Outcome<()>)
    requires Coherent(c)
  {
    EditAt(c, Encode(s))
  }

  function AppendAt(c: Client, s: string): (o: Outcome<()>)
    requires Coherent(c)
  {
    EditAt(c, if c.current.Some? then c.current.value.cache + Encode(s) else [])
  }

  // ---------------------------------------------------------------------
  // close

  /** The CLOSE exchange; only its "OK" clears `current` and closes the
      socket. */
  function CloseSend(c: Client): (o: Outcome<()>)
    requires Coherent(c) && c.current.Some?
    ensures Coherent(o.client)
    ensures o.client.log == c.log + CloseRequest(c.current.value.path)
    ensures o.result.Ok? ==> o.client.current.None? && o.client.sock.None?
    ensures o.result.Err? ==> o.client.current == c.current
  {
    var c1 := Send(c, CloseRequest(c.current.value.path));
    var a := AckIn(c1.sock.value);
    if a.result.Err? then Outcome(Err(a.result.error), c1.(sock := Some(a.sock)))
    else Outcome(Ok(()), c1.(current := None, sock := None))
  }

  /** The WRITEBACK exchange of close: the path, the length, the whole
      content; only its "OK" clears the dirty flag. */
  function WritebackAt(c: Client): (o: Outcome<()>)
    requires Coherent(c) && c.current.Some?
    ensures Coherent(o.client) && o.client.current.Some?
    ensures o.client.log == c.log + WritebackRequest(c.current.value)
    ensures o.client.current.value == if o.result.Ok? then c.current.value.(dirty := false) else c.current.value
  {
    var h := c.current.value;
    var c1 := Send(c, WritebackRequest(h));
    var a := AckIn(c1.sock.value);
    if a.result.Err? then Outcome(Err(a.result.error), c1.(sock := Some(a.sock)))
    else Outcome(Ok(()), c1.(sock := Some(a.sock), current := Some(h.(dirty := false))))
  }

  /** close (the first of the two declared): ensureOpen; a WRITEBACK
      when the content changed and the mode is not "ro"; then CLOSE. */
  function CloseAt(c: Client): (o: Outcome<()>)
    requires Coherent(c)
    ensures Coherent(o.client)
    ensures c.current.None? ==> o == Outcome(Err(IllegalState), c)
    ensures o.result.Ok? ==> o.client.current.None? && o.client.sock.None?
    ensures o.result.Err? && c.current.Some? ==>
      (o.client.current.Some? &&
       var h, h' := c.current.value, o.client.current.value;
       h'.path == h.path && h'.mode == h.mode && h'.cache == h.cache)
  {
    if c.current.None? then Outcome(Err(IllegalState), c)
    else
      var h := c.current.value;
      if h.dirty && h.mode != "ro" then
        var w := WritebackAt(c);
        if w.result.Err? then w else CloseSend(w.client)
      else CloseSend(c)
  }

  // ---------------------------------------------------------------------
  // The client object

  class DFSClient {
    /** `in` and `out`: both null, or the streams of the socket. */
    var input: ByteInput?
    var output: LineOutput?
    var current: FileHandler?
    /** Every call made on an output stream so far. */
    ghost var log: seq<Chunk>

    ghost predicate Valid()
      reads this, input
    {
      (input == null <==> output == null) &&
      (current != null ==> input != null) &&
      (input != null ==> input.Valid())
    }

    /** The fields as a value. */
    ghost function State(): Client
      reads this, input, output, current
    {
      Client(if current == null then None else Some(Handle(current.path, current.mode, current.cache, current.dirty)),
             if input == null || output == null then None else Some(Sock(input.data, input.pos, output.chunks)),
             log)
    }

    constructor ()
      ensures Valid() && State() == CLOSED
    {
      input := null;
      output := null;
      current := null;
      log := [];
    }

    /** What Valid promises about the value. */
    lemma ValidCoherent()
      requires Valid()
      ensures Coherent(State())
    {
    }

    /** readLine. */
    method ReadLine() returns (r: Result<string>)
      requires Valid() && input != null
      modifies input
      ensures Valid()
      ensures var g := ReadLineIn(old(State()).sock.value);
        r == g.result && State() == old(State()).(sock := Some(g.sock))
    {
      var line := LineText.ReadLine(input);
      if line.None? {
        return Err(EOF);
      }
      r := Ok(Decode(line.value));
    }

    /** writeLine. */
    method WriteLine(s: string)
      requires Valid() && output != null
      modifies this, output
      ensures Valid() && input == old(input) && output == old(output) && current == old(current)
      ensures State() == Send(old(State()), [TextLine(s)])
    {
      output.WriteLine(s);
      log := log + [TextLine(s)];
    }

    /** out.write of raw bytes. */
    method WriteBytes(b: seq<byte>)
      requires Valid() && output != null
      modifies this, output
      ensures Valid() && input == old(input) && output == old(output) && current == old(current)
      ensures State() == Send(old(State()), [Data(b)])
    {
      output.Write(b);
      log := log + [Data(b)];
    }

    /** The status reply after a request. */
    method Ack() returns (r: Result<()>)
      requires Valid() && input != null
      modifies input
      ensures Valid()
      ensures var g := AckIn(old(State()).sock.value);
        r == g.result && State() == old(State()).(sock := Some(g.sock))
    {
      var st := ReadLine();
      if st.Err? {
        return Err(st.error);
      }
      if st.value == "ERR" {
        var msg := ReadLine();
        if msg.Err? {
          return Err(msg.error);
        }
        return Err(IOFailure);
      }
      if st.value != "OK" {
        return Err(IOFailure);
      }
      r := Ok(());
    }

    /** closeSocketOnly. */
    method CloseSocketOnly()
      requires Valid() && current == null
      modifies this
      ensures Valid() && State() == old(State()).(sock := None)
    {
      input := null;
      output := null;
    }
 
    /** open: IllegalStateException while a file is open; the server
        name, then the connection, then the mode; then the exchange. */
    method Open(servername: string, filepath: string, mode: string, reachable: bool, replies: seq<byte>)
      returns (r: Result<()>)
      requires Valid()
      modifies this
      ensures Valid()
      ensures var o := OpenAt(old(State()), servername, filepath, mode, reachable, replies);
        r == o.result && State() == o.client
    {
      if current != null {
        return Err(IllegalState);
      }
      var hp := ParseServer(servername);
      if hp.Err? {
        return Err(hp.error);
      }
      var port := ParseInt(hp.value.1);
      if port.Err? {
        return Err(port.error);
      }
      if port.value < 0 || port.value > 65535 {
        return Err(IllegalArgument);
      }
      if !reachable {
        return Err(IOFailure);
      }
      input := new ByteInput(replies);
      output := new LineOutput();
      r := OpenConnected(filepath, ToLower(mode));
    }

    /** open on the new socket: the mode check, the request, the status. */
    method OpenConnected(path: string, mode: string) returns (r: Result<()>)
      requires Valid() && input != null && current == null
      modifies this, input, output
      ensures Valid()
      ensures var o := OpenOn(old(State()), path, mode); r == o.result && State() == o.client
    {
      if !IsMode(mode) {
        return Err(IllegalArgument);
      }
      ghost var c := State();
      WriteLine("OPEN");
      WriteLine(mode);
      SendSend(c, [TextLine("OPEN")], [TextLine(mode)]);
      assert [TextLine("OPEN")] + [TextLine(mode)] == [TextLine("OPEN"), TextLine(mode)];
      WriteLine(path);
      SendSend(c, [TextLine("OPEN"), TextLine(mode)], [TextLine(path)]);
      assert [TextLine("OPEN"), TextLine(mode)] + [TextLine(path)] == OpenRequest(mode, path);
      assert State() == Send(c, OpenRequest(mode, path));
      var status := Ack();
      if status.Err? {
        if status.error == IOFailure {
          CloseSocketOnly();
        }
        return Err(status.error);
      }
      r := ReceiveFile(path, mode);
    }

    /** The length line and the content after "OK". */
    method ReceiveFile(path: string, mode: string) returns (r: Result<()>)
      requires Valid() && input != null && current == null
      modifies this, input
      ensures Valid()
      ensures var o := OpenBody(old(State()), path, mode); r == o.result && State() == o.client
    {
      var line := ReadLine();
      if line.Err? {
        return Err(line.error);
      }
      r := ReceiveContent(path, mode, line.value);
    }

    method ReceiveContent(path: string, mode: string, lenText: string) returns (r: Result<()>)
      requires Valid() && input != null && current == null
      modifies this, input
      ensures Valid()
      ensures var o := OpenContent(old(State()), path, mode, lenText); r == o.result && State() == o.client
    {
      var len := ParseInt(lenText);
      if len.Err? {
        return Err(len.error);
      }
      var buf := input.ReadNBytes(len.value);
      if buf.Err? {
        return Err(buf.error);
      }
      current := new FileHandler(path, mode, buf.value);
      r := Ok(());
    }

    /** read. */
    method Read() returns (r: Result<string>)
      requires Valid()
      ensures r == ReadAt(State())
    {
      if current == null {
        return Err(IllegalState);
      }
      r := Ok(current.ReadString());
    }

    /** write. */
    method Write(message: string) returns (r: Result<()>)
      requires Valid()
      modifies current
      ensures Valid()
      ensures var o := WriteAt(old(State()), message); r == o.result && State() == o.client
    {
      if current == null {
        return Err(IllegalState);
      }
      r := current.WriteString(message);
    }

    /** append. */
    method Append(message: string) returns (r: Result<()>)
      requires Valid()
      modifies current
      ensures Valid()
      ensures var o := AppendAt(old(State()), message); r == o.result && State() == o.client
    {
      if current == null {
        return Err(IllegalState);
      }
      r := current.AppendString(message);
    }

    /** close, the declaration at line 85. */
    method Close() returns (r: Result<()>)
      requires Valid()
      modifies this, input, output, current
      ensures Valid()
      ensures var o := CloseAt(old(State())); r == o.result && State() == o.client
    {
      if current == null {
        return Err(IllegalState);
      }
      if current.IsDirty() && !current.IsReadOnly() {
        r := Writeback();
        if r.Err? {
          return;
        }
      }
      r := SendClose();
    }

    /** The WRITEBACK exchange of close. */
    method Writeback() returns (r: Result<()>)
      requires Valid() && current != null
      modifies this, input, output, current
      ensures Valid() && input == old(input) && output == old(output) && current == old(current)
      ensures var o := WritebackAt(old(State())); r == o.result && State() == o.client
    {
      ghost var c := State();
      ghost var h := c.current.value;
      WriteLine("WRITEBACK");
      WriteLine(current.path);
      SendSend(c, [TextLine("WRITEBACK")], [TextLine(h.path)]);
      assert [TextLine("WRITEBACK")] + [TextLine(h.path)] == [TextLine("WRITEBACK"), TextLine(h.path)];
      var buf := current.GetBytes();
      WriteLine(Decimal(|buf|));
      SendSend(c, [TextLine("WRITEBACK"), TextLine(h.path)], [TextLine(Decimal(|h.cache|))]);
      assert [TextLine("WRITEBACK"), TextLine(h.path)] + [TextLine(Decimal(|h.cache|))]
          == [TextLine("WRITEBACK"), TextLine(h.path), TextLine(Decimal(|h.cache|))];
      WriteBytes(buf);
      SendSend(c, [TextLine("WRITEBACK"), TextLine(h.path), TextLine(Decimal(|h.cache|))], [Data(h.cache)]);
      assert [TextLine("WRITEBACK"), TextLine(h.path), TextLine(Decimal(|h.cache|))] + [Data(h.cache)]
          == WritebackRequest(h);
      assert State() == Send(c, WritebackRequest(h));
      r := Ack();
      if r.Ok? {
        current.ClearDirty();
      }
    }

    /** The CLOSE exchange; its "OK" clears `current` and closes the socket. */
    method SendClose() returns (r: Result<()>)
      requires Valid() && current != null
      modifies this, input, output
      ensures Valid()
      ensures var o := CloseSend(old(State())); r == o.result && State() == o.client
    {
      ghost var c := State();
      WriteLine("CLOSE");
      WriteLine(current.path);
      SendSend(c, [TextLine("CLOSE")], [TextLine(c.current.value.path)]);
      assert [TextLine("CLOSE")] + [TextLine(c.current.value.path)] == CloseRequest(c.current.value.path);
      assert State() == Send(c, CloseRequest(c.current.value.path));
      r := Ack();
      if r.Err? {
        return;
      }
      current := null;
      CloseSocketOnly();
    }
  }

  // ---------------------------------------------------------------------
  // Properties

  /** parseServer gives back the host and port it was built from: only
      the first ':' separates them. */
  lemma ParseServerJoin(host: string, port: string)
    requires ':' !in host
    ensures ParseServer(host + ":" + port) == Ok((host, port))
  {
    var s := host + ":" + port;
    assert s[|host|] == ':';
    assert forall j | 0 <= j < |host| :: s[j] == host[j];
    var i := ColonIndex(s);
    assert i == |host|;
    assert s[..i] == host && s[i + 1..] == port;
  }

  /** What write stores, read gives back. */
  lemma ReadAfterWrite(c: Client, s: string)
    requires Coherent(c) && WriteAt(c, s).result.Ok?
    ensures ReadAt(WriteAt(c, s).client) == Ok(s)
  {
    DecodeEncode(s);
  }

  /** append after content that reads as `t` reads as `t + s`. */
  lemma ReadAfterAppend(c: Client, t: string, s: string)
    requires Coherent(c) && c.current.Some? && c.current.value.cache == Encode(t)
    requires AppendAt(c, s).result.Ok?
    ensures ReadAt(AppendAt(c, s).client) == Ok(t + s)
  {
    EncodeAppend(t, s);
    DecodeEncode(t + s);
  }

  /** close sends a WRITEBACK exactly when the file changed and is not
      read-only; the CLOSE follows only after the server acknowledged the
      write. */
  lemma CloseSends(c: Client)
    requires Coherent(c) && c.current.Some?
    ensures var h := c.current.value; var o := CloseAt(c);
      if h.dirty && h.mode != "ro" then
        (WritebackAt(c).result.Err? ==> o.client.log == c.log + WritebackRequest(h)) &&
        (WritebackAt(c).result.Ok? ==> o.client.log == c.log + WritebackRequest(h) + CloseRequest(h.path))
      else o.client.log == c.log + CloseRequest(h.path)
  {
  }

  /** A write marks the file, so the next close sends its new content. */
  lemma WriteThenCloseSendsContent(c: Client, s: string)
    requires Coherent(c) && WriteAt(c, s).result.Ok?
    ensures var c1 := WriteAt(c, s).client; var h := c1.current.value;
      h.cache == Encode(s) && h.dirty && h.mode != "ro" &&
      CloseAt(c1).client.log[..|c1.log| + 4] == c1.log + WritebackRequest(h)
  {
    var c1 := WriteAt(c, s).client;
    var h := c1.current.value;
    CloseSends(c1);
    var l := CloseAt(c1).client.log;
    if WritebackAt(c1).result.Ok? {
      AppendAssoc(c1.log, WritebackRequest(h), CloseRequest(h.path));
    }
    assert |c1.log + WritebackRequest(h)| == |c1.log| + 4;
    assert l[..|c1.log| + 4] == c1.log + WritebackRequest(h);
  }

  /** The status line "OK" as it travels. */
  const OK_BYTES: seq<byte> := [79, 75, 10]

  lemma OkBytes()
    ensures WriteLine("OK") == OK_BYTES
  {
  }

  /** A status line "OK" is an acknowledgement. */
  lemma AckOk(s: Sock)
    requires s.pos + |OK_BYTES| <= |s.replies| && s.replies[s.pos..s.pos + |OK_BYTES|] == OK_BYTES
    ensures AckIn(s) == Got(Ok(()), s.(pos := s.pos + |OK_BYTES|))
  {
    OkBytes();
    ReadWrittenLine(s.replies, s.pos, "OK");
    DecodeEncode("OK");
  }

  /** "ERR" and a message line is an IOException, and both lines are
      consumed. */
  lemma AckErr(s: Sock, msg: string)
    requires '\n' !in msg
    requires var e := WriteLine("ERR") + WriteLine(msg);
      s.pos + |e| <= |s.replies| && s.replies[s.pos..s.pos + |e|] == e
    ensures AckIn(s) == Got(Err(IOFailure), s.(pos := s.pos + |WriteLine("ERR")| + |WriteLine(msg)|))
  {
    SplitSlice(s.replies, s.pos, WriteLine("ERR"), WriteLine(msg));
    ReadWrittenLine(s.replies, s.pos, "ERR");
    DecodeEncode("ERR");
    ReadWrittenLine(s.replies, s.pos + |WriteLine("ERR")|, msg);
  }

  /** open of a valid server name and mode sends OPEN, the lower-cased
      mode and the path on the new socket. */
  lemma OpenConnects(c: Client, servername: string, path: string, mode: string, replies: seq<byte>)
    requires Coherent(c) && c.current.None?
    requires ParseServer(servername).Ok? && ParseInt(ParseServer(servername).value.1).Ok?
    requires 0 <= ParseInt(ParseServer(servername).value.1).value <= 65535
    requires IsMode(ToLower(mode))
    ensures OpenAt(c, servername, path, mode, true, replies) ==
      OpenOn(c.(sock := Some(Sock(replies, 0, []))), path, ToLower(mode))
  {
  }

  /** A mode other than ro, wo or rw is refused only once the socket is
      open, and that socket stays open with nothing sent on it. */
  lemma OpenBadModeLeavesSocket(c: Client, servername: string, path: string, mode: string, replies: seq<byte>)
    requires Coherent(c) && c.current.None?
    requires ParseServer(servername).Ok? && ParseInt(ParseServer(servername).value.1).Ok?
    requires 0 <= ParseInt(ParseServer(servername).value.1).value <= 65535
    requires !IsMode(ToLower(mode))
    ensures OpenAt(c, servername, path, mode, true, replies) ==
      Outcome(Err(IllegalArgument), c.(sock := Some(Sock(replies, 0, []))))
  {
  }

  /** The reply "OK", a length line and that many bytes, as the client
      reads it: the status acknowledges, the length line comes back as
      written, and the bytes follow. */
  lemma OpenReplyWire(s: Sock, lenText: string, data: seq<byte>)
    requires '\n' !in lenText
    requires var f := OK_BYTES + WriteLine(lenText) + data;
      s.pos + |f| <= |s.replies| && s.replies[s.pos..s.pos + |f|] == f
    ensures var s2 := s.(pos := s.pos + |OK_BYTES|); var s3 := s2.(pos := s2.pos + |WriteLine(lenText)|);
      AckIn(s) == Got(Ok(()), s2) && ReadLineIn(s2) == Got(Ok(lenText), s3) &&
      s3.pos + |data| <= |s3.replies| && s3.replies[s3.pos..s3.pos + |data|] == data
  {
    var ln := WriteLine(lenText);
    assert |OK_BYTES + ln| == |OK_BYTES| + |ln|;
    SplitSlice(s.replies, s.pos, OK_BYTES + ln, data);
    SplitSlice(s.replies, s.pos, OK_BYTES, ln);
    AckOk(s);
    ReadLineWritten(s.(pos := s.pos + |OK_BYTES|), lenText);
  }

  /** An open whose status is "OK", whose length line parses to a
      length and whose bytes all arrive gives a clean handler on exactly
      those bytes; the socket stays open after them. */
  lemma OpenReplyRead(c: Client, path: string, mode: string, lenText: string, data: seq<byte>, s2: Sock, s3: Sock)
    requires Coherent(c) && c.sock.Some? && c.current.None? && IsMode(mode)
    requires ParseInt(lenText) == Ok(|data|)
    requires AckIn(c.sock.value.(sent := c.sock.value.sent + OpenRequest(mode, path))) == Got(Ok(()), s2)
    requires ReadLineIn(s2) == Got(Ok(lenText), s3)
    requires s3.pos + |data| <= |s3.replies| && s3.replies[s3.pos..s3.pos + |data|] == data
    ensures OpenOn(c, path, mode) ==
      Outcome(Ok(()), Client(Some(Handle(path, mode, data, false)),
                             Some(s3.(pos := s3.pos + |data|)),
                             c.log + OpenRequest(mode, path)))
  {
    OpenOnAck(c, path, mode, s2);
    OpenBodyReads(Send(c, OpenRequest(mode, path)).(sock := Some(s2)), path, mode, lenText, data, s3);
  }

  lemma OpenBodyReads(c: Client, path: string, mode: string, lenText: string, data: seq<byte>, s3: Sock)
    requires Coherent(c) && c.sock.Some? && c.current.None?
    requires ParseInt(lenText) == Ok(|data|)
    requires ReadLineIn(c.sock.value) == Got(Ok(lenText), s3)
    requires s3.pos + |data| <= |s3.replies| && s3.replies[s3.pos..s3.pos + |data|] == data
    ensures OpenBody(c, path, mode) ==
      Outcome(Ok(()), Client(Some(Handle(path, mode, data, false)), Some(s3.(pos := s3.pos + |data|)), c.log))
  {
    OpenBodyLine(c, path, mode, lenText, s3);
    OpenContentOf(c.(sock := Some(s3)), path, mode, lenText, data);
  }

  /** The two together: an open answered by "OK", a length line and
      that many bytes. */
  lemma OpenReceives(c: Client, path: string, mode: string, lenText: string, data: seq<byte>)
    requires Coherent(c) && c.sock.Some? && c.current.None? && IsMode(mode)
    requires '\n' !in lenText && ParseInt(lenText) == Ok(|data|)
    requires var s := c.sock.value; var f := OK_BYTES + WriteLine(lenText) + data;
      s.pos + |f| <= |s.replies| && s.replies[s.pos..s.pos + |f|] == f
    ensures var s := c.sock.value; var f := OK_BYTES + WriteLine(lenText) + data;
      OpenOn(c, path, mode) ==
      Outcome(Ok(()), Client(Some(Handle(path, mode, data, false)),
                             Some(Sock(s.replies, s.pos + |f|, s.sent + OpenRequest(mode, path))),
                             c.log + OpenRequest(mode, path)))
  {
    var s := c.sock.value;
    var s1 := s.(sent := s.sent + OpenRequest(mode, path));
    var s2 := s1.(pos := s.pos + |OK_BYTES|);
    var s3 := s2.(pos := s2.pos + |WriteLine(lenText)|);
    OpenReplyWire(s1, lenText, data);
    OpenReplyRead(c, path, mode, lenText, data, s2, s3);
  }

  lemma OpenOnAck(c: Client, path: string, mode: string, s2: Sock)
    requires Coherent(c) && c.sock.Some? && c.current.None? && IsMode(mode)
    requires AckIn(Send(c, OpenRequest(mode, path)).sock.value) == Got(Ok(()), s2)
    ensures OpenOn(c, path, mode) == OpenBody(Send(c, OpenRequest(mode, path)).(sock := Some(s2)), path, mode)
  {
  }

  /** A line that was written is read back as that string. */
  lemma ReadLineWritten(s: Sock, text: string)
    requires '\n' !in text
    requires s.pos + |WriteLine(text)| <= |s.replies| && s.replies[s.pos..s.pos + |WriteLine(text)|] == WriteLine(text)
    ensures ReadLineIn(s) == Got(Ok(text), s.(pos := s.pos + |WriteLine(text)|))
  {
    ReadWrittenLine(s.replies, s.pos, text);
    DecodeEncode(text);
  }

  lemma OpenBodyLine(c: Client, path: string, mode: string, text: string, s1: Sock)
    requires Coherent(c) && c.sock.Some? && c.current.None?
    requires ReadLineIn(c.sock.value) == Got(Ok(text), s1)
    ensures OpenBody(c, path, mode) == OpenContent(c.(sock := Some(s1)), path, mode, text)
  {
  }

  lemma OpenContentOf(c: Client, path: string, mode: string, text: string, data: seq<byte>)
    requires Coherent(c) && c.sock.Some? && c.current.None?
    requires ParseInt(text) == Ok(|data|)
    requires var s := c.sock.value; s.pos + |data| <= |s.replies| && s.replies[s.pos..s.pos + |data|] == data
    ensures var s := c.sock.value;
      OpenContent(c, path, mode, text) ==
      Outcome(Ok(()), c.(current := Some(Handle(path, mode, data, false)), sock := Some(s.(pos := s.pos + |data|))))
  {
  }

  /** The reply "ERR" and a message refuses the open and closes the
      socket. */
  lemma OpenRefused(c: Client, path: string, mode: string, msg: string)
    requires Coherent(c) && c.sock.Some? && c.current.None? && IsMode(mode) && '\n' !in msg
    requires var s := c.sock.value; var e := WriteLine("ERR") + WriteLine(msg);
      s.pos + |e| <= |s.replies| && s.replies[s.pos..s.pos + |e|] == e
    ensures OpenOn(c, path, mode) == Outcome(Err(IOFailure), Client(None, None, c.log + OpenRequest(mode, path)))
  {
    var c1 := Send(c, OpenRequest(mode, path));
    AckErr(c1.sock.value, msg);
  }

  /** A close whose exchanges the server acknowledges ends with no file
      open and the socket closed. */
  lemma CloseAcknowledged(c: Client)
    requires Coherent(c) && c.current.Some?
    requires var s := c.sock.value;
      s.pos + |OK_BYTES| <= |s.replies| && s.replies[s.pos..s.pos + |OK_BYTES|] == OK_BYTES
    requires var s := c.sock.value; var h := c.current.value;
      h.dirty && h.mode != "ro" ==>
        s.pos + 2 * |OK_BYTES| <= |s.replies| &&
        s.replies[s.pos + |OK_BYTES|..s.pos + 2 * |OK_BYTES|] == OK_BYTES
    ensures CloseAt(c).result.Ok?
  {
    var s := c.sock.value;
    var h := c.current.value;
    if h.dirty && h.mode != "ro" {
      var c1 := Send(c, WritebackRequest(h));
      AckOk(c1.sock.value);
      WritebackAcked(c, c1.sock.value.(pos := s.pos + |OK_BYTES|));
      var w := WritebackAt(c);
      AckOk(Send(w.client, CloseRequest(h.path)).sock.value);
    } else {
      AckOk(Send(c, CloseRequest(h.path)).sock.value);
    }
  }

  lemma WritebackAcked(c: Client, s2: Sock)
    requires Coherent(c) && c.current.Some?
    requires AckIn(Send(c, WritebackRequest(c.current.value)).sock.value) == Got(Ok(()), s2)
    ensures WritebackAt(c) ==
      Outcome(Ok(()), Client(Some(c.current.value.(dirty := false)), Some(s2), c.log + WritebackRequest(c.current.value)))
  {
  }
}
