/** An open DFS file (DFSFileHandle): reads and writes go to the cached
    copy through its RandomAccessFile; close sends the whole copy back
    when it was changed, then releases the server's lock. */
module FileHandles {
  import opened Bytes
  import opened Failures
  import opened Utf8
  import opened Paths
  import opened Stores
  import opened SocketIO
  import opened NetClient
  import opened ClientCache

  /** The modes in which close may upload. */
  predicate UploadMode(mode: string) {
    mode == "rw" || mode == "wo"
  }

  /** `catch (IOException e) { throw new IOException(..., e); }`: an
      IOException becomes a plain one; anything else passes through. */
  function Rethrown(e: Error): (f: Error)
    ensures e.IsIOException() <==> f == IOFailure
    ensures !e.IsIOException() ==> f == e
  {
    if e.IsIOException() then IOFailure else e
  }

  /** The upload step of close: only a dirty handle in mode "rw" or "wo"
      reads its whole cached file and sends it with PUT_FILE. */
  function UploadStep(replies: seq<byte>, l: Link, root: Path, files: Store, path: string, mode: string,
                      dirty: bool): (c: Call<()>)
    ensures !(dirty && UploadMode(mode)) ==> c == Call(Ok(()), l)
    ensures c.result.Err? && c.result.error.IsIOException() ==> c.result.error == IOFailure
  {
    if !(dirty && UploadMode(mode)) then Call(Ok(()), l)
    else
      match ReadFileIn(root, files, path)
      case Err(e) => Call(Err(Rethrown(e)), l)
      case Ok(data) =>
        if !UploadSendable(path, data) then Call(Err(OutOfMemory), l)
        else
          var u := UploadFileAt(replies, l, path, data);
          if u.result.Err? then Call(Err(Rethrown(u.result.error)), u.link) else u
  }

  /** close: the local file first (a failure there ends close), then the
      upload, then UNLOCK, which is sent only when the upload succeeded
      or was not needed. */
  function CloseAt(replies: seq<byte>, l: Link, root: Path, files: Store, path: string, mode: string,
                   dirty: bool, wasOpen: bool, closeFails: bool): Call<()>
    requires PairSendable(path, mode)
  {
    if closeFails && wasOpen then Call(Err(IOFailure), l)
    else
      var u := UploadStep(replies, l, root, files, path, mode, dirty);
      if u.result.Err? then u
      else RequestUnlockAt(replies, u.link, path, mode)
  }

  class DFSFileHandle {
    const path: string
    const mode: string
    const raf: RandomAccessFile
    const networkClient: NetworkClient
    const cacheManager: ClientCacheManager
    var isDirty: bool

    ghost predicate Valid()
      reads this, networkClient, networkClient.input
    {
      networkClient.Valid() && PairSendable(path, mode)
    }

    constructor (p: string, m: string, file: RandomAccessFile, net: NetworkClient, cache: ClientCacheManager)
      ensures path == p && mode == m && raf == file && networkClient == net && cacheManager == cache
      ensures !isDirty
    {
      path := p;
      mode := m;
      raf := file;
      networkClient := net;
      cacheManager := cache;
      isDirty := false;
    }

    /** read(length): refused in mode "wo"; `null` (None) at the end of
        the file. */
    method Read(length: int) returns (r: Result<Option<seq<byte>>>)
      modifies raf
      ensures mode == "wo" ==> r == Err(IOFailure) && raf.pointer == old(raf.pointer)
      ensures mode != "wo" && length < 0 ==> r == Err(NegativeArraySize) && raf.pointer == old(raf.pointer)
      ensures mode != "wo" && length == 0 ==> r == Ok(Some([])) && raf.pointer == old(raf.pointer)
      ensures mode != "wo" && length > 0 && !old(raf.open) ==> r == Err(IOFailure) && raf.pointer == old(raf.pointer)
      ensures mode != "wo" && length >= 0 && old(raf.open) ==>
        r == Ok(ReadAt(raf.Content(), old(raf.pointer), length)) &&
        raf.pointer == old(raf.pointer) + (if r.value.Some? then |r.value.value| else 0)
      ensures raf.open == old(raf.open)
    {
      if mode == "wo" {
        return Err(IOFailure);
      }
      if length < 0 {
        return Err(NegativeArraySize);
      }
      r := raf.Read(length);
    }

    /** write(data): refused in mode "ro"; otherwise written at the pointer
        and the handle marked dirty, even by empty data, which the file
        accepts whatever its state without changing. */
    method Write(data: seq<byte>, now: int) returns (r: Result<()>)
      modifies this, raf, cacheManager
      requires raf.cache == cacheManager
      ensures mode == "ro" ==> r == Err(IOFailure)
      ensures r.Err? ==>
        r.error == IOFailure && isDirty == old(isDirty) && raf.pointer == old(raf.pointer) &&
        cacheManager.files == old(cacheManager.files)
      ensures r.Ok? <==> mode != "ro" && (|data| == 0 || (old(raf.open) && raf.writable))
      ensures r.Ok? ==> isDirty
      ensures r.Ok? && |data| == 0 ==> raf.pointer == old(raf.pointer) && cacheManager.files == old(cacheManager.files)
      ensures r.Ok? && |data| > 0 ==>
        raf.pointer == old(raf.pointer) + |data| &&
        cacheManager.files == old(cacheManager.files)[raf.file := FileEntry(now, Overwrite(old(raf.Content()), old(raf.pointer), data))]
      ensures raf.open == old(raf.open)
    {
      if mode == "ro" {
        return Err(IOFailure);
      }
      r := raf.Write(data, now);
      if r.Ok? {
        isDirty := true;
      }
    }

    /** seek(pos). */
    method Seek(pos: int) returns (r: Result<()>)
      modifies raf
      ensures r.Ok? <==> old(raf.open) && pos >= 0
      ensures r.Ok? ==> raf.pointer == pos
      ensures r.Err? ==> r.error == IOFailure && raf.pointer == old(raf.pointer)
      ensures raf.open == old(raf.open)
    {
      r := raf.Seek(pos);
    }

    /** close.  `closeFails` says whether closing the local file fails. */
    method Close(closeFails: bool) returns (r: Result<()>)
      requires Valid()
      modifies raf, networkClient.output, networkClient.input
      ensures Valid() && !raf.open
      ensures var c := CloseAt(networkClient.input.data, old(networkClient.State()), cacheManager.cacheDir,
                               cacheManager.files, path, mode, isDirty, old(raf.open), closeFails);
        r == c.result && networkClient.State() == c.link
    {
      var closed := raf.Close(closeFails);
      if closed.Err? {
        return Err(closed.error);
      }
      if isDirty && (mode == "rw" || mode == "wo") {
        var allData := cacheManager.ReadAllFromCache(path);
        if allData.Err? {
          return Err(Rethrown(allData.error));
        }
        if !UploadSendable(path, allData.value) {
          return Err(OutOfMemory);
        }
        var uploaded := networkClient.UploadFile(path, allData.value);
        if uploaded.Err? {
          return Err(Rethrown(uploaded.error));
        }
      }
      r := networkClient.RequestUnlock(path, mode);
    }
  }

  // ---------------------------------------------------------------------
  // Properties

  /** A clean handle, or one in mode "ro", uploads nothing: close is just
      the UNLOCK once the local file is closed. */
  lemma CleanCloseOnlyUnlocks(replies: seq<byte>, l: Link, root: Path, files: Store, path: string, mode: string,
                              dirty: bool, wasOpen: bool, closeFails: bool)
    requires PairSendable(path, mode) && !(dirty && UploadMode(mode)) && !(closeFails && wasOpen)
    ensures CloseAt(replies, l, root, files, path, mode, dirty, wasOpen, closeFails) ==
      RequestUnlockAt(replies, l, path, mode)
  {
  }

  /** A dirty handle in mode "rw" or "wo" on a connected client sends the
      file's whole cached content with PUT_FILE first, and UNLOCK after
      it only if the upload succeeded; a failed upload is an IOException
      and no UNLOCK is sent. */
  lemma DirtyCloseUploadsFirst(replies: seq<byte>, l: Link, root: Path, files: Store, path: string,
                               mode: string, wasOpen: bool, closeFails: bool)
    requires PairSendable(path, mode) && UploadMode(mode) && !(closeFails && wasOpen) && l.socket == Open
    requires ReadFileIn(root, files, path).Ok? && UploadSendable(path, ReadFileIn(root, files, path).value)
    ensures var data := ReadFileIn(root, files, path).value;
      var u := UploadFileAt(replies, l, path, data);
      var c := CloseAt(replies, l, root, files, path, mode, true, wasOpen, closeFails);
      u.link.sent == l.sent + Frame(PutPacket(path, data)) &&
      (u.result.Ok? ==> c == RequestUnlockAt(replies, u.link, path, mode)) &&
      (u.result.Err? ==> c.link == u.link && c.result.Err? && c.result.error == Rethrown(u.result.error))
  {
  }

  /** A failure closing the local file ends close before anything is
      sent: no upload and no UNLOCK. */
  lemma CloseFailureSendsNothing(replies: seq<byte>, l: Link, root: Path, files: Store, path: string,
                                 mode: string, dirty: bool)
    requires PairSendable(path, mode)
    ensures CloseAt(replies, l, root, files, path, mode, dirty, true, true) == Call(Err(IOFailure), l)
  {
  }

  /** Whatever close does, it sends UNLOCK last or not at all: when it
      succeeds, the last frame it sent is the UNLOCK. */
  lemma CloseEndsWithUnlock(replies: seq<byte>, l: Link, root: Path, files: Store, path: string, mode: string,
                            dirty: bool, wasOpen: bool, closeFails: bool)
    requires PairSendable(path, mode)
    ensures var c := CloseAt(replies, l, root, files, path, mode, dirty, wasOpen, closeFails);
      c.result.Ok? ==>
        var f := Frame(UnlockPacket(path, mode));
        |f| <= |c.link.sent| && c.link.sent[|c.link.sent| - |f|..] == f
  {
    var c := CloseAt(replies, l, root, files, path, mode, dirty, wasOpen, closeFails);
    if c.result.Ok? {
      var u := UploadStep(replies, l, root, files, path, mode, dirty);
      var f := Frame(UnlockPacket(path, mode));
      assert c == RequestUnlockAt(replies, u.link, path, mode);
      assert u.link.socket == Open;
      assert c.link.sent == u.link.sent + f;
    }
  }
}
