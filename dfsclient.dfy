/** DFSClient.open: lock on the server, compare the server's and the
    cache's times, download when the cache is missing or stale, open the
    cached file; once the lock is held, an IOException releases it. */
module DfsClient {
  import opened Bytes
  import opened Failures
  import opened Utf8
  import opened Paths
  import opened Stores
  import opened SocketIO
  import opened NetClient
  import opened ClientCache
  import opened FileHandles

  /** The download decision of open, as its nested ifs take it: no file
      on the server means nothing to fetch; otherwise fetch when the cache
      has none or an older one. */
  function NeedDownload(serverMtime: int, localMtime: int): bool {
    if serverMtime == -1 then false
    else if localMtime == -1 then true
    else serverMtime > localMtime
  }

  /** What open leaves: the cached file its handle is opened on, the link
      and the cache. */
  datatype Opening = Opening(result: Result<Path>, link: Link, cache: Store)

  /** The part of open inside the try block, after the lock is granted. */
  function OpenBody(replies: seq<byte>, l: Link, root: Path, cache: Store, path: string, mode: string,
                    now: int): Opening
    requires PathSendable(path)
  {
    var meta := GetMetadataAt(replies, l, path);
    if meta.result.Err? then Opening(Err(meta.result.error), meta.link, cache)
    else
      match CacheLastModified(root, cache, path)
      case Err(e) => Opening(Err(e), meta.link, cache)
      case Ok(local) =>
        if NeedDownload(meta.result.value, local) then
          var dl := DownloadFileAt(replies, meta.link, path);
          if dl.result.Err? then Opening(Err(dl.result.error), dl.link, cache)
          else
            var w := WriteFileIn(root, cache, path, dl.result.value, now);
            if w.result.Err? then Opening(Err(w.result.error), dl.link, cache)
            else
              var o := OpenFileIn(root, w.store, path, mode, now);
              Opening(o.result, dl.link, o.store)
        else
          var o := OpenFileIn(root, cache, path, mode, now);
          Opening(o.result, meta.link, o.store)
  }

  /** open.  Not connected: an IOException before anything is sent.  A
      refused lock: an IOException, nothing more sent.  An IOException in
      the try block: one UNLOCK, whose own IOException is swallowed, then
      the original exception. */
  function OpenAt(replies: seq<byte>, l: Link, root: Path, cache: Store, path: string, mode: string,
                  now: int): Opening
    requires PairSendable(path, mode) && PathSendable(path)
  {
    if l.socket != Open then Opening(Err(IOFailure), l, cache)
    else
      var lock := RequestLockAt(replies, l, path, mode);
      if lock.result.Err? then Opening(Err(lock.result.error), lock.link, cache)
      else if !lock.result.value then Opening(Err(IOFailure), lock.link, cache)
      else
        var body := OpenBody(replies, lock.link, root, cache, path, mode, now);
        if body.result.Err? && body.result.error.IsIOException() then
          var u := RequestUnlockAt(replies, body.link, path, mode);
          if u.result.Err? && !u.result.error.IsIOException() then Opening(Err(u.result.error), u.link, body.cache)
          else Opening(body.result, u.link, body.cache)
        else body
  }

  class DFSClient {
    const cacheManager: ClientCacheManager
    const networkClient: NetworkClient

    ghost predicate Valid()
      reads this, networkClient, networkClient.input
    {
      networkClient.Valid()
    }

    constructor (cache: ClientCacheManager, net: NetworkClient)
      requires net.Valid()
      ensures cacheManager == cache && networkClient == net && Valid()
    {
      cacheManager := cache;
      networkClient := net;
    }

    /** The try block of open. */
    method OpenLocked(path: string, mode: string, now: int) returns (r: Result<RandomAccessFile>)
      requires Valid() && PathSendable(path)
      modifies cacheManager, networkClient.output, networkClient.input
      ensures Valid()
      ensures var o := OpenBody(networkClient.input.data, old(networkClient.State()), cacheManager.cacheDir,
                                old(cacheManager.files), path, mode, now);
        networkClient.State() == o.link && cacheManager.files == o.cache &&
        (r.Ok? <==> o.result.Ok?) && (r.Err? ==> r.error == o.result.error)
      ensures r.Ok? ==>
        fresh(r.value) && r.value.cache == cacheManager && r.value.pointer == 0 && r.value.open &&
        r.value.writable == RafWritable(mode)
    {
      var serverMtime := networkClient.GetMetadata(path);
      if serverMtime.Err? {
        return Err(serverMtime.error);
      }
      var localMtime := cacheManager.GetLastModified(path);
      if localMtime.Err? {
        return Err(localMtime.error);
      }
      var needDownload := false;
      if serverMtime.value == -1 {
      } else {
        if localMtime.value == -1 {
          needDownload := true;
        } else if serverMtime.value > localMtime.value {
          needDownload := true;
        }
      }
      if needDownload {
        var data := networkClient.DownloadFile(path);
        if data.Err? {
          return Err(data.error);
        }
        var updated := cacheManager.UpdateCache(path, data.value, now);
        if updated.Err? {
          return Err(updated.error);
        }
      }
      r := cacheManager.OpenFile(path, mode, now);
    }

    method Open(path: string, mode: string, now: int) returns (r: Result<DFSFileHandle>)
      requires Valid() && PairSendable(path, mode) && PathSendable(path)
      modifies cacheManager, networkClient.output, networkClient.input
      ensures Valid()
      ensures var o := OpenAt(networkClient.input.data, old(networkClient.State()), cacheManager.cacheDir,
                              old(cacheManager.files), path, mode, now);
        networkClient.State() == o.link && cacheManager.files == o.cache &&
        (r.Ok? <==> o.result.Ok?) && (r.Err? ==> r.error == o.result.error)
      ensures r.Ok? ==>
        fresh(r.value) && fresh(r.value.raf) && r.value.path == path && r.value.mode == mode &&
        r.value.networkClient == networkClient && r.value.cacheManager == cacheManager &&
        !r.value.isDirty && r.value.raf.cache == cacheManager && r.value.raf.pointer == 0 &&
        r.value.raf.open && r.value.raf.writable == RafWritable(mode) && r.value.Valid()
    {
      if !networkClient.IsConnected() {
        return Err(IOFailure);
      }
      var locked := networkClient.RequestLock(path, mode);
      if locked.Err? {
        return Err(locked.error);
      }
      if !locked.value {
        return Err(IOFailure);
      }
      var raf := OpenLocked(path, mode, now);
      if raf.Err? {
        if raf.error.IsIOException() {
          var unlocked := networkClient.RequestUnlock(path, mode);
          if unlocked.Err? && !unlocked.error.IsIOException() {
            return Err(unlocked.error);
          }
        }
        return Err(raf.error);
      }
      var handle := new DFSFileHandle(path, mode, raf.value, networkClient, cacheManager);
      r := Ok(handle);
    }
  }

  // ---------------------------------------------------------------------
  // Properties

  /** The download decision in closed form. */
  lemma NeedDownloadIff(serverMtime: int, localMtime: int)
    ensures NeedDownload(serverMtime, localMtime) <==>
      serverMtime != -1 && (localMtime == -1 || serverMtime > localMtime)
  {
  }

  /** open on a client that is not connected sends nothing and changes
      nothing. */
  lemma OpenNotConnected(replies: seq<byte>, l: Link, root: Path, cache: Store, path: string, mode: string,
                         now: int)
    requires PairSendable(path, mode) && PathSendable(path) && l.socket != Open
    ensures OpenAt(replies, l, root, cache, path, mode, now) == Opening(Err(IOFailure), l, cache)
  {
  }

  /** A refused lock is an IOException after LOCK_REQ alone: no GET_META,
      GET_FILE or UNLOCK is sent, and the cache is untouched. */
  lemma OpenLockRefused(replies: seq<byte>, l: Link, root: Path, cache: Store, path: string, mode: string,
                        now: int)
    requires PairSendable(path, mode) && PathSendable(path) && l.socket == Open
    requires RequestLockAt(replies, l, path, mode).result == Ok(false)
    ensures var o := OpenAt(replies, l, root, cache, path, mode, now);
      o.result == Err(IOFailure) && o.cache == cache && o.link.sent == l.sent + Frame(LockPacket(path, mode))
  {
  }

  /** After the lock is granted, an IOException inside the try block sends
      exactly one UNLOCK after whatever the block sent, and the original
      exception is the one open throws, unless that UNLOCK's reply cannot
      even be received as a packet of a known command. */
  lemma OpenFailureUnlocks(replies: seq<byte>, l: Link, root: Path, cache: Store, path: string, mode: string,
                           now: int)
    requires PairSendable(path, mode) && PathSendable(path) && l.socket == Open
    requires RequestLockAt(replies, l, path, mode).result == Ok(true)
    requires var lock := RequestLockAt(replies, l, path, mode);
      var body := OpenBody(replies, lock.link, root, cache, path, mode, now);
      body.result.Err? && body.result.error.IsIOException()
    ensures var lock := RequestLockAt(replies, l, path, mode);
      var body := OpenBody(replies, lock.link, root, cache, path, mode, now);
      var u := RequestUnlockAt(replies, body.link, path, mode);
      var o := OpenAt(replies, l, root, cache, path, mode, now);
      o.link == u.link && o.link.sent == body.link.sent + Frame(UnlockPacket(path, mode)) &&
      o.cache == body.cache &&
      (u.result.Ok? || u.result.error.IsIOException() ==> o.result == body.result)
  {
    var lock := RequestLockAt(replies, l, path, mode);
    var body := OpenBody(replies, lock.link, root, cache, path, mode, now);
    assert lock.link.socket == Open;
    assert body.link.socket == Open by {
      OpenBodyKeepsSocket(replies, lock.link, root, cache, path, mode, now);
    }
  }

  /** An exception that is not an IOException (the IllegalArgumentException
      of a NUL in the path, a BufferUnderflowException from a short
      META_RES) is not caught: no UNLOCK is sent and the lock stays held. */
  lemma OpenOtherFailureKeepsLock(replies: seq<byte>, l: Link, root: Path, cache: Store, path: string,
                                  mode: string, now: int)
    requires PairSendable(path, mode) && PathSendable(path) && l.socket == Open
    requires RequestLockAt(replies, l, path, mode).result == Ok(true)
    requires var lock := RequestLockAt(replies, l, path, mode);
      var body := OpenBody(replies, lock.link, root, cache, path, mode, now);
      body.result.Err? && !body.result.error.IsIOException()
    ensures var lock := RequestLockAt(replies, l, path, mode);
      OpenAt(replies, l, root, cache, path, mode, now) == OpenBody(replies, lock.link, root, cache, path, mode, now)
  {
  }

  /** The requests of the try block leave the socket open. */
  lemma OpenBodyKeepsSocket(replies: seq<byte>, l: Link, root: Path, cache: Store, path: string, mode: string,
                            now: int)
    requires PathSendable(path) && l.socket == Open
    ensures OpenBody(replies, l, root, cache, path, mode, now).link.socket == Open
  {
  }

  /** A successful open got the lock and is what the try block made of
      the link after LOCK_REQ. */
  lemma OpenAtOk(replies: seq<byte>, l: Link, root: Path, cache: Store, path: string, mode: string,
                 now: int)
    requires PairSendable(path, mode) && PathSendable(path)
    requires OpenAt(replies, l, root, cache, path, mode, now).result.Ok?
    ensures var lock := RequestLockAt(replies, l, path, mode);
      l.socket == Open && lock.result == Ok(true) &&
      lock.link.sent == l.sent + Frame(LockPacket(path, mode)) &&
      OpenAt(replies, l, root, cache, path, mode, now) == OpenBody(replies, lock.link, root, cache, path, mode, now)
  {
  }

  /** A successful try block: GET_META, then GET_FILE exactly when the
      download decision says so; the downloaded bytes go into the cache
      before the file is opened. */
  lemma OpenBodyOk(replies: seq<byte>, l: Link, root: Path, cache: Store, path: string, mode: string,
                   now: int)
    requires PathSendable(path)
    requires OpenBody(replies, l, root, cache, path, mode, now).result.Ok?
    ensures var meta := GetMetadataAt(replies, l, path);
      var local := CacheLastModified(root, cache, path);
      var o := OpenBody(replies, l, root, cache, path, mode, now);
      meta.result.Ok? && local.Ok? && l.socket == Open &&
      (NeedDownload(meta.result.value, local.value) ==>
         var dl := DownloadFileAt(replies, meta.link, path);
         var w := WriteFileIn(root, cache, path, dl.result.value, now);
         dl.result.Ok? && w.result.Ok? &&
         o.link == dl.link && o.link.sent == l.sent + Frame(MetaPacket(path)) + Frame(FilePacket(path)) &&
         o.result == OpenFileIn(root, w.store, path, mode, now).result &&
         o.cache == OpenFileIn(root, w.store, path, mode, now).store) &&
      (!NeedDownload(meta.result.value, local.value) ==>
         o.link == meta.link && o.link.sent == l.sent + Frame(MetaPacket(path)) &&
         o.result == OpenFileIn(root, cache, path, mode, now).result &&
         o.cache == OpenFileIn(root, cache, path, mode, now).store)
  {
    var meta := GetMetadataAt(replies, l, path);
    assert l.socket == Open;
    assert meta.link.sent == l.sent + Frame(MetaPacket(path));
  }

  /** A successful open sends LOCK_REQ, GET_META and, only when the cache
      is missing or stale, GET_FILE, in that order and nothing else. */
  lemma OpenSucceeds(replies: seq<byte>, l: Link, root: Path, cache: Store, path: string, mode: string,
                     now: int)
    requires PairSendable(path, mode) && PathSendable(path)
    requires OpenAt(replies, l, root, cache, path, mode, now).result.Ok?
    ensures var lock := RequestLockAt(replies, l, path, mode);
      var meta := GetMetadataAt(replies, lock.link, path);
      var need := NeedDownload(meta.result.value, CacheLastModified(root, cache, path).value);
      lock.result == Ok(true) && meta.result.Ok? && CacheLastModified(root, cache, path).Ok? &&
      OpenAt(replies, l, root, cache, path, mode, now).link.sent ==
        l.sent + Frame(LockPacket(path, mode)) + Frame(MetaPacket(path)) +
        (if need then Frame(FilePacket(path)) else [])
  {
    OpenAtOk(replies, l, root, cache, path, mode, now);
    var lock := RequestLockAt(replies, l, path, mode);
    OpenBodyOk(replies, lock.link, root, cache, path, mode, now);
  }

  /** Whether the try block, run on link `l`, fetches the file: both times
      were read and the server's is newer or the cache has none. */
  function Downloads(replies: seq<byte>, l: Link, root: Path, cache: Store, path: string): bool
    requires PathSendable(path)
  {
    var meta := GetMetadataAt(replies, l, path);
    var local := CacheLastModified(root, cache, path);
    meta.result.Ok? && local.Ok? && NeedDownload(meta.result.value, local.value)
  }

  /** The cache a successful try block leaves, for the file it opened. */
  lemma OpenBodyCache(replies: seq<byte>, l: Link, root: Path, cache: Store, path: string, mode: string,
                      now: int)
    requires PathSendable(path)
    requires OpenBody(replies, l, root, cache, path, mode, now).result.Ok?
    ensures var o := OpenBody(replies, l, root, cache, path, mode, now);
      var meta := GetMetadataAt(replies, l, path);
      var need := NeedDownload(meta.result.value, CacheLastModified(root, cache, path).value);
      var p := o.result.value;
      ResolveUnder(root, path) == Ok(p) && p in o.cache &&
      (need ==> DownloadFileAt(replies, meta.link, path).result == Ok(o.cache[p].content)) &&
      (!need ==> o.cache[p] == if p in cache then cache[p] else FileEntry(now, []))
  {
    OpenBodyOk(replies, l, root, cache, path, mode, now);
    var meta := GetMetadataAt(replies, l, path);
    var p := ResolveUnder(root, path).value;
    if NeedDownload(meta.result.value, CacheLastModified(root, cache, path).value) {
      var dl := DownloadFileAt(replies, meta.link, path);
      var w := WriteFileIn(root, cache, path, dl.result.value, now);
      assert w.store == cache[p := FileEntry(now, dl.result.value)];
      OpenFileEffect(root, w.store, path, mode, now);
    } else {
      OpenFileEffect(root, cache, path, mode, now);
    }
  }

  /** After a successful open the cached file holds the server's bytes
      when they were downloaded, and otherwise what it held before (or
      nothing, when it was just created empty). */
  lemma OpenCacheContent(replies: seq<byte>, l: Link, root: Path, cache: Store, path: string, mode: string,
                         now: int)
    requires PairSendable(path, mode) && PathSendable(path)
    requires OpenAt(replies, l, root, cache, path, mode, now).result.Ok?
    ensures var o := OpenAt(replies, l, root, cache, path, mode, now);
      var lock := RequestLockAt(replies, l, path, mode);
      var meta := GetMetadataAt(replies, lock.link, path);
      var need := Downloads(replies, lock.link, root, cache, path);
      var p := o.result.value;
      ResolveUnder(root, path) == Ok(p) && p in o.cache &&
      (need ==> DownloadFileAt(replies, meta.link, path).result == Ok(o.cache[p].content)) &&
      (!need ==> o.cache[p] == if p in cache then cache[p] else FileEntry(now, []))
  {
    OpenAtOk(replies, l, root, cache, path, mode, now);
    var lock := RequestLockAt(replies, l, path, mode);
    var o := OpenAt(replies, l, root, cache, path, mode, now);
    assert o == OpenBody(replies, lock.link, root, cache, path, mode, now);
    OpenBodyCache(replies, lock.link, root, cache, path, mode, now);
  }
}
