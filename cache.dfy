/** The client's local cache (ClientCacheManager): files under an absolute
    cache directory, and the RandomAccessFile a handle reads and writes
    them through.  The cache files are the same Store map the server
    keeps; `now` stands for the operating system's clock. */
module ClientCache {
  import opened Bytes
  import opened Failures
  import opened Paths
  import opened Stores

  /** getLastModified: like the server's, but an IOException (a path
      outside the cache) reads as -1.  The InvalidPathException of a NUL
      in the path is not an IOException and escapes. */
  function CacheLastModified(root: Path, s: Store, rel: string): (r: Result<int>)
    ensures r.Err? <==> '\0' in rel
    ensures r.Err? ==> r.error == IllegalArgument
    ensures r.Ok? && r.value != -1 ==> ResolveUnder(root, rel).Ok? && ResolveUnder(root, rel).value in s
    ensures r.Ok? && ResolveUnder(root, rel).Ok? && ResolveUnder(root, rel).value in s ==>
      r.value == s[ResolveUnder(root, rel).value].mtime
  {
    match LastModifiedIn(root, s, rel)
    case Ok(t) => Ok(t)
    case Err(e) => if e.IsIOException() then Ok(-1) else Err(e)
  }

  /** The outcome of openFile: the file the RandomAccessFile is opened on,
      and the cache afterwards. */
  datatype Opened = Opened(result: Result<Path>, store: Store)

  /** openFile: a missing file is an error in mode "ro" and is created
      empty in any other mode; an existing file is left as it is. */
  function OpenFileIn(root: Path, s: Store, rel: string, mode: string, now: int): (o: Opened)
    ensures o.result.Ok? ==> o.result == ResolveUnder(root, rel) && o.result.value in o.store
    ensures o.result.Err? ==> o.store == s
    ensures ResolveUnder(root, rel).Err? ==> o.result == Err(ResolveUnder(root, rel).error)
  {
    match ResolveUnder(root, rel)
    case Err(e) => Opened(Err(e), s)
    case Ok(p) =>
      if p in s then Opened(Ok(p), s)
      else if mode == "ro" then Opened(Err(FileNotFound), s)
      else Opened(Ok(p), s[p := FileEntry(now, [])])
  }

  /** deleteCache: the file is gone; an IOException is swallowed, so a
      path outside the cache changes nothing, but a NUL escapes. */
  function DeleteIn(root: Path, s: Store, rel: string): (w: Written)
    ensures w.result.Ok? ==> w.store.Keys <= s.Keys
    ensures w.result.Err? ==> w.result.error == IllegalArgument && w.store == s
  {
    match ResolveUnder(root, rel)
    case Ok(p) => Written(Ok(()), s - {p})
    case Err(e) => if e.IsIOException() then Written(Ok(()), s) else Written(Err(e), s)
  }

  /** The RandomAccessFile mode openFile picks: "r" for "ro", otherwise "rw". */
  function RafWritable(mode: string): bool {
    mode != "ro"
  }

  /** The content after writing `data` at offset `at`: bytes before stay,
      a gap past the end reads as zeros, and bytes beyond the write stay. */
  function Overwrite(content: seq<byte>, at: nat, data: seq<byte>): seq<byte> {
    (if at <= |content| then content[..at] else content + Zeros(at - |content|))
    + data
    + (if at + |data| < |content| then content[at + |data|..] else [])
  }

  function Zeros(n: nat): (z: seq<byte>)
    ensures |z| == n && forall i | 0 <= i < n :: z[i] == 0
  {
    if n == 0 then [] else Zeros(n - 1) + [0]
  }

  /** raf.read into an `n`-byte buffer at `at`: -1 (None) at or past the
      end unless `n` is 0, otherwise the next min(n, remaining) bytes. */
  function ReadAt(content: seq<byte>, at: nat, n: nat): (r: Option<seq<byte>>)
    ensures r.None? <==> n > 0 && at >= |content|
    ensures n == 0 ==> r == Some([])
    ensures r.Some? && n > 0 ==>
      0 < |r.value| <= n && at + |r.value| <= |content| &&
      r.value == content[at..at + |r.value|] && (|r.value| < n ==> at + |r.value| == |content|)
  {
    if n == 0 then Some([])
    else if at >= |content| then None
    else if at + n <= |content| then Some(content[at..at + n])
    else Some(content[at..])
  }

  class ClientCacheManager {
    const cacheDir: Path
    var files: Store

    /** new ClientCacheManager(dir): the directory made absolute against
        the working directory `cwd`, but not normalized. */
    constructor (dir: Path, cwd: Path, existing: Store)
      requires cwd.absolute
      ensures cacheDir == ToAbsolute(dir, cwd) && files == existing
    {
      cacheDir := ToAbsolute(dir, cwd);
      files := existing;
    }

    /** resolvePath: only files under the cache directory. */
    function ResolvePath(relativePath: string): (r: Result<Path>)
      ensures r.Ok? ==> StartsWith(r.value, cacheDir) && IsNormal(r.value)
    {
      ResolveUnder(cacheDir, relativePath)
    }

    function GetLastModified(path: string): Result<int>
      reads this
    {
      CacheLastModified(cacheDir, files, path)
    }

    /** updateCache: the file is created or truncated and holds `data`. */
    method UpdateCache(path: string, data: seq<byte>, now: int) returns (r: Result<()>)
      modifies this
      ensures var w := WriteFileIn(cacheDir, old(files), path, data, now);
        r == w.result && files == w.store
    {
      var p := ResolvePath(path);
      if p.Err? {
        return Err(p.error);
      }
      files := files[p.value := FileEntry(now, data)];
      r := Ok(());
    }

    function ReadAllFromCache(path: string): Result<seq<byte>>
      reads this
    {
      ReadFileIn(cacheDir, files, path)
    }

    /** openFile: a RandomAccessFile on the resolved file, at offset 0. */
    method OpenFile(path: string, mode: string, now: int) returns (r: Result<RandomAccessFile>)
      modifies this
      ensures var o := OpenFileIn(cacheDir, old(files), path, mode, now);
        files == o.store && (r.Ok? <==> o.result.Ok?) && (r.Err? ==> r.error == o.result.error)
      ensures r.Ok? ==>
        fresh(r.value) && r.value.cache == this &&
        r.value.file == OpenFileIn(cacheDir, old(files), path, mode, now).result.value &&
        r.value.writable == RafWritable(mode) && r.value.pointer == 0 && r.value.open
    {
      var p := ResolvePath(path);
      if p.Err? {
        return Err(p.error);
      }
      if p.value !in files {
        if mode == "ro" {
          return Err(FileNotFound);
        }
        files := files[p.value := FileEntry(now, [])];
      }
      var raf := new RandomAccessFile(this, p.value, RafWritable(mode));
      r := Ok(raf);
    }

    method DeleteCache(path: string) returns (r: Result<()>)
      modifies this
      ensures var w := DeleteIn(cacheDir, old(files), path); r == w.result && files == w.store
    {
      var p := ResolvePath(path);
      if p.Err? {
        if p.error.IsIOException() {
          return Ok(());
        }
        return Err(p.error);
      }
      files := files - {p.value};
      r := Ok(());
    }
  }

  /** A RandomAccessFile on a cache file: writes go straight to the file
      in the cache, so what close later reads from the cache sees them. */
  class RandomAccessFile {
    const cache: ClientCacheManager
    const file: Path
    const writable: bool
    var pointer: nat
    var open: bool

    constructor (c: ClientCacheManager, f: Path, w: bool)
      ensures cache == c && file == f && writable == w && pointer == 0 && open
    {
      cache := c;
      file := f;
      writable := w;
      pointer := 0;
      open := true;
    }

    /** The file's bytes as the file now holds them. */
    function Content(): seq<byte>
      reads this, cache
    {
      if file in cache.files then cache.files[file].content else []
    }

    /** read(byte[n]): the bytes read; IOException once closed.  An empty
        buffer reads nothing and never looks at the file, so it succeeds
        even on a closed one. */
    method Read(n: nat) returns (r: Result<Option<seq<byte>>>)
      modifies this
      ensures n == 0 ==> r == Ok(Some([])) && pointer == old(pointer)
      ensures !old(open) && n > 0 ==> r == Err(IOFailure) && pointer == old(pointer)
      ensures old(open) ==>
        r == Ok(ReadAt(Content(), old(pointer), n)) &&
        pointer == old(pointer) + (if r.value.Some? then |r.value.value| else 0)
      ensures open == old(open)
    {
      if n == 0 {
        return Ok(Some([]));
      }
      if !open {
        return Err(IOFailure);
      }
      var got := ReadAt(Content(), pointer, n);
      if got.Some? {
        pointer := pointer + |got.value|;
      }
      r := Ok(got);
    }

    /** write(data): at the pointer, which then moves past the data; an
        IOException once closed or when opened with "r".  Empty data is
        written without looking at the file: it always succeeds and
        changes nothing, not even the modification time. */
    method Write(data: seq<byte>, now: int) returns (r: Result<()>)
      modifies this, cache
      ensures r.Ok? <==> |data| == 0 || (old(open) && writable)
      ensures r.Err? ==> r.error == IOFailure
      ensures r.Err? || |data| == 0 ==> pointer == old(pointer) && cache.files == old(cache.files)
      ensures r.Ok? && |data| > 0 ==>
        pointer == old(pointer) + |data| &&
        cache.files == old(cache.files)[file := FileEntry(now, Overwrite(old(Content()), old(pointer), data))]
      ensures open == old(open)
    {
      if |data| == 0 {
        return Ok(());
      }
      if !open || !writable {
        return Err(IOFailure);
      }
      cache.files := cache.files[file := FileEntry(now, Overwrite(Content(), pointer, data))];
      pointer := pointer + |data|;
      r := Ok(());
    }

    /** seek(pos): a negative offset or a closed file is an IOException. */
    method Seek(pos: int) returns (r: Result<()>)
      modifies this
      ensures r.Ok? <==> old(open) && pos >= 0
      ensures r.Err? ==> r.error == IOFailure && pointer == old(pointer)
      ensures r.Ok? ==> pointer == pos
      ensures open == old(open)
    {
      if !open || pos < 0 {
        return Err(IOFailure);
      }
      pointer := pos;
      r := Ok(());
    }

    /** close: closing twice is harmless.  `fails` says whether the
        operating system reports an error; the file is closed either way. */
    method Close(fails: bool) returns (r: Result<()>)
      modifies this
      ensures !open && pointer == old(pointer)
      ensures r == if fails && old(open) then Err(IOFailure) else Ok(())
    {
      r := if fails && open then Err(IOFailure) else Ok(());
      open := false;
    }
  }

  // ---------------------------------------------------------------------
  // Properties

  /** A write leaves the data at its offset, the bytes before it, and the
      bytes after it; the file grows only as far as the write reaches. */
  lemma OverwriteLayout(content: seq<byte>, at: nat, data: seq<byte>)
    ensures var w := Overwrite(content, at, data);
      |w| == (if at + |data| < |content| then |content| else at + |data|) &&
      w[at..at + |data|] == data &&
      (forall i | 0 <= i < at && i < |content| :: w[i] == content[i]) &&
      (forall i | |content| <= i < at :: w[i] == 0) &&
      (forall i | at + |data| <= i < |content| :: w[i] == content[i])
  {
    var w := Overwrite(content, at, data);
    var pre := if at <= |content| then content[..at] else content + Zeros(at - |content|);
    var post := if at + |data| < |content| then content[at + |data|..] else [];
    assert |pre| == at;
    assert w == pre + data + post;
    assert w[at..at + |data|] == data;
    forall i | 0 <= i < at && i < |content|
      ensures w[i] == content[i]
    {
      assert w[i] == pre[i];
    }
    forall i | |content| <= i < at
      ensures w[i] == 0
    {
      assert w[i] == pre[i] == Zeros(at - |content|)[i - |content|];
    }
    forall i | at + |data| <= i < |content|
      ensures w[i] == content[i]
    {
      assert w[i] == post[i - at - |data|];
    }
  }

  /** Reading back what was just written at the same offset gives it. */
  lemma ReadBackWrite(content: seq<byte>, at: nat, data: seq<byte>)
    requires |data| > 0
    ensures ReadAt(Overwrite(content, at, data), at, |data|) == Some(data)
  {
    OverwriteLayout(content, at, data);
  }

  /** After updateCache the file holds exactly the data; any other cached
      file is untouched. */
  lemma UpdateThenRead(root: Path, s: Store, rel: string, data: seq<byte>, now: int, other: Path)
    requires ResolveUnder(root, rel).Ok? && other != ResolveUnder(root, rel).value
    ensures var t := WriteFileIn(root, s, rel, data, now).store;
      ReadFileIn(root, t, rel) == Ok(data) &&
      CacheLastModified(root, t, rel) == Ok(now) &&
      (other in t <==> other in s) && (other in s ==> t[other] == s[other])
  {
    ReadAfterWrite(root, s, rel, data, now, rel);
    WriteOnlyThere(root, s, rel, data, now, other);
  }

  /** openFile: in mode "ro" a missing file is a FileNotFoundException; in
      any other mode a missing file is created empty; a file that exists
      is never changed. */
  lemma OpenFileEffect(root: Path, s: Store, rel: string, mode: string, now: int)
    requires ResolveUnder(root, rel).Ok?
    ensures var p := ResolveUnder(root, rel).value; var o := OpenFileIn(root, s, rel, mode, now);
      (p in s ==> o == Opened(Ok(p), s)) &&
      (p !in s && mode == "ro" ==> o == Opened(Err(FileNotFound), s)) &&
      (p !in s && mode != "ro" ==> o == Opened(Ok(p), s[p := FileEntry(now, [])]))
  {
  }

  /** After deleteCache of a path under the cache, it is absent and every
      other file remains. */
  lemma DeleteRemoves(root: Path, s: Store, rel: string)
    requires ResolveUnder(root, rel).Ok?
    ensures var p := ResolveUnder(root, rel).value; var w := DeleteIn(root, s, rel);
      w.result.Ok? && p !in w.store && forall q | q in s && q != p :: q in w.store && w.store[q] == s[q]
  {
  }

  /** The cache lies under an absolute directory, so every file it reaches
      is absolute and below it; "..", which would climb out, is refused
      whenever the directory has a name. */
  lemma CacheContained(cacheDir: Path, rel: string)
    requires cacheDir.absolute && Plain(cacheDir.names) && cacheDir.names != []
    ensures ResolveUnder(cacheDir, rel).Ok? ==>
      ResolveUnder(cacheDir, rel).value.absolute &&
      ResolveUnder(cacheDir, rel).value.names[..|cacheDir.names|] == cacheDir.names
    ensures ResolveUnder(cacheDir, "..") == Err(IOFailure)
  {
    if ResolveUnder(cacheDir, rel).Ok? {
      ResolveUnderSound(cacheDir, rel);
    }
    ClimbOutRejected(cacheDir);
  }
}
