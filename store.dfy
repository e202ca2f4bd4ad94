/** The files under a root directory, as the server's FileManager and the
    client's ClientCacheManager see them: a map from resolved path to the
    file's last-modified time (milliseconds) and content.  Every access
    first resolves the client's relative path under the root. */
module Stores {
  import opened Bytes
  import opened Failures
  import opened Paths

  datatype FileEntry = FileEntry(mtime: int, content: seq<byte>)

  type Store = map<Path, FileEntry>

  /** Every stored content fits in a Java array. */
  predicate ValidStore(s: Store) {
    forall p | p in s :: IsArrayLength(|s[p].content|)
  }

  /** getLastModified: -1 for an absent file, its time otherwise; an
      invalid path is the error of resolving it. */
  function LastModifiedIn(root: Path, s: Store, rel: string): (r: Result<int>)
    ensures r.Err? <==> ResolveUnder(root, rel).Err?
    ensures r.Err? ==> r.error == ResolveUnder(root, rel).error
    ensures r.Ok? ==> var p := ResolveUnder(root, rel).value;
      r.value == (if p in s then s[p].mtime else -1)
  {
    var p :- ResolveUnder(root, rel);
    if p in s then Ok(s[p].mtime) else Ok(-1)
  }

  /** readFile / readAllFromCache: the whole content, FileNotFoundException
      for an absent file, or the error of resolving the path. */
  function ReadFileIn(root: Path, s: Store, rel: string): (r: Result<seq<byte>>)
    ensures r.Ok? <==> ResolveUnder(root, rel).Ok? && ResolveUnder(root, rel).value in s
    ensures r.Ok? ==> r.value == s[ResolveUnder(root, rel).value].content
    ensures r.Err? && ResolveUnder(root, rel).Ok? ==> r.error == FileNotFound
    ensures r.Err? ==> r.error.IsIOException() || r.error == IllegalArgument
  {
    var p :- ResolveUnder(root, rel);
    if p in s then Ok(s[p].content) else Err(FileNotFound)
  }

  /** The outcome of a write and the store it leaves. */
  datatype Written = Written(result: Result<()>, store: Store)

  /** writeFile / updateCache: the file is created or truncated and holds
      exactly `data`, stamped `now`.  An invalid path changes nothing. */
  function WriteFileIn(root: Path, s: Store, rel: string, data: seq<byte>, now: int): (w: Written)
    ensures w.result.Ok? <==> ResolveUnder(root, rel).Ok?
    ensures w.result.Err? ==> w.store == s && w.result.error == ResolveUnder(root, rel).error
  {
    match ResolveUnder(root, rel)
    case Err(e) => Written(Err(e), s)
    case Ok(p) => Written(Ok(()), s[p := FileEntry(now, data)])
  }

  /** After a write, reading the same path, or any other string that
      resolves to the same file, gives exactly the data and the time. */
  lemma ReadAfterWrite(root: Path, s: Store, rel: string, data: seq<byte>, now: int, alias: string)
    requires ResolveUnder(root, rel).Ok? && ResolveUnder(root, alias) == ResolveUnder(root, rel)
    ensures var t := WriteFileIn(root, s, rel, data, now).store;
      ReadFileIn(root, t, alias) == Ok(data) && LastModifiedIn(root, t, alias) == Ok(now)
  {
  }

  /** A write changes the entry of the resolved path only. */
  lemma WriteOnlyThere(root: Path, s: Store, rel: string, data: seq<byte>, now: int, q: Path)
    requires ResolveUnder(root, rel).Ok? ==> q != ResolveUnder(root, rel).value
    ensures var t := WriteFileIn(root, s, rel, data, now).store;
      (q in t <==> q in s) && (q in s ==> t[q] == s[q])
  {
  }

  /** Writes keep every content within a Java array's length. */
  lemma WriteKeepsValid(root: Path, s: Store, rel: string, data: seq<byte>, now: int)
    ensures ValidStore(s) && IsArrayLength(|data|) ==> ValidStore(WriteFileIn(root, s, rel, data, now).store)
  {
  }
}
