/** The server's FileManager: the files under its root directory.  The
    root is kept as given, neither made absolute nor normalized. */
module ServerFiles {
  import opened Bytes
  import opened Failures
  import opened Paths
  import opened Stores

  class FileManager {
    const rootDir: Path
    var files: Store

    /** new FileManager(rootPath), over the files already on disk.  Creating
        a missing directory is not modelled. */
    constructor (rootPath: Path, existing: Store)
      ensures rootDir == rootPath && files == existing
    {
      rootDir := rootPath;
      files := existing;
    }

    /** resolvePath. */
    function ResolvePath(relativePath: string): (r: Result<Path>)
      ensures r.Ok? ==> StartsWith(r.value, rootDir) && IsNormal(r.value)
    {
      ResolveUnder(rootDir, relativePath)
    }

    /** getLastModified. */
    function GetLastModified(path: string): Result<int>
      reads this
    {
      LastModifiedIn(rootDir, files, path)
    }

    /** readFile. */
    function ReadFile(path: string): Result<seq<byte>>
      reads this
    {
      ReadFileIn(rootDir, files, path)
    }

    /** writeFile, stamping the file with the time `now`. */
    method WriteFile(path: string, data: seq<byte>, now: int) returns (r: Result<()>)
      modifies this
      ensures var w := WriteFileIn(rootDir, old(files), path, data, now);
        r == w.result && files == w.store
    {
      var p := ResolvePath(path);
      if p.Err? {
        return Err(p.error);
      }
      files := files[p.value := FileEntry(now, data)];
      r := Ok(());
    }
  }
}
