/** File-system paths as java.nio's Unix provider treats them: an optional
    root and a sequence of names.  Only the operations the core uses are
    modelled: parsing a string, resolve, normalize and startsWith, and
    toAbsolutePath against a given working directory. */
module Paths {
  import opened Failures

  /** A path.  `Path(false, [])` is the empty path "". */
  datatype Path = Path(absolute: bool, names: seq<string>)

  const EMPTY: Path := Path(false, [])

  /** A name element: not empty and without a separator. */
  predicate IsName(n: string) {
    n != "" && '/' !in n
  }

  predicate AllNames(ns: seq<string>) {
    forall i | 0 <= i < |ns| :: IsName(ns[i])
  }

  // ---------------------------------------------------------------------
  // Parsing and formatting

  /** The index of the first separator in `s`, or |s| when there is none. */
  function FirstSlash(s: string): (i: nat)
    ensures i <= |s| && (i < |s| ==> s[i] == '/')
    ensures forall j | 0 <= j < i :: s[j] != '/'
  {
    if s == [] then 0 else if s[0] == '/' then 0 else 1 + FirstSlash(s[1..])
  }

  /** The names of a path string: the pieces between separators, with the
      empty pieces of repeated, leading and trailing separators dropped. */
  function Names(s: string): (ns: seq<string>)
    ensures AllNames(ns)
    decreases |s|
  {
    if s == [] then []
    else
      var i := FirstSlash(s);
      var head := if i == 0 then [] else [s[..i]];
      assert i > 0 ==> '/' !in s[..i];
      if i == |s| then head else head + Names(s[i + 1..])
  }

  /** Paths.get(s) and Path.resolve(String): a string holding NUL is an
      InvalidPathException, which is an IllegalArgumentException. */
  function Parse(s: string): (r: Result<Path>)
    ensures r.Ok? ==> AllNames(r.value.names) && r.value.absolute == (|s| > 0 && s[0] == '/')
    ensures r.Err? <==> '\0' in s
  {
    if '\0' in s then Err(IllegalArgument)
    else Ok(Path(|s| > 0 && s[0] == '/', Names(s)))
  }

  /** The names joined with single separators. */
  function Join(ns: seq<string>): string {
    if ns == [] then "" else if |ns| == 1 then ns[0] else ns[0] + "/" + Join(ns[1..])
  }

  /** Path.toString. */
  function Format(p: Path): string {
    (if p.absolute then "/" else "") + Join(p.names)
  }

  lemma FirstSlashOfJoin(a: string, b: string)
    requires IsName(a)
    ensures FirstSlash(a) == |a|
    ensures FirstSlash(a + "/" + b) == |a|
  {
    FirstSlashNoSlash(a, "/" + b);
    assert a + "/" + b == a + ("/" + b);
    FirstSlashNoSlash(a, []);
    assert a + [] == a;
  }

  lemma {:induction false} FirstSlashNoSlash(a: string, b: string)
    requires '/' !in a
    ensures FirstSlash(a + b) == |a| + FirstSlash(b)
  {
    if a != [] {
      assert a[0] in a;
      assert '/' !in a[1..] by {
        forall c | c in a[1..] ensures c in a { }
      }
      assert (a + b)[0] == a[0] != '/';
      assert (a + b)[1..] == a[1..] + b;
      FirstSlashNoSlash(a[1..], b);
    } else {
      assert a + b == b;
    }
  }

  /** Splitting undoes joining. */
  lemma {:induction false} NamesJoin(ns: seq<string>)
    requires AllNames(ns)
    ensures Names(Join(ns)) == ns
    decreases |ns|
  {
    if |ns| == 1 {
      FirstSlashOfJoin(ns[0], "");
      assert ns[0][..|ns[0]|] == ns[0];
    } else if |ns| > 1 {
      var s := Join(ns);
      assert AllNames(ns[1..]);
      FirstSlashOfJoin(ns[0], Join(ns[1..]));
      assert s[..|ns[0]|] == ns[0];
      assert s[|ns[0]| + 1..] == Join(ns[1..]);
      NamesJoin(ns[1..]);
    }
  }

  /** A leading separator adds no name. */
  lemma NamesLeadingSlash(s: string)
    ensures Names("/" + s) == Names(s)
  {
    assert ("/" + s)[1..] == s;
  }

  /** Parsing the string form of a well-formed path gives the path back. */
  lemma ParseFormat(p: Path)
    requires AllNames(p.names) && forall i | 0 <= i < |p.names| :: '\0' !in p.names[i]
    ensures Parse(Format(p)) == Ok(p)
  {
    NoNulJoin(p.names);
    NamesJoin(p.names);
    if p.absolute {
      NamesLeadingSlash(Join(p.names));
    } else if p.names != [] {
      JoinStart(p.names);
      assert Format(p) == Join(p.names);
    }
  }

  /** The string of a non-empty name sequence starts with its first name. */
  lemma JoinStart(ns: seq<string>)
    requires AllNames(ns) && ns != []
    ensures |Join(ns)| > 0 && Join(ns)[0] == ns[0][0] && Join(ns)[0] != '/'
  {
    assert ns[0][0] in ns[0];
    if |ns| > 1 {
      assert Join(ns) == ns[0] + ("/" + Join(ns[1..]));
    }
  }

  lemma {:induction false} NoNulJoin(ns: seq<string>)
    requires forall i | 0 <= i < |ns| :: '\0' !in ns[i]
    ensures '\0' !in Join(ns)
    decreases |ns|
  {
    if |ns| > 1 {
      NoNulJoin(ns[1..]);
    }
  }

  // ---------------------------------------------------------------------
  // resolve, toAbsolutePath

  /** base.resolve(other): an absolute `other` replaces the base; otherwise
      its names are appended (the empty path appends nothing). */
  function Resolve(base: Path, other: Path): (r: Path)
    ensures other.absolute ==> r == other
    ensures !other.absolute ==> r.absolute == base.absolute && r.names == base.names + other.names
  {
    if other.absolute then other else Path(base.absolute, base.names + other.names)
  }

  /** toAbsolutePath, the working directory `cwd` being an absolute path. */
  function ToAbsolute(p: Path, cwd: Path): (r: Path)
    requires cwd.absolute
    ensures r.absolute
  {
    Resolve(cwd, p)
  }

  /** Resolving is associative, and the empty path is its right unit. */
  lemma ResolveLaws(a: Path, b: Path, c: Path)
    ensures Resolve(Resolve(a, b), c) == Resolve(a, Resolve(b, c))
    ensures Resolve(a, EMPTY) == a
  {
    if !b.absolute && !c.absolute {
      assert (a.names + b.names) + c.names == a.names + (b.names + c.names);
    }
  }

  // ---------------------------------------------------------------------
  // normalize

  /** One name on the stack of names already kept: "." is dropped; ".."
      removes the last kept name unless that is itself ".."; a ".." with
      nothing to remove is dropped from an absolute path and kept on a
      relative one. */
  function Push(absolute: bool, stack: seq<string>, n: string): seq<string> {
    if n == "." then stack
    else if n == ".." then
      if |stack| > 0 && stack[|stack| - 1] != ".." then stack[..|stack| - 1]
      else if absolute then stack
      else stack + [".."]
    else stack + [n]
  }

  function Fold(absolute: bool, stack: seq<string>, ns: seq<string>): seq<string>
    decreases |ns|
  {
    if ns == [] then stack else Fold(absolute, Push(absolute, stack, ns[0]), ns[1..])
  }

  /** Path.normalize. */
  function Normalize(p: Path): (r: Path)
    ensures r.absolute == p.absolute
  {
    Path(p.absolute, Fold(p.absolute, [], p.names))
  }

  /** A normal sequence of names: no ".", no ".." in an absolute path, and
      in a relative one every ".." comes before every other name. */
  predicate NormalNames(absolute: bool, ns: seq<string>) {
    (forall i | 0 <= i < |ns| :: ns[i] != "." && (absolute ==> ns[i] != ".."))
    && (forall i, j | 0 <= i < j < |ns| && ns[j] == ".." :: ns[i] == "..")
  }

  predicate IsNormal(p: Path) {
    NormalNames(p.absolute, p.names)
  }

  /** Neither "." nor "..": the names of a path that cannot climb. */
  predicate Plain(ns: seq<string>) {
    forall i | 0 <= i < |ns| :: ns[i] != "." && ns[i] != ".."
  }

  lemma PushNormal(absolute: bool, s: seq<string>, n: string)
    requires NormalNames(absolute, s)
    ensures NormalNames(absolute, Push(absolute, s, n))
  {
    var t := Push(absolute, s, n);
    if n == ".." && !(|s| > 0 && s[|s| - 1] != "..") && !absolute {
      forall i | 0 <= i < |s|
        ensures s[i] == ".."
      {
        assert s[|s| - 1] == "..";
        if i < |s| - 1 {
          assert s[|s| - 1] == "..";
        }
      }
    }
  }

  lemma {:induction false} FoldNormal(absolute: bool, s: seq<string>, ns: seq<string>)
    requires NormalNames(absolute, s)
    ensures NormalNames(absolute, Fold(absolute, s, ns))
    decreases |ns|
  {
    if ns != [] {
      PushNormal(absolute, s, ns[0]);
      FoldNormal(absolute, Push(absolute, s, ns[0]), ns[1..]);
    }
  }

  /** normalize returns a normal path. */
  lemma NormalizeIsNormal(p: Path)
    ensures IsNormal(Normalize(p))
  {
    FoldNormal(p.absolute, [], p.names);
  }

  /** Folding names onto a stack they extend normally just appends them. */
  lemma {:induction false} FoldOfNormal(absolute: bool, s: seq<string>, ns: seq<string>)
    requires NormalNames(absolute, s + ns)
    ensures Fold(absolute, s, ns) == s + ns
    decreases |ns|
  {
    if ns != [] {
      var n := ns[0];
      assert n == (s + ns)[|s|];
      if n == ".." {
        forall i | 0 <= i < |s|
          ensures s[i] == ".."
        {
          assert (s + ns)[i] == s[i];
        }
      }
      assert Push(absolute, s, n) == s + [n];
      assert s + ns == (s + [n]) + ns[1..];
      FoldOfNormal(absolute, s + [n], ns[1..]);
    }
  }

  /** A normal path is its own normal form, so normalize is idempotent. */
  lemma NormalizeNormal(p: Path)
    requires IsNormal(p)
    ensures Normalize(p) == p
  {
    FoldOfNormal(p.absolute, [], p.names);
    assert [] + p.names == p.names;
  }

  lemma NormalizeIdempotent(p: Path)
    ensures Normalize(Normalize(p)) == Normalize(p)
  {
    NormalizeIsNormal(p);
    NormalizeNormal(Normalize(p));
  }

  /** Normalizing a concatenation normalizes the first part, then folds the
      second onto it. */
  lemma {:induction false} FoldAppend(absolute: bool, s: seq<string>, x: seq<string>, y: seq<string>)
    ensures Fold(absolute, s, x + y) == Fold(absolute, Fold(absolute, s, x), y)
    decreases |x|
  {
    if x != [] {
      assert (x + y)[0] == x[0] && (x + y)[1..] == x[1..] + y;
      FoldAppend(absolute, Push(absolute, s, x[0]), x[1..], y);
    } else {
      assert x + y == y;
    }
  }

  /** The names kept from a sequence without "..": all but the "."s. */
  function DropDots(ns: seq<string>): (r: seq<string>)
    ensures |r| <= |ns|
  {
    if ns == [] then [] else (if ns[0] == "." then [] else [ns[0]]) + DropDots(ns[1..])
  }

  lemma {:induction false} FoldNoDotDot(absolute: bool, s: seq<string>, ns: seq<string>)
    requires forall i | 0 <= i < |ns| :: ns[i] != ".."
    ensures Fold(absolute, s, ns) == s + DropDots(ns)
    ensures Plain(DropDots(ns))
    decreases |ns|
  {
    if ns != [] {
      FoldNoDotDot(absolute, Push(absolute, s, ns[0]), ns[1..]);
      if ns[0] == "." {
        assert DropDots(ns) == DropDots(ns[1..]);
      } else {
        assert s + DropDots(ns) == (s + [ns[0]]) + DropDots(ns[1..]);
      }
    }
  }

  // ---------------------------------------------------------------------
  // startsWith

  /** p.startsWith(q): the same kind of path and q's names a prefix of p's;
      but the empty path is a prefix of the empty path only. */
  function StartsWith(p: Path, q: Path): (b: bool)
    ensures b ==> p.absolute == q.absolute && |q.names| <= |p.names|
  {
    if q == EMPTY then p == EMPTY
    else p.absolute == q.absolute && |q.names| <= |p.names| && p.names[..|q.names|] == q.names
  }

  lemma StartsWithRefl(p: Path)
    ensures StartsWith(p, p)
  {
  }

  /** A prefix of a normal path is normal: so paths can only ever be found
      under a root that is itself normal. */
  lemma StartsWithNormal(p: Path, q: Path)
    requires IsNormal(p) && StartsWith(p, q)
    ensures IsNormal(q)
  {
    if q != EMPTY {
      var k := |q.names|;
      forall i | 0 <= i < k
        ensures q.names[i] == p.names[i]
      {
        assert q.names[i] == p.names[..k][i];
      }
    }
  }

  // ---------------------------------------------------------------------
  // Containment: normalize(root.resolve(rel)), accepted only under root

  /** The check that FileManager.resolvePath, ClientCacheManager.resolvePath
      and Server.safeResolve make: `rel` resolved against `root` and
      normalized, accepted only if it starts with `root`; otherwise an
      IOException.  A `rel` holding NUL fails in parsing. */
  function ResolveUnder(root: Path, rel: string): (r: Result<Path>)
    ensures r.Ok? ==> StartsWith(r.value, root) && IsNormal(r.value)
    ensures r.Err? ==> r.error == (if '\0' in rel then IllegalArgument else IOFailure)
  {
    var other :- Parse(rel);
    var p := Normalize(Resolve(root, other));
    NormalizeIsNormal(Resolve(root, other));
    if StartsWith(p, root) then Ok(p) else Err(IOFailure)
  }

  /** In a normal sequence that starts with a proper name, no ".." follows. */
  lemma NoDotDotAfterName(absolute: bool, ns: seq<string>)
    requires NormalNames(absolute, ns) && |ns| > 0 && ns[0] != ".."
    ensures forall i | 0 <= i < |ns| :: ns[i] != ".."
  {
  }

  /** What resolving accepts really lies under the root: the root's names
      followed by plain names. */
  lemma ResolveUnderSound(root: Path, rel: string)
    requires Plain(root.names)
    requires ResolveUnder(root, rel).Ok?
    ensures var p := ResolveUnder(root, rel).value;
      p.absolute == root.absolute && p.names[..|root.names|] == root.names
      && Plain(p.names[|root.names|..])
  {
    var p := ResolveUnder(root, rel).value;
    var k := |root.names|;
    if root == EMPTY {
      assert p == EMPTY;
    } else {
      if !p.absolute {
        assert root.names[0] == p.names[..k][0] == p.names[0];
        NoDotDotAfterName(p.absolute, p.names);
      }
      assert forall i | 0 <= i < |p.names| - k :: p.names[k..][i] == p.names[k + i];
    }
  }

  /** Plain names are normal. */
  lemma PlainNormal(absolute: bool, ns: seq<string>)
    requires Plain(ns)
    ensures NormalNames(absolute, ns)
  {
  }

  /** Plain names followed by plain names are plain. */
  lemma PlainAppend(a: seq<string>, b: seq<string>)
    requires Plain(a) && Plain(b)
    ensures Plain(a + b)
  {
    forall i | 0 <= i < |a + b|
      ensures (a + b)[i] != "." && (a + b)[i] != ".."
    {
      if i < |a| {
        assert (a + b)[i] == a[i];
      } else {
        assert (a + b)[i] == b[i - |a|];
      }
    }
  }

  /** Normalizing a plain prefix followed by names without "..": the
      prefix, then the names other than ".". */
  lemma NormalizePlainThen(absolute: bool, pre: seq<string>, ns: seq<string>)
    requires Plain(pre) && forall i | 0 <= i < |ns| :: ns[i] != ".."
    ensures Fold(absolute, [], pre + ns) == pre + DropDots(ns)
    ensures Plain(pre + DropDots(ns))
  {
    FoldAppend(absolute, [], pre, ns);
    assert [] + pre == pre;
    PlainNormal(absolute, pre);
    FoldOfNormal(absolute, [], pre);
    FoldNoDotDot(absolute, pre, ns);
    PlainAppend(pre, DropDots(ns));
  }

  /** Under a plain root other than the empty path every relative string
      whose names hold no ".." is accepted: the "."s are dropped and the
      other names appended. */
  lemma ResolveUnderPlain(root: Path, rel: string)
    requires Plain(root.names) && root != EMPTY && '\0' !in rel && (|rel| == 0 || rel[0] != '/')
    requires forall i | 0 <= i < |Names(rel)| :: Names(rel)[i] != ".."
    ensures ResolveUnder(root, rel) == Ok(Path(root.absolute, root.names + DropDots(Names(rel))))
  {
    var ns := Names(rel);
    NormalizePlainThen(root.absolute, root.names, ns);
    var p := Path(root.absolute, root.names + DropDots(ns));
    assert Normalize(Resolve(root, Parse(rel).value)) == p;
    assert p.names[..|root.names|] == root.names;
  }

  /** The names of "a/../b". */
  lemma NamesOfDotDotExample()
    ensures Names("a/../b") == ["a", "..", "b"]
  {
    var rel := "a/../b";
    assert FirstSlash(rel) == 1;
    assert rel[2..] == "../b";
    assert FirstSlash("../b") == 2;
    assert FirstSlash("b") == 1 && "b"[..1] == "b";
    assert Names("b") == ["b"];
    assert "../b"[3..] == "b" && "../b"[..2] == "..";
    assert Names("../b") == [".."] + Names("b");
    assert rel[..1] == "a";
    assert Names(rel) == ["a"] + Names("../b");
  }

  /** Under plain names, "a", "..", "b" folds to "b". */
  lemma FoldDotDotExample(absolute: bool, pre: seq<string>)
    requires Plain(pre)
    ensures Fold(absolute, [], pre + ["a", "..", "b"]) == pre + ["b"]
  {
    FoldAppend(absolute, [], pre, ["a", "..", "b"]);
    assert [] + pre == pre;
    PlainNormal(absolute, pre);
    FoldOfNormal(absolute, [], pre);
    assert Push(absolute, pre, "a") == pre + ["a"];
    assert (pre + ["a"])[..|pre|] == pre;
  }

  /** ".." inside the relative part cancels the name before it:
      "a/../b" under a plain root is the root's "b". */
  lemma DotDotCancels(root: Path)
    requires Plain(root.names) && root != EMPTY
    ensures ResolveUnder(root, "a/../b") == Ok(Path(root.absolute, root.names + ["b"]))
  {
    NamesOfDotDotExample();
    FoldDotDotExample(root.absolute, root.names);
    var p := Path(root.absolute, root.names + ["b"]);
    assert Normalize(Resolve(root, Parse("a/../b").value)) == p;
    assert p.names[..|root.names|] == root.names;
  }

  /** A ".." that climbs out of a plain, non-empty root is rejected. */
  lemma ClimbOutRejected(root: Path)
    requires Plain(root.names) && root.names != []
    ensures ResolveUnder(root, "..") == Err(IOFailure)
  {
    assert FirstSlash("..") == 2;
    assert ".."[..2] == "..";
    assert Names("..") == [".."];
    FoldAppend(root.absolute, [], root.names, [".."]);
    assert [] + root.names == root.names;
    FoldOfNormal(root.absolute, [], root.names);
  }

  /** A root that is not normal (one holding ".", say "./data") accepts no
      path at all, since every normalized path fails to start with it. */
  lemma NonNormalRootRejectsAll(root: Path, rel: string)
    requires !IsNormal(root) && '\0' !in rel
    ensures ResolveUnder(root, rel) == Err(IOFailure)
  {
    var other := Parse(rel).value;
    var p := Normalize(Resolve(root, other));
    NormalizeIsNormal(Resolve(root, other));
    if StartsWith(p, root) {
      StartsWithNormal(p, root);
    }
  }
}
