/** An abstract file system: a map from path strings to file contents.
    Directories are implicit: a directory exists when some key lies below it.
    A directory entry of an archive is a key that ends in `/`. */
module FileSystems {
  import opened Wrappers

  type Files = map<string, string>

  /** `dir / name` for a relative `name`. */
  function PathJoin(dir: string, name: string): string
  {
    dir + "/" + name
  }

  /** `p` is `root` itself or lies anywhere below it. */
  predicate InTree(p: string, root: string)
  {
    p == root || root + "/" <= p
  }

  /** `Path(p).exists()`: a file at `p`, or a directory that holds something. */
  predicate PathExists(files: Files, p: string)
  {
    p in files || exists q :: q in files && p + "/" <= q
  }

  /** `shutil.rmtree(root)`: everything at or below `root` is gone, the rest is kept. */
  function Removed(files: Files, root: string): (r: Files)
    ensures forall p :: p in r <==> p in files && !InTree(p, root)
    ensures forall p :: p in r ==> r[p] == files[p]
  {
    map p | p in files && !InTree(p, root) :: files[p]
  }

  /** No file is at `p`, and something lies below it. */
  predicate IsDirectory(files: Files, p: string)
  {
    p !in files && exists q :: q in files && p + "/" <= q
  }

  /** Renaming the file `src` to `dst`: `dst` takes the contents of `src`,
      which no longer exists unless it is `dst` itself. */
  function Moved(files: Files, src: string, dst: string): (r: Files)
    requires src in files
    ensures dst in r && r[dst] == files[src]
    ensures src != dst ==> src !in r
    ensures forall p :: p != src && p != dst ==> (p in r <==> p in files)
    ensures forall p :: p in r && p != src && p != dst ==> r[p] == files[p]
  {
    if src == dst then files else (files - {src})[dst := files[src]]
  }

  /** Renaming the directory `src` to the free path `dst`: everything below `src`
      moves below `dst` under the same relative name, and nothing else changes. */
  function MovedTree(files: Files, src: string, dst: string): (r: Files)
    requires IsDirectory(files, src) && !PathExists(files, dst)
    requires !InTree(dst, src) && !InTree(src, dst)
    ensures dst !in r
    ensures forall p :: InTree(p, src) ==> p !in r
    ensures forall p :: !InTree(p, src) && !InTree(p, dst) ==>
              (p in r <==> p in files) && (p in r ==> r[p] == files[p])
    ensures forall d :: PathJoin(dst, d) in r <==> PathJoin(src, d) in files
    ensures forall d :: PathJoin(src, d) in files ==> r[PathJoin(dst, d)] == files[PathJoin(src, d)]
  {
    var names := Below(files, src);
    var targets := Targets(names, dst);
    var kept := map p | p in files && !InTree(p, src) :: files[p];
    var moved := map q | q in targets :: files[PathJoin(src, q[|dst| + 1..])];
    var r := kept + moved;
    forall p | InTree(p, src) ensures p !in r {
      if p in moved {
        DisjointTrees(dst, src, p);
      }
    }
    forall d ensures PathJoin(dst, d) in r <==> PathJoin(src, d) in files {
      JoinParts(dst, d);
    }
    forall d | PathJoin(src, d) in files ensures r[PathJoin(dst, d)] == files[PathJoin(src, d)] {
      JoinParts(dst, d);
    }
    r
  }

  lemma JoinParts(root: string, d: string)
    ensures PathJoin(root, d)[..|root| + 1] == root + "/"
    ensures PathJoin(root, d)[|root| + 1..] == d
    ensures root + "/" <= PathJoin(root, d)
  {
  }

  lemma SplitBelow(root: string, p: string)
    requires root + "/" <= p
    ensures p == PathJoin(root, p[|root| + 1..])
  {
    assert p == p[..|root| + 1] + p[|root| + 1..];
  }

  /** The relative names of the files below `root`. */
  function Below(files: Files, root: string): (names: set<string>)
    ensures forall d :: d in names <==> PathJoin(root, d) in files
  {
    var names := set p | p in files && root + "/" <= p :: p[|root| + 1..];
    forall d ensures d in names <==> PathJoin(root, d) in files {
      JoinParts(root, d);
      if d in names {
        var p :| p in files && root + "/" <= p && d == p[|root| + 1..];
        SplitBelow(root, p);
      }
    }
    names
  }

  /** The paths of `names` below `root`. */
  function Targets(names: set<string>, root: string): (targets: set<string>)
    ensures forall q :: q in targets ==> root + "/" <= q && q[|root| + 1..] in names
    ensures forall d :: d in names ==> PathJoin(root, d) in targets
  {
    var targets := set d | d in names :: PathJoin(root, d);
    forall q | q in targets ensures root + "/" <= q && q[|root| + 1..] in names {
      var d :| d in names && q == PathJoin(root, d);
      JoinParts(root, d);
    }
    targets
  }

  /** The errors `os.replace` (POSIX `rename`) raises. */
  datatype OsError =
    | FileNotFound(path: string)                 // ENOENT: nothing at the source
    | IsADirectory(path: string)                 // EISDIR: a file onto a directory
    | NotADirectory(path: string)                // ENOTDIR: a directory onto a file, or a file under itself
    | DirectoryNotEmpty(path: string)            // ENOTEMPTY: onto a non-empty directory or an ancestor
    | InvalidArgument(src: string, dst: string)  // EINVAL: a directory into its own subtree

  /** `Path(src).replace(dst)`: a file is renamed with `Moved`, a directory with
      `MovedTree`, each after the checks `rename` makes in that order. */
  function Replaced(files: Files, src: string, dst: string): Result<Files, OsError>
  {
    if src in files then
      if src == dst then Success(files)
      else if InTree(src, dst) then Failure(DirectoryNotEmpty(dst))
      else if InTree(dst, src) then Failure(NotADirectory(dst))
      else if IsDirectory(files, dst) then Failure(IsADirectory(dst))
      else Success(Moved(files, src, dst))
    else if !PathExists(files, src) then Failure(FileNotFound(src))
    else if src == dst then Success(files)
    else if InTree(dst, src) then Failure(InvalidArgument(src, dst))
    else if InTree(src, dst) then Failure(DirectoryNotEmpty(dst))
    else if dst in files then Failure(NotADirectory(dst))
    else if PathExists(files, dst) then Failure(DirectoryNotEmpty(dst))
    else Success(MovedTree(files, src, dst))
  }

  /** Each of two paths with the same separator-terminated prefix ordering. */
  lemma SlashPrefix(a: string, b: string)
    requires a + "/" <= b + "/"
    ensures a == b || a + "/" <= b
  {
    if |a| == |b| {
      assert a == (a + "/")[..|a|] == (b + "/")[..|b|] == b;
    } else {
      assert (a + "/") == (b + "/")[..|a| + 1] == b[..|a| + 1];
    }
  }

  /** Two prefixes of one sequence are prefixes of one another. */
  lemma PrefixOrder(a: string, b: string, s: string)
    requires a <= s && b <= s
    ensures a <= b || b <= a
  {
    if |a| <= |b| {
      assert a == s[..|a|] == b[..|a|];
    } else {
      assert b == s[..|b|] == a[..|b|];
    }
  }

  /** Being in a tree is transitive. */
  lemma InTreeTrans(a: string, b: string, c: string)
    requires InTree(a, b) && InTree(b, c)
    ensures InTree(a, c)
  {
    if a != b && b != c {
      assert (c + "/") == (b + "/")[..|c| + 1] == b[..|c| + 1];
      assert b[..|c| + 1] == a[..|c| + 1];
    }
  }

  /** Two roots neither of which lies in the other's tree have disjoint trees. */
  lemma DisjointTrees(x: string, y: string, p: string)
    requires !InTree(x, y) && !InTree(y, x) && InTree(p, x)
    ensures !InTree(p, y)
  {
    if InTree(p, y) && p != x && p != y {
      PrefixOrder(x + "/", y + "/", p);
      if x + "/" <= y + "/" {
        SlashPrefix(x, y);
      } else {
        SlashPrefix(y, x);
      }
    }
  }

  /** The file system the tool runs against; `files` is updated in place. */
  class FileSystem {
    var files: Files

    constructor (files: Files)
      ensures this.files == files
    {
      this.files := files;
    }

    predicate Exists(path: string)
      reads this
    {
      PathExists(files, path)
    }

    /** `Path(path).write_text(text)`. */
    method WriteText(path: string, text: string)
      modifies this
      ensures files == old(files)[path := text]
    {
      files := files[path := text];
    }

    /** `Path(src).replace(dst)`: the file system is renamed as `Replaced` says,
        or is left as it was when that raises. */
    method Replace(src: string, dst: string) returns (outcome: Outcome<OsError>)
      modifies this
      ensures match Replaced(old(files), src, dst)
              case Success(moved) => files == moved && outcome == Pass
              case Failure(e) => files == old(files) && outcome == Fail(e)
    {
      var r := Replaced(files, src, dst);
      if r.Success? {
        files := r.value;
        outcome := Pass;
      } else {
        outcome := Fail(r.error);
      }
    }

    /** Deletes `root` and everything below it. */
    method RemoveTree(root: string)
      modifies this
      ensures files == Removed(old(files), root)
    {
      files := Removed(files, root);
    }
  }
}
