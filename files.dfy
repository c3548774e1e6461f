/**
 * The abstract filesystem the sync engine works on: relative paths, regular
 * files and directory trees.  The raw tree is a value (the engine never writes
 * to it); the public tree, which the engine rewrites in place, is the class
 * PublicDir, whose methods are the filesystem primitives the script calls
 * (`mkdir(parents=True)`, `unlink`, `rename`, `rmtree`, writing a file).
 */
module Files {
  import opened Wrappers

  type Byte = bv8

  /** A directory relative to a tree's root, one entry per component; [] is the root. */
  type DirPath = seq<string>

  /** A file relative to a tree's root: the directory it lies in and its final component. */
  datatype FilePath = FilePath(dir: DirPath, name: string)

  /** A regular file: its bytes, its modification time in whole seconds, and whether it can be opened. */
  datatype File = File(content: seq<Byte>, mtime: int, readable: bool)

  /** A directory tree: its files and its directories (the root itself is not listed). */
  datatype Tree = Tree(files: map<FilePath, File>, dirs: set<DirPath>)

  predicate IsPrefix(a: DirPath, b: DirPath) {
    |a| <= |b| && b[..|a|] == a
  }

  /** The directory a file's path names when read as a directory path. */
  function AsDir(p: FilePath): DirPath {
    p.dir + [p.name]
  }

  /** Every non-empty prefix of `d`, `d` itself included: what `mkdir(parents=True)` creates. */
  function DirsOf(d: DirPath): set<DirPath> {
    set i | 1 <= i <= |d| :: d[..i]
  }

  /** DirsOf(d) holds exactly the non-empty prefixes of `d`, `d` itself among them. */
  lemma DirsOfShape(d: DirPath)
    ensures forall x :: x in DirsOf(d) ==> 0 < |x| && IsPrefix(x, d)
    ensures |d| > 0 ==> d in DirsOf(d)
    ensures forall i :: 1 <= i <= |d| ==> d[..i] in DirsOf(d)
  {
    assert |d| > 0 ==> d[..|d|] == d;
  }

  lemma InDirsOf(x: DirPath, d: DirPath)
    requires 0 < |x| && IsPrefix(x, d)
    ensures x in DirsOf(d)
  {
    assert x == d[..|x|];
  }

  lemma PrefixTransitive(a: DirPath, b: DirPath, c: DirPath)
    requires IsPrefix(a, b) && IsPrefix(b, c)
    ensures IsPrefix(a, c)
  {
    assert c[..|a|] == c[..|b|][..|a|];
  }

  /**
   * A tree as a real filesystem has it: directory paths are non-empty, every
   * directory's parents are directories, and every file's directory exists.
   */
  ghost predicate WellFormed(files: map<FilePath, File>, dirs: set<DirPath>) {
    && (forall d :: d in dirs ==> 0 < |d| && DirsOf(d) <= dirs)
    && (forall p :: p in files ==> DirsOf(p.dir) <= dirs)
  }

  ghost predicate WellFormedTree(t: Tree) {
    WellFormed(t.files, t.dirs)
  }

  /** In a well-formed tree every non-empty prefix of a directory is a directory. */
  lemma PrefixOfDirIsDir(files: map<FilePath, File>, dirs: set<DirPath>, x: DirPath, d: DirPath)
    requires WellFormed(files, dirs) && d in dirs && 0 < |x| && IsPrefix(x, d)
    ensures x in dirs
  {
    if |x| < |d| {
      assert d[..|x|] in dirs;
    } else {
      assert d[..|d|] == d;
    }
  }

  /** In a well-formed tree the directories `mkdir(parents=True)` would create for a directory all exist. */
  lemma DirsOfDirInTree(files: map<FilePath, File>, dirs: set<DirPath>, d: DirPath)
    requires WellFormed(files, dirs) && d in dirs
    ensures DirsOf(d) <= dirs
  {
    forall x | x in DirsOf(d)
      ensures x in dirs
    {
      PrefixOfDirIsDir(files, dirs, x, d);
    }
  }

  /** In a well-formed tree a file's directory and all its parents exist. */
  lemma DirsOfFileInTree(files: map<FilePath, File>, dirs: set<DirPath>, p: FilePath)
    requires WellFormed(files, dirs) && p in files
    ensures DirsOf(p.dir) <= dirs
  {
    forall x | x in DirsOf(p.dir)
      ensures x in dirs
    {
      assert x == p.dir[..|x|];
    }
  }

  /** Every directory `mkdir(parents=True)` creates for a file's own directory is one of the tree's. */
  ghost predicate FileDirsListed(t: Tree) {
    forall p :: p in t.files ==> DirsOf(p.dir) <= t.dirs
  }

  lemma WellFormedListsFileDirs(t: Tree)
    requires WellFormedTree(t)
    ensures FileDirsListed(t)
  {
    forall p | p in t.files
      ensures DirsOf(p.dir) <= t.dirs
    {
      DirsOfFileInTree(t.files, t.dirs, p);
    }
  }

  function Lookup(t: Tree, p: FilePath): Option<File> {
    if p in t.files then Some(t.files[p]) else None
  }

  /** `Path.exists()` under the raw root: a file or a directory stands at `p`. */
  predicate ExistsIn(t: Tree, p: FilePath) {
    p in t.files || AsDir(p) in t.dirs
  }

  /** `p` has the same presence and value in both maps. */
  predicate SameAt(m: map<FilePath, File>, m': map<FilePath, File>, p: FilePath) {
    (p in m <==> p in m') && (p in m ==> m[p] == m'[p])
  }

  /** Files that survive `rmtree(d)`. */
  function FilesOutside(files: map<FilePath, File>, d: DirPath): (r: map<FilePath, File>)
    ensures forall p :: p in r <==> p in files && !IsPrefix(d, p.dir)
    ensures forall p :: p in r ==> r[p] == files[p]
  {
    map p | p in files && !IsPrefix(d, p.dir) :: files[p]
  }

  /** Directories that survive `rmtree(d)`. */
  function DirsOutside(dirs: set<DirPath>, d: DirPath): (r: set<DirPath>)
    ensures forall x :: x in r <==> x in dirs && !IsPrefix(d, x)
  {
    set x | x in dirs && !IsPrefix(d, x)
  }

  /** The public tree, which the engine changes in place. */
  class PublicDir {
    var files: map<FilePath, File>
    var dirs: set<DirPath>

    ghost predicate Valid()
      reads this
    {
      WellFormed(files, dirs)
    }

    /** An empty public root. */
    constructor()
      ensures Valid() && files == map[] && dirs == {}
    {
      files := map[];
      dirs := {};
    }

    /** `Path(d).mkdir(parents=True, exist_ok=True)`. */
    method MakeDirs(d: DirPath)
      requires Valid()
      modifies this
      ensures Valid()
      ensures dirs == old(dirs) + DirsOf(d) && files == old(files)
    {
      forall x | x in DirsOf(d)
        ensures DirsOf(x) <= DirsOf(d)
      {
        forall y | y in DirsOf(x)
          ensures y in DirsOf(d)
        {
          PrefixTransitive(y, x, d);
          InDirsOf(y, d);
        }
      }
      dirs := dirs + DirsOf(d);
    }

    /** `Path(p).unlink()`, guarded by the caller's `exists()` check. */
    method Unlink(p: FilePath)
      requires Valid()
      modifies this
      ensures Valid()
      ensures files == old(files) - {p} && dirs == old(dirs)
    {
      files := files - {p};
    }

    /** Writing a whole file at `p`, in a directory that exists. */
    method Write(p: FilePath, f: File)
      requires Valid() && DirsOf(p.dir) <= dirs
      modifies this
      ensures Valid()
      ensures files == old(files)[p := f] && dirs == old(dirs)
    {
      files := files[p := f];
    }

    /** `Path(src).rename(dst)`: the file moves in one step, replacing whatever was at `dst`. */
    method Rename(src: FilePath, dst: FilePath)
      requires Valid() && src in files && DirsOf(dst.dir) <= dirs
      modifies this
      ensures Valid()
      ensures files == (old(files) - {src})[dst := old(files)[src]] && dirs == old(dirs)
    {
      files := (files - {src})[dst := files[src]];
    }

    /** `shutil.rmtree(d)`: `d`, every directory below it and every file below it go. */
    method RemoveTree(d: DirPath)
      requires Valid()
      modifies this
      ensures Valid()
      ensures files == FilesOutside(old(files), d) && dirs == DirsOutside(old(dirs), d)
    {
      ghost var dirs0 := dirs;
      forall x | x in DirsOutside(dirs0, d)
        ensures DirsOf(x) <= DirsOutside(dirs0, d)
      {
        DirsOfShape(x);
        forall y | y in DirsOf(x)
          ensures !IsPrefix(d, y)
        {
          if IsPrefix(d, y) {
            PrefixTransitive(d, y, x);
          }
        }
      }
      forall p | p in FilesOutside(files, d)
        ensures DirsOf(p.dir) <= DirsOutside(dirs0, d)
      {
        DirsOfShape(p.dir);
        forall y | y in DirsOf(p.dir)
          ensures !IsPrefix(d, y)
        {
          if IsPrefix(d, y) {
            PrefixTransitive(d, y, p.dir);
          }
        }
      }
      files := FilesOutside(files, d);
      dirs := DirsOutside(dirs, d);
    }
  }
}
