/** The file-system calls the icon code makes, taken as an oracle, and the string helpers it applies
    to file names (`os.path.join`, `str.split`, `str.endswith`). */
module OsPath {

  /** What the code can observe of the file system: the listing of every existing directory
      (`os.path.isdir`, `os.listdir`) and the set of paths that are regular files (`os.path.isfile`). */
  datatype FileSystem = FileSystem(directories: map<string, seq<string>>, files: set<string>)

  /** `os.path.isdir(p)` */
  predicate IsDir(fs: FileSystem, p: string) {
    p in fs.directories
  }

  /** `os.listdir(p)` for an existing directory, in the order the operating system returns the names. */
  function ListDir(fs: FileSystem, p: string): seq<string>
    requires IsDir(fs, p)
  {
    fs.directories[p]
  }

  /** `os.path.isfile(p)`; the empty path is never a file. */
  predicate IsFile(fs: FileSystem, p: string) {
    p != "" && p in fs.files
  }

  /** `os.path.join(a, b)` on POSIX: an absolute `b` replaces `a`; otherwise a separator is inserted
      unless `a` is empty or already ends with one. */
  function Join(a: string, b: string): (r: string)
    ensures |b| <= |r| && r[|r| - |b|..] == b
    ensures (b != [] && b[0] == '/') || (|a| <= |r| && r[..|a|] == a)
    ensures b != [] ==> r != []
  {
    if b != [] && b[0] == '/' then b
    else if a == [] || a[|a| - 1] == '/' then a + b
    else a + "/" + b
  }

  /** `f.split('.')[0]`: the part of `f` before its first dot, or all of `f` when it has none. */
  function Stem(f: string): (r: string)
    ensures |r| <= |f| && r == f[..|r|]
    ensures '.' !in r
    ensures |r| < |f| ==> f[|r|] == '.'
  {
    if f == [] || f[0] == '.' then [] else [f[0]] + Stem(f[1..])
  }

  /** The stem is determined by the text before the first dot: whatever follows does not matter. */
  lemma {:induction false} StemOfDotted(s: string, t: string)
    requires '.' !in s
    ensures Stem(s + "." + t) == s
  {
    if s != [] {
      assert (s + "." + t)[1..] == s[1..] + "." + t;
      StemOfDotted(s[1..], t);
    }
  }

  /** `f.endswith('.svg')` */
  predicate IsSvg(f: string): (r: bool)
    ensures r ==> |f| >= 4 && f == f[..|f| - 4] + ".svg"
    ensures r <==> exists p :: f == p + ".svg"
  {
    |f| >= 4 && f[|f| - 4..] == ".svg"
  }

  /** `[f for f in names if f.endswith('.svg')]` */
  function SvgFiles(names: seq<string>): (r: seq<string>)
    ensures |r| <= |names|
    ensures forall f :: f in r <==> f in names && IsSvg(f)
  {
    if names == [] then []
    else (if IsSvg(names[0]) then [names[0]] else []) + SvgFiles(names[1..])
  }

  /** The filter distributes over concatenation, so it keeps the listing's order. */
  lemma {:induction false} SvgFilesAppend(a: seq<string>, b: seq<string>)
    ensures SvgFiles(a + b) == SvgFiles(a) + SvgFiles(b)
  {
    if a != [] {
      assert (a + b)[0] == a[0] && (a + b)[1..] == a[1..] + b;
      SvgFilesAppend(a[1..], b);
    } else {
      assert a + b == b;
    }
  }

  /** A listed name that does not end in `.svg` is dropped wherever it appears. */
  lemma NonSvgIgnored(a: seq<string>, f: string, b: seq<string>)
    requires !IsSvg(f)
    ensures SvgFiles(a + [f] + b) == SvgFiles(a + b)
  {
    SvgFilesAppend(a + [f], b);
    SvgFilesAppend(a, [f]);
    SvgFilesAppend(a, b);
  }
}
