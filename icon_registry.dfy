/** The directory scan both versions of the icon class perform: every `.svg` file name is turned
    into an icon name by a sanitiser applied to its stem, and the name is mapped to the file's path
    in a dict that is filled in listing order, a later file overwriting an earlier one whose name
    sanitises the same way. The two versions differ only in the sanitiser. */
module IconRegistry {
  import opened Wrappers
  import opened Exceptions
  import opened Dicts
  import opened OsPath

  /** A sanitiser maps a file name to its icon name, or to `None` when computing the name would
      raise `IndexError` (an empty stem). */
  type Sanitiser = string -> Option<string>

  /** The dict the scan loop has built after visiting `files`, or the `IndexError` that stopped it. */
  function Scan(sanitise: Sanitiser, dir: string, files: seq<string>): (r: Result<Dict<string>, Error>)
    ensures r.Failure? ==> r.error.IndexError? && r.error.file in files
    decreases |files|
  {
    if files == [] then Success(Dicts.Empty())
    else
      var last := files[|files| - 1];
      match Scan(sanitise, dir, files[..|files| - 1])
      case Failure(e) => Failure(e)
      case Success(d) =>
        match sanitise(last)
        case None => Failure(IndexError(last))
        case Some(k) => Success(Dicts.Insert(d, k, Join(dir, last)))
  }

  /** Once a prefix of the files has stopped the scan, the rest of the files change nothing. */
  lemma {:induction false} ScanStopsAtFailure(sanitise: Sanitiser, dir: string, files: seq<string>, i: nat)
    requires i <= |files| && Scan(sanitise, dir, files[..i]).Failure?
    ensures Scan(sanitise, dir, files) == Scan(sanitise, dir, files[..i])
    decreases |files|
  {
    if i < |files| {
      var init := files[..|files| - 1];
      assert init[..i] == files[..i];
      ScanStopsAtFailure(sanitise, dir, init, i);
    } else {
      assert files[..i] == files;
    }
  }

  /** The scan of a non-empty list extends the scan of all but its last file. */
  lemma ScanLast(sanitise: Sanitiser, dir: string, files: seq<string>)
    requires files != []
    ensures Scan(sanitise, dir, files) ==
            match Scan(sanitise, dir, files[..|files| - 1])
            case Failure(e) => Failure(e)
            case Success(d) =>
              match sanitise(files[|files| - 1])
              case None => Failure(IndexError(files[|files| - 1]))
              case Some(k) => Success(Dicts.Insert(d, k, Join(dir, files[|files| - 1])))
  {
  }

  /** Every file of `files` has an icon name. */
  ghost predicate AllNamed(sanitise: Sanitiser, files: seq<string>) {
    forall i :: 0 <= i < |files| ==> sanitise(files[i]).Some?
  }

  /** `files[i]` is the first file without an icon name. */
  ghost predicate FirstUnnamed(sanitise: Sanitiser, files: seq<string>, i: int) {
    0 <= i < |files| && sanitise(files[i]).None? && AllNamed(sanitise, files[..i])
  }

  /** The scan fails exactly when some file has no icon name. */
  lemma {:induction false} ScanFailsIffUnnamed(sanitise: Sanitiser, dir: string, files: seq<string>)
    ensures Scan(sanitise, dir, files).Failure? <==> !AllNamed(sanitise, files)
    decreases |files|
  {
    if files != [] {
      ScanFailsIffUnnamed(sanitise, dir, files[..|files| - 1]);
      ScanFailsStep(sanitise, dir, files);
      AllNamedStep(sanitise, files);
    }
  }

  /** The last file makes the scan fail when it has no icon name, and otherwise the prefix decides. */
  lemma ScanFailsStep(sanitise: Sanitiser, dir: string, files: seq<string>)
    requires files != []
    ensures Scan(sanitise, dir, files).Failure? <==>
            Scan(sanitise, dir, files[..|files| - 1]).Failure? || sanitise(files[|files| - 1]).None?
  {
  }

  /** All files are named when all but the last are and the last one is. */
  lemma AllNamedStep(sanitise: Sanitiser, files: seq<string>)
    requires files != []
    ensures AllNamed(sanitise, files) <==>
            AllNamed(sanitise, files[..|files| - 1]) && sanitise(files[|files| - 1]).Some?
  {
    assert forall i :: 0 <= i < |files| - 1 ==> files[..|files| - 1][i] == files[i];
  }

  /** A failed scan reports the `IndexError` of the first file without an icon name. */
  lemma {:induction false} ScanErrorNamesFirst(sanitise: Sanitiser, dir: string, files: seq<string>)
    requires Scan(sanitise, dir, files).Failure?
    ensures exists i :: FirstUnnamed(sanitise, files, i) && Scan(sanitise, dir, files).error == IndexError(files[i])
    decreases |files|
  {
    var n := |files| - 1;
    var init := files[..n];
    ScanLast(sanitise, dir, files);
    if Scan(sanitise, dir, init).Failure? {
      ScanErrorNamesFirst(sanitise, dir, init);
      var i :| FirstUnnamed(sanitise, init, i) && Scan(sanitise, dir, init).error == IndexError(init[i]);
      assert init[..i] == files[..i];
      assert FirstUnnamed(sanitise, files, i);
    } else {
      ScanFailsIffUnnamed(sanitise, dir, init);
      assert files[..n] == init;
      assert FirstUnnamed(sanitise, files, n);
    }
  }

  /** The scan fails exactly when some file has no icon name, and the error names the first such file. */
  lemma ScanFailure(sanitise: Sanitiser, dir: string, files: seq<string>)
    ensures Scan(sanitise, dir, files).Failure? <==> !AllNamed(sanitise, files)
    ensures Scan(sanitise, dir, files).Failure? ==>
            exists i :: FirstUnnamed(sanitise, files, i) && Scan(sanitise, dir, files).error == IndexError(files[i])
  {
    ScanFailsIffUnnamed(sanitise, dir, files);
    if Scan(sanitise, dir, files).Failure? {
      ScanErrorNamesFirst(sanitise, dir, files);
    }
  }

  /** A successful scan builds a valid dict. */
  lemma {:induction false} ScanValid(sanitise: Sanitiser, dir: string, files: seq<string>)
    requires Scan(sanitise, dir, files).Success?
    ensures Valid(Scan(sanitise, dir, files).value)
    decreases |files|
  {
    if files != [] {
      ScanLast(sanitise, dir, files);
      ScanValid(sanitise, dir, files[..|files| - 1]);
    }
  }

  /** Some file of `files` has icon name `k`. */
  ghost predicate Named(sanitise: Sanitiser, files: seq<string>, k: string) {
    exists i :: 0 <= i < |files| && sanitise(files[i]) == Some(k)
  }

  /** `files[i]` is the last file of `files` whose icon name is `k`. */
  ghost predicate LastNamed(sanitise: Sanitiser, files: seq<string>, i: int, k: string) {
    && 0 <= i < |files| && sanitise(files[i]) == Some(k)
    && forall j :: i < j < |files| ==> sanitise(files[j]) != Some(k)
  }

  /** `path` is the joined path of the last file of `files` whose icon name is `k`. */
  ghost predicate PathOfLast(sanitise: Sanitiser, dir: string, files: seq<string>, k: string, path: string) {
    exists i :: LastNamed(sanitise, files, i, k) && path == Join(dir, files[i])
  }

  /** The keys of a successful scan are exactly the icon names of the files. */
  lemma {:induction false} ScanKeys(sanitise: Sanitiser, dir: string, files: seq<string>)
    requires Scan(sanitise, dir, files).Success?
    ensures forall k :: k in Scan(sanitise, dir, files).value.entries <==> Named(sanitise, files, k)
    decreases |files|
  {
    if files == [] {
      return;
    }
    var n := |files| - 1;
    var init := files[..n];
    ScanLast(sanitise, dir, files);
    ScanKeys(sanitise, dir, init);
    var d := Scan(sanitise, dir, init).value;
    var k0 := sanitise(files[n]).value;
    var r := Scan(sanitise, dir, files).value;
    assert r == Dicts.Insert(d, k0, Join(dir, files[n]));
    forall k
      ensures k in r.entries <==> Named(sanitise, files, k)
    {
      NamedStep(sanitise, files, k);
    }
  }

  /** A name occurs in `files` exactly when it occurs in all but the last file or is the last file's. */
  lemma NamedStep(sanitise: Sanitiser, files: seq<string>, k: string)
    requires files != []
    ensures Named(sanitise, files, k) <==>
            (Named(sanitise, files[..|files| - 1], k) || sanitise(files[|files| - 1]) == Some(k))
  {
    var n := |files| - 1;
    var init := files[..n];
    if Named(sanitise, files, k) && sanitise(files[n]) != Some(k) {
      var i :| 0 <= i < |files| && sanitise(files[i]) == Some(k);
      assert init[i] == files[i];
    }
    if Named(sanitise, init, k) {
      var i :| 0 <= i < n && sanitise(init[i]) == Some(k);
      assert init[i] == files[i];
    }
  }

  /** Every value of a successful scan is the joined path of the LAST file carrying its key. */
  lemma {:induction false} ScanValues(sanitise: Sanitiser, dir: string, files: seq<string>)
    requires Scan(sanitise, dir, files).Success?
    ensures forall k :: k in Scan(sanitise, dir, files).value.entries ==>
                        PathOfLast(sanitise, dir, files, k, Scan(sanitise, dir, files).value.entries[k])
    decreases |files|
  {
    if files == [] {
      return;
    }
    var n := |files| - 1;
    var init := files[..n];
    ScanLast(sanitise, dir, files);
    ScanValues(sanitise, dir, init);
    var d := Scan(sanitise, dir, init).value;
    var k0 := sanitise(files[n]).value;
    var r := Scan(sanitise, dir, files).value;
    assert r == Dicts.Insert(d, k0, Join(dir, files[n]));
    forall k | k in r.entries
      ensures PathOfLast(sanitise, dir, files, k, r.entries[k])
    {
      if k == k0 {
        assert r.entries[k] == Join(dir, files[n]);
        PathOfLastOwn(sanitise, dir, files, k);
      } else {
        assert k in d.entries && r.entries[k] == d.entries[k];
        assert PathOfLast(sanitise, dir, init, k, d.entries[k]);
        PathOfLastKept(sanitise, dir, files, k, r.entries[k]);
      }
    }
  }

  /** The last file owns the name it is sanitised to. */
  lemma PathOfLastOwn(sanitise: Sanitiser, dir: string, files: seq<string>, k: string)
    requires files != [] && sanitise(files[|files| - 1]) == Some(k)
    ensures PathOfLast(sanitise, dir, files, k, Join(dir, files[|files| - 1]))
  {
    assert LastNamed(sanitise, files, |files| - 1, k);
  }

  /** A name the last file is not sanitised to keeps the owner it had before that file. */
  lemma PathOfLastKept(sanitise: Sanitiser, dir: string, files: seq<string>, k: string, path: string)
    requires files != [] && sanitise(files[|files| - 1]) != Some(k)
    requires PathOfLast(sanitise, dir, files[..|files| - 1], k, path)
    ensures PathOfLast(sanitise, dir, files, k, path)
  {
    var n := |files| - 1;
    var init := files[..n];
    var i :| LastNamed(sanitise, init, i, k) && path == Join(dir, init[i]);
    assert files[i] == init[i];
    forall j | i < j < |files|
      ensures sanitise(files[j]) != Some(k)
    {
      if j < n {
        assert files[j] == init[j];
      }
    }
    assert LastNamed(sanitise, files, i, k);
  }

  /** The file scanned last always wins the name it sanitises to. */
  lemma LastFileWins(sanitise: Sanitiser, dir: string, files: seq<string>, f: string)
    requires Scan(sanitise, dir, files).Success? && sanitise(f).Some?
    ensures Scan(sanitise, dir, files + [f]).Success?
    ensures Get(Scan(sanitise, dir, files + [f]).value, sanitise(f).value) == Some(Join(dir, f))
  {
    assert (files + [f])[..|files|] == files;
  }

  /** The loop of the scan: `for svg_file in svg_files: ... icon_name_to_path_dict[icon_name] = path`,
      filling a fresh dict. */
  method ScanIcons(sanitise: Sanitiser, dir: string, svgFiles: seq<string>) returns (r: Result<Dict<string>, Error>)
    ensures r == Scan(sanitise, dir, svgFiles)
  {
    var d := Dicts.Empty();
    var i := 0;
    while i < |svgFiles|
      invariant 0 <= i <= |svgFiles|
      invariant Scan(sanitise, dir, svgFiles[..i]) == Success(d)
    {
      var svgFile := svgFiles[i];
      assert svgFiles[..i + 1][..i] == svgFiles[..i];
      var iconName := sanitise(svgFile);
      if iconName.None? {
        ScanStopsAtFailure(sanitise, dir, svgFiles, i + 1);
        return Failure(IndexError(svgFile));
      }
      d := Dicts.Insert(d, iconName.value, Join(dir, svgFile));
      i := i + 1;
    }
    assert svgFiles[..i] == svgFiles;
    return Success(d);
  }

  /** The whole scan as the source performs it: `FileNotFoundError` when the directory is missing,
      otherwise the loop over the `.svg` names of its listing. */
  function Registry(sanitise: Sanitiser, fs: FileSystem, dir: string): (r: Result<Dict<string>, Error>)
    ensures !IsDir(fs, dir) ==> r == Failure(FileNotFound(dir))
    ensures IsDir(fs, dir) && r.Failure? ==>
      r.error.IndexError? && r.error.file in ListDir(fs, dir) && IsSvg(r.error.file)
  {
    if !IsDir(fs, dir) then Failure(FileNotFound(dir))
    else Scan(sanitise, dir, SvgFiles(ListDir(fs, dir)))
  }

  /** Every entry of the registry comes from a listed `.svg` file of the directory: the key is that
      file's icon name and the value its joined path. */
  lemma RegistryEntriesFromSvgFiles(sanitise: Sanitiser, fs: FileSystem, dir: string)
    requires Registry(sanitise, fs, dir).Success?
    ensures IsDir(fs, dir)
    ensures Valid(Registry(sanitise, fs, dir).value)
    ensures forall k :: k in Registry(sanitise, fs, dir).value.entries ==>
                        exists f :: && f in ListDir(fs, dir) && IsSvg(f) && sanitise(f) == Some(k)
                                    && Registry(sanitise, fs, dir).value.entries[k] == Join(dir, f)
  {
    var files := SvgFiles(ListDir(fs, dir));
    var d := Registry(sanitise, fs, dir).value;
    assert Scan(sanitise, dir, files) == Success(d);
    ScanValid(sanitise, dir, files);
    ScanValues(sanitise, dir, files);
    forall k | k in d.entries
      ensures exists f :: && f in ListDir(fs, dir) && IsSvg(f) && sanitise(f) == Some(k)
                          && d.entries[k] == Join(dir, f)
    {
      assert PathOfLast(sanitise, dir, files, k, d.entries[k]);
      var i :| LastNamed(sanitise, files, i, k) && d.entries[k] == Join(dir, files[i]);
      assert files[i] in files;
    }
  }

  /** Every listed `.svg` file of the directory has an entry under its icon name. */
  lemma RegistryCoversSvgFiles(sanitise: Sanitiser, fs: FileSystem, dir: string)
    requires Registry(sanitise, fs, dir).Success?
    ensures IsDir(fs, dir)
    ensures forall f :: f in ListDir(fs, dir) && IsSvg(f) ==>
                        sanitise(f).Some? && sanitise(f).value in Registry(sanitise, fs, dir).value.entries
  {
    var files := SvgFiles(ListDir(fs, dir));
    var d := Registry(sanitise, fs, dir).value;
    assert Scan(sanitise, dir, files) == Success(d);
    ScanKeys(sanitise, dir, files);
    ScanFailsIffUnnamed(sanitise, dir, files);
    forall f | f in ListDir(fs, dir) && IsSvg(f)
      ensures sanitise(f).Some? && sanitise(f).value in d.entries
    {
      var i :| 0 <= i < |files| && files[i] == f;
      assert sanitise(files[i]).Some?;
      assert Named(sanitise, files, sanitise(f).value);
    }
  }

  /** Names in the listing that do not end in `.svg` contribute nothing. */
  lemma NonSvgNamesIgnored(sanitise: Sanitiser, dir: string, a: seq<string>, f: string, b: seq<string>)
    requires !IsSvg(f)
    ensures Scan(sanitise, dir, SvgFiles(a + [f] + b)) == Scan(sanitise, dir, SvgFiles(a + b))
  {
    NonSvgIgnored(a, f, b);
  }
}
