/** The class of the top-level version (`tabler_qicon.py`). Each instance scans the icon
    directory once, when it is created, and keeps that registry; the class methods scan again on
    every call. There is no memo, no icon cache and no guard on attribute assignment. */
module TopLevelQIcon {
  import opened Wrappers
  import opened Exceptions
  import opened Dicts
  import opened OsPath
  import opened Icons
  import IconRegistry
  import TopLevelNames
  import Chars

  /** `TABLER_ICONS_SVG_DIRECTORY`: the `icons` directory beside the module file. */
  function IconDirectory(moduleDirectory: string): (r: string)
    ensures |moduleDirectory| <= |r| && r[..|moduleDirectory|] == moduleDirectory
    ensures |r| >= 5 && r[|r| - 5..] == "icons"
  {
    Join(moduleDirectory, "icons")
  }

  /** The registry the top-level version builds for the icon directory `dir`. */
  function Registry(fs: FileSystem, dir: string): (r: Result<Dict<string>, Error>)
    ensures r.Success? ==> IsDir(fs, dir) && Dicts.Valid(r.value) && "" !in r.value.entries
    ensures r.Failure? ==> (r.error == FileNotFound(dir) <==> !IsDir(fs, dir))
  {
    var r := IconRegistry.Registry(TopLevelNames.FileIconName, fs, dir);
    if r.Success? then
      IconRegistry.RegistryEntriesFromSvgFiles(TopLevelNames.FileIconName, fs, dir);
      r
    else r
  }

  /** Every key of the registry is made of identifier characters and does not start with a digit;
      it may be a keyword or contain `__`. */
  lemma RegistryKeysAreIdentifiers(fs: FileSystem, dir: string)
    requires Registry(fs, dir).Success?
    ensures forall k :: k in Registry(fs, dir).value.entries ==>
      k != [] && Chars.IsIdentifierText(k) && !Chars.IsDigit(k[0])
  {
    IconRegistry.RegistryEntriesFromSvgFiles(TopLevelNames.FileIconName, fs, dir);
  }

  /** `path` is the joined path of a listed `.svg` file of `dir` that is sanitised to `name`. */
  ghost predicate RegisteredFrom(fs: FileSystem, dir: string, name: string, path: Option<string>)
    requires IsDir(fs, dir)
  {
    exists f :: && f in ListDir(fs, dir) && IsSvg(f) && TopLevelNames.FileIconName(f) == Some(name)
                && path == Some(Join(dir, f))
  }

  /** Every name among the registry's keys maps to the joined path of a listed `.svg` file that is
      sanitised to it: each name `get_icon_names` lists, `get_icon_path` knows. */
  lemma NameHasPath(fs: FileSystem, dir: string, name: string)
    requires Registry(fs, dir).Success? && name in Keys(Registry(fs, dir).value)
    ensures RegisteredFrom(fs, dir, name, Get(Registry(fs, dir).value, name))
  {
    IconRegistry.RegistryEntriesFromSvgFiles(TopLevelNames.FileIconName, fs, dir);
  }

  /** `get_icon_name_to_path_dict`: checks the icon directory beside the module in
      `moduleDirectory` and scans its SVG files afresh. */
  method GetIconNameToPathDict(fs: FileSystem, moduleDirectory: string) returns (r: Result<Dict<string>, Error>)
    ensures r == Registry(fs, IconDirectory(moduleDirectory))
    ensures !IsDir(fs, IconDirectory(moduleDirectory)) ==> r == Failure(FileNotFound(IconDirectory(moduleDirectory)))
    ensures r.Success? ==> Dicts.Valid(r.value)
  {
    var dir := IconDirectory(moduleDirectory);
    if !IsDir(fs, dir) {
      return Failure(FileNotFound(dir));
    }
    var svgFiles := SvgFiles(ListDir(fs, dir));
    r := IconRegistry.ScanIcons(TopLevelNames.FileIconName, dir, svgFiles);
    if r.Success? {
      IconRegistry.ScanValid(TopLevelNames.FileIconName, dir, svgFiles);
    }
  }

  /** `get_icon_names`: the keys of a fresh scan, in insertion order. */
  method GetIconNames(fs: FileSystem, moduleDirectory: string) returns (r: Result<seq<string>, Error>)
    ensures r.Failure? <==> Registry(fs, IconDirectory(moduleDirectory)).Failure?
    ensures r.Failure? ==> r.error == Registry(fs, IconDirectory(moduleDirectory)).error
    ensures r.Success? ==> r.value == Registry(fs, IconDirectory(moduleDirectory)).value.order
    ensures r.Success? ==> forall i, j :: 0 <= i < j < |r.value| ==> r.value[i] != r.value[j]
    ensures r.Success? ==> forall k :: k in r.value <==> k in Registry(fs, IconDirectory(moduleDirectory)).value.entries
  {
    var d := GetIconNameToPathDict(fs, moduleDirectory);
    if d.Failure? {
      return Failure(d.error);
    }
    r := Success(Keys(d.value));
  }

  /** `get_icon_path`: the icon directory when no name (or an empty one) is given, without
      scanning; otherwise the path a fresh scan registers for `name`, or `None`. */
  method GetIconPath(name: Option<string>, fs: FileSystem, moduleDirectory: string)
    returns (r: Result<Option<string>, Error>)
    ensures (name.None? || name.value == "") ==> r == Success(Some(IconDirectory(moduleDirectory)))
    ensures name.Some? && name.value != "" && Registry(fs, IconDirectory(moduleDirectory)).Failure? ==>
      r == Failure(Registry(fs, IconDirectory(moduleDirectory)).error)
    ensures name.Some? && name.value != "" && Registry(fs, IconDirectory(moduleDirectory)).Success? ==>
      r == Success(Get(Registry(fs, IconDirectory(moduleDirectory)).value, name.value))
  {
    if name.None? || name.value == "" {
      return Success(Some(IconDirectory(moduleDirectory)));
    }
    var d := GetIconNameToPathDict(fs, moduleDirectory);
    if d.Failure? {
      return Failure(d.error);
    }
    r := Success(Get(d.value, name.value));
  }

  /** `[get_icon_path(n) for n in get_icon_names()]`: every listed name has a path, and that path
      is the joined path of a listed `.svg` file that is sanitised to the name. */
  method PathsOfIconNames(fs: FileSystem, moduleDirectory: string)
    returns (names: Result<seq<string>, Error>, paths: seq<Option<string>>)
    ensures names.Failure? <==> Registry(fs, IconDirectory(moduleDirectory)).Failure?
    ensures names.Success? ==> IsDir(fs, IconDirectory(moduleDirectory)) && |paths| == |names.value|
    ensures names.Success? ==> forall i :: 0 <= i < |paths| ==>
      RegisteredFrom(fs, IconDirectory(moduleDirectory), names.value[i], paths[i])
  {
    paths := [];
    names := GetIconNames(fs, moduleDirectory);
    if names.Failure? {
      return;
    }
    ghost var dir := IconDirectory(moduleDirectory);
    ghost var d := Registry(fs, dir).value;
    var i := 0;
    while i < |names.value|
      invariant 0 <= i <= |names.value| && |paths| == i
      invariant forall j :: 0 <= j < i ==> paths[j] == Get(d, names.value[j])
    {
      var name := names.value[i];
      assert name in d.entries && name != "";
      var p := GetIconPath(Some(name), fs, moduleDirectory);
      assert p == Success(Get(d, name));
      paths := paths + [p.value];
      i := i + 1;
    }
    forall j | 0 <= j < |paths|
      ensures RegisteredFrom(fs, dir, names.value[j], paths[j])
    {
      NameHasPath(fs, dir, names.value[j]);
    }
  }

  /** What `get_qicon` returns for the registry `d`: the empty icon when `name` has no entry (or an
      empty path); with the SVG renderer, an error when the registered file cannot be opened;
      otherwise the file painted in `color` with `style`. */
  function LookupIcon(d: Dict<string>, name: string, color: Color, style: Style, fs: FileSystem,
                      svgBackend: bool)
    : (r: Result<Icon, Error>)
    ensures r == Success(Empty) <==> name !in d.entries || d.entries[name] == ""
    ensures r.Failure? <==> name in d.entries && d.entries[name] != "" && svgBackend && !IsFile(fs, d.entries[name])
    ensures r.Failure? ==> r.error == OpenFailed(d.entries[name])
    ensures r.Success? && r.value.Rendered? ==> r.value == Render(d.entries[name], color, style, svgBackend)
  {
    match Get(d, name)
    case None => Success(Empty)
    case Some(path) =>
      if path == "" then Success(Empty)
      else if svgBackend && !IsFile(fs, path) then Failure(OpenFailed(path))
      else Success(Render(path, color, style, svgBackend))
  }

  /** A directory whose name ends in `.svg` is registered like an icon file: the scan filters
      names only, so `get_icon_path("x")` gives the directory's path, and with the SVG renderer
      `get_qicon` then fails to open it. */
  lemma DirectoryNamedSvgExample(color: Color, style: Style)
    ensures var fs := FileSystem(map["icons" := ["x.svg"], "icons/x.svg" := []], {});
      && IsDir(fs, "icons/x.svg")
      && Registry(fs, "icons") == Success(Dict(["x"], map["x" := "icons/x.svg"]))
      && LookupIcon(Dict(["x"], map["x" := "icons/x.svg"]), "x", color, style, fs, true)
         == Failure(OpenFailed("icons/x.svg"))
  {
    OsPath.StemOfDotted("x", "svg");
    assert "x" + "." + "svg" == "x.svg";
    assert TopLevelNames.ReplaceInvalid("x") == "x";
    assert TopLevelNames.FileIconName("x.svg") == Some("x");
    assert SvgFiles(["x.svg"]) == ["x.svg"];
    assert Join("icons", "x.svg") == "icons/x.svg";
  }

  /** A `TablerQIcon` instance: its drawing settings and the registry scanned when it was made. */
  class TablerQIcon {
    var color: Color
    var size: int
    var viewBoxSize: int
    var strokeWidth: int
    var opacity: real
    var iconNameToPathDict: Dict<string>

    /** The settings `get_qicon` paints with; the colour is always given. */
    function Style(): Style
      reads this
    {
      Icons.Style(Some(color), size, viewBoxSize, strokeWidth, opacity)
    }

    constructor (color: Color, size: int, viewBoxSize: int, strokeWidth: int, opacity: real,
                 iconNameToPathDict: Dict<string>)
      ensures this.color == color && this.size == size && this.viewBoxSize == viewBoxSize
      ensures this.strokeWidth == strokeWidth && this.opacity == opacity
      ensures this.iconNameToPathDict == iconNameToPathDict
    {
      this.color := color;
      this.size := size;
      this.viewBoxSize := viewBoxSize;
      this.strokeWidth := strokeWidth;
      this.opacity := opacity;
      this.iconNameToPathDict := iconNameToPathDict;
    }

    /** `get_qicon`: looks the name up in the registry kept since construction. */
    function GetQIcon(name: string, fs: FileSystem, svgBackend: bool): (r: Result<Icon, Error>)
      reads this
      ensures r.Success? && r.value.Rendered? ==>
        name in iconNameToPathDict.entries && r.value.source == iconNameToPathDict.entries[name]
        && r.value.color == color && r.value.size == size && r.value.opacity == opacity
      ensures svgBackend && r.Success? && r.value.Rendered? ==>
        r.value.svg == Some(SvgSettings(viewBoxSize, strokeWidth))
      ensures name !in iconNameToPathDict.entries ==> r == Success(Empty)
    {
      LookupIcon(iconNameToPathDict, name, color, Style(), fs, svgBackend)
    }
  }

  /** `TablerQIcon(...)`: scans the icon directory, then stores the settings and the registry.
      When the scan fails no instance is created. */
  method NewTablerQIcon(fs: FileSystem, moduleDirectory: string, color: Color, size: int, viewBoxSize: int,
                        strokeWidth: int, opacity: real)
    returns (r: Result<TablerQIcon, Error>)
    ensures r.Failure? <==> Registry(fs, IconDirectory(moduleDirectory)).Failure?
    ensures r.Failure? ==> r.error == Registry(fs, IconDirectory(moduleDirectory)).error
    ensures r.Success? ==> fresh(r.value) && r.value.iconNameToPathDict == Registry(fs, IconDirectory(moduleDirectory)).value
    ensures r.Success? ==> r.value.Style() == Icons.Style(Some(color), size, viewBoxSize, strokeWidth, opacity)
  {
    var d := GetIconNameToPathDict(fs, moduleDirectory);
    if d.Failure? {
      return Failure(d.error);
    }
    var q := new TablerQIcon(color, size, viewBoxSize, strokeWidth, opacity, d.value);
    r := Success(q);
  }
}
