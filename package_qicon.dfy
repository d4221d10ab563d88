/** The classes of the package version (`tabler_qicon/tabler_qicon.py`): the metaclass that owns
    the memoised icon registry, and `TablerQIcon`, whose instances keep a cache of finished icons. */
module PackageQIcon {
  import opened Wrappers
  import opened Exceptions
  import opened Dicts
  import opened OsPath
  import opened Icons
  import IconRegistry
  import PackageNames
  import Chars

  /** The registry the package builds for the icon directory `dir`. */
  function Registry(fs: FileSystem, dir: string): (r: Result<Dict<string>, Error>)
    ensures r.Success? ==> IsDir(fs, dir) && Dicts.Valid(r.value) && "" !in r.value.entries
    ensures r.Failure? ==> (r.error == FileNotFound(dir) <==> !IsDir(fs, dir))
  {
    var r := IconRegistry.Registry(PackageNames.FileIconName, fs, dir);
    if r.Success? then
      IconRegistry.RegistryEntriesFromSvgFiles(PackageNames.FileIconName, fs, dir);
      r
    else r
  }

  /** Every key of the registry can be written as an attribute: identifier characters only, no
      `__`, not a keyword and not starting with a digit. */
  lemma RegistryKeysAreAttributeNames(fs: FileSystem, dir: string)
    requires Registry(fs, dir).Success?
    ensures forall k :: k in Registry(fs, dir).value.entries ==>
      && k != [] && Chars.IsIdentifierText(k) && PackageNames.NoDoubleUnderscore(k)
      && !Chars.IsKeyword(k) && !Chars.IsDigit(k[0])
  {
    IconRegistry.RegistryEntriesFromSvgFiles(PackageNames.FileIconName, fs, dir);
  }

  /** `path` is the joined path of a listed `.svg` file of `dir` that is sanitised to `name`. */
  ghost predicate RegisteredFrom(fs: FileSystem, dir: string, name: string, path: Option<string>)
    requires IsDir(fs, dir)
  {
    exists f :: && f in ListDir(fs, dir) && IsSvg(f) && PackageNames.FileIconName(f) == Some(name)
                && path == Some(Join(dir, f))
  }

  /** Every name among the registry's keys maps to the joined path of a listed `.svg` file that is
      sanitised to it: each name `get_icon_names` lists, `get_icon_path` knows. */
  lemma NameHasPath(fs: FileSystem, dir: string, name: string)
    requires Registry(fs, dir).Success? && name in Keys(Registry(fs, dir).value)
    ensures RegisteredFrom(fs, dir, name, Get(Registry(fs, dir).value, name))
  {
    IconRegistry.RegistryEntriesFromSvgFiles(PackageNames.FileIconName, fs, dir);
  }

  /** Looking up each of the registry's names in turn gives, for every name, the joined path of a
      listed `.svg` file that is sanitised to it. */
  lemma PathsOfNamesRegistered(fs: FileSystem, dir: string, names: seq<string>, paths: seq<Option<string>>)
    requires Registry(fs, dir).Success? && names == Registry(fs, dir).value.order
    requires |paths| == |names| && forall i :: 0 <= i < |paths| ==> paths[i] == Get(Registry(fs, dir).value, names[i])
    ensures forall i :: 0 <= i < |paths| ==> RegisteredFrom(fs, dir, names[i], paths[i])
  {
    forall i | 0 <= i < |paths|
      ensures RegisteredFrom(fs, dir, names[i], paths[i])
    {
      NameHasPath(fs, dir, names[i]);
    }
  }

  /** A directory whose name ends in `.svg` is registered like an icon file: the scan filters
      names only, so `get_icon_path("x")` gives the directory's path, and `_get_qicon` then returns
      the empty icon because that path is not a file. */
  lemma DirectoryNamedSvgExample(style: Style, appTextColor: Color, svgBackend: bool)
    ensures var fs := FileSystem(map["icons" := ["x.svg"], "icons/x.svg" := []], {});
      && IsDir(fs, "icons/x.svg")
      && Registry(fs, "icons") == Success(Dict(["x"], map["x" := "icons/x.svg"]))
      && LookupIcon(Dict(["x"], map["x" := "icons/x.svg"]), "x", style, appTextColor, fs, svgBackend) == Empty
  {
    OsPath.StemOfDotted("x", "svg");
    assert "x" + "." + "svg" == "x.svg";
    PackageNames.CollapseFixpoint("x");
    assert PackageNames.Collapse("x") == "x";
    assert PackageNames.FileIconName("x.svg") == Some("x");
    assert SvgFiles(["x.svg"]) == ["x.svg"];
    assert Join("icons", "x.svg") == "icons/x.svg";
  }

  /** What `_get_qicon` returns once it has the registry `d`: the empty icon when `name` has no
      entry or its entry is not an existing file, otherwise that file painted with `style`. */
  function LookupIcon(d: Dict<string>, name: string, style: Style, appTextColor: Color,
                      fs: FileSystem, svgBackend: bool): (r: Icon)
    ensures r.Rendered? <==> name in d.entries && IsFile(fs, d.entries[name])
    ensures r.Rendered? ==> r == Render(d.entries[name], PaintColor(style, appTextColor), style, svgBackend)
  {
    var path := GetOr(d, name, "");
    if !IsFile(fs, path) then Empty else Render(path, PaintColor(style, appTextColor), style, svgBackend)
  }

  /** A value assigned to an attribute. Python assigns any value; the model has one case per
      attribute type of `TablerQIcon`. */
  datatype AttrValue =
    | ColorValue(color: Option<Color>)
    | IntValue(n: int)
    | RealValue(x: real)
    | CacheValue(cache: map<string, Icon>)

  /** The attributes a `TablerQIcon` instance lets callers assign. */
  const SettableAttributes: set<string> :=
    {"_color", "_size", "_view_box_size", "_stroke_width", "_opacity", "_icon_cache_dict"}

  /** `value` has the type the allowed attribute `name` holds. */
  predicate Fits(name: string, value: AttrValue) {
    match name
    case "_color" => value.ColorValue?
    case "_opacity" => value.RealValue?
    case "_icon_cache_dict" => value.CacheValue?
    case _ => value.IntValue?
  }

  /** The metaclass `TablerQIconMeta`. Its one piece of state is the class variable
      `_icon_name_to_path_dict`, written by the class method `_get_icon_name_to_path_dict`. That
      method is bound to the metaclass itself, so the write does not go through the metaclass's
      own `__setattr__`, which guards only the attributes of the class `TablerQIcon`. */
  class TablerQIconMeta {
    /** `TABLER_ICONS_SVG_DIRECTORY`: the `icons` directory beside the module file. */
    const iconDirectory: string
    /** The memo: empty until a scan has found at least one icon. A scan never registers the empty
        name, so neither does the memo. */
    var iconNameToPathDict: Dict<string>

    ghost predicate Valid()
      reads this
    {
      Dicts.Valid(iconNameToPathDict) && "" !in iconNameToPathDict.entries
    }

    /** The memo agrees with a fresh scan of `fs` whenever it is populated. */
    ghost predicate Consistent(fs: FileSystem)
      reads this
    {
      IsTruthy(iconNameToPathDict) ==> Registry(fs, iconDirectory) == Success(iconNameToPathDict)
    }

    /** What `_get_icon_name_to_path_dict` returns in the current state: the memo when it is
        non-empty (a Python dict is true when it is non-empty), otherwise a fresh scan. */
    ghost function Memoised(fs: FileSystem): (r: Result<Dict<string>, Error>)
      reads this
      ensures r.Failure? ==> !IsTruthy(iconNameToPathDict)
      ensures Valid() && r.Success? ==> Dicts.Valid(r.value) && "" !in r.value.entries
    {
      if IsTruthy(iconNameToPathDict) then Success(iconNameToPathDict) else Registry(fs, iconDirectory)
    }

    constructor (moduleDirectory: string)
      ensures iconDirectory == Join(moduleDirectory, "icons")
      ensures iconNameToPathDict == Dicts.Empty()
      ensures Valid()
    {
      iconDirectory := Join(moduleDirectory, "icons");
      iconNameToPathDict := Dicts.Empty();
    }

    /** `_get_icon_name_to_path_dict`: returns the memo if it is populated; otherwise checks the
        directory, scans its SVG files and stores the result. A failed scan stores nothing. */
    method GetIconNameToPathDict(fs: FileSystem) returns (r: Result<Dict<string>, Error>)
      requires Valid()
      modifies this
      ensures Valid()
      ensures r == old(Memoised(fs))
      ensures Memoised(fs) == old(Memoised(fs))
      ensures old(Memoised(fs)).Success? ==> iconNameToPathDict == old(Memoised(fs)).value
      ensures old(Memoised(fs)).Failure? ==> iconNameToPathDict == old(iconNameToPathDict)
      ensures r.Success? ==> Dicts.Valid(r.value)
      ensures old(IsTruthy(iconNameToPathDict)) ==> iconNameToPathDict == old(iconNameToPathDict)
      ensures !old(IsTruthy(iconNameToPathDict)) && r.Success? ==> iconNameToPathDict == r.value
      ensures r.Failure? ==> iconNameToPathDict == old(iconNameToPathDict)
      ensures r.Failure? <==> !old(IsTruthy(iconNameToPathDict)) && Registry(fs, iconDirectory).Failure?
      ensures old(Consistent(fs)) ==> Consistent(fs) && (r.Success? ==> r == Registry(fs, iconDirectory))
    {
      if IsTruthy(iconNameToPathDict) {
        return Success(iconNameToPathDict);
      }
      if !IsDir(fs, iconDirectory) {
        return Failure(FileNotFound(iconDirectory));
      }
      var svgFiles := SvgFiles(ListDir(fs, iconDirectory));
      r := IconRegistry.ScanIcons(PackageNames.FileIconName, iconDirectory, svgFiles);
      assert r == Registry(fs, iconDirectory);
      if r.Success? {
        iconNameToPathDict := r.value;
      }
    }

    /** `_get_qicon`: the icon for `name` drawn with `style`, or the scan's error. */
    method GetQIcon(name: string, style: Style, appTextColor: Color, fs: FileSystem, svgBackend: bool)
      returns (r: Result<Icon, Error>)
      requires Valid()
      modifies this
      ensures Valid()
      ensures old(Memoised(fs)).Failure? ==> r == Failure(old(Memoised(fs)).error)
      ensures old(Memoised(fs)).Success? ==>
        r == Success(LookupIcon(old(Memoised(fs)).value, name, style, appTextColor, fs, svgBackend))
      ensures old(Memoised(fs)).Success? ==> iconNameToPathDict == old(Memoised(fs)).value
      ensures old(Memoised(fs)).Failure? ==> iconNameToPathDict == old(iconNameToPathDict)
      ensures old(IsTruthy(iconNameToPathDict)) ==> iconNameToPathDict == old(iconNameToPathDict)
      ensures Memoised(fs) == old(Memoised(fs))
      ensures old(Consistent(fs)) ==> Consistent(fs)
    {
      var d := GetIconNameToPathDict(fs);
      if d.Failure? {
        return Failure(d.error);
      }
      r := Success(LookupIcon(d.value, name, style, appTextColor, fs, svgBackend));
    }

    /** `__getattr__` on the class: an icon with the default arguments. */
    method GetAttr(name: string, appTextColor: Color, fs: FileSystem, svgBackend: bool)
      returns (r: Result<Icon, Error>)
      requires Valid()
      modifies this
      ensures Valid()
      ensures old(Memoised(fs)).Failure? ==> r == Failure(old(Memoised(fs)).error)
      ensures old(Memoised(fs)).Success? ==>
        r == Success(LookupIcon(old(Memoised(fs)).value, name, DefaultStyle, appTextColor, fs, svgBackend))
      ensures old(Memoised(fs)).Success? ==> iconNameToPathDict == old(Memoised(fs)).value
      ensures old(Memoised(fs)).Failure? ==> iconNameToPathDict == old(iconNameToPathDict)
      ensures old(IsTruthy(iconNameToPathDict)) ==> iconNameToPathDict == old(iconNameToPathDict)
      ensures Memoised(fs) == old(Memoised(fs))
      ensures old(Consistent(fs)) ==> Consistent(fs)
    {
      r := GetQIcon(name, DefaultStyle, appTextColor, fs, svgBackend);
    }

    /** `__setattr__` on the class: assigning any attribute of `TablerQIcon` fails. */
    method SetAttr(name: string, value: AttrValue) returns (r: Outcome<Error>)
      ensures r == Fail(AttributeError(name))
    {
      r := Fail(AttributeError(name));
    }

    /** `get_icon_names`: the keys of the registry, in insertion order. */
    method GetIconNames(fs: FileSystem) returns (r: Result<seq<string>, Error>)
      requires Valid()
      modifies this
      ensures Valid()
      ensures r.Failure? <==> old(Memoised(fs)).Failure?
      ensures r.Failure? ==> r.error == old(Memoised(fs)).error
      ensures r.Success? ==> r.value == old(Memoised(fs)).value.order
      ensures r.Success? ==> forall i, j :: 0 <= i < j < |r.value| ==> r.value[i] != r.value[j]
      ensures r.Success? ==> forall k :: k in r.value <==> k in old(Memoised(fs)).value.entries
      ensures old(Memoised(fs)).Success? ==> iconNameToPathDict == old(Memoised(fs)).value
      ensures old(Memoised(fs)).Failure? ==> iconNameToPathDict == old(iconNameToPathDict)
      ensures old(IsTruthy(iconNameToPathDict)) ==> iconNameToPathDict == old(iconNameToPathDict)
      ensures Memoised(fs) == old(Memoised(fs))
      ensures old(Consistent(fs)) ==> Consistent(fs)
    {
      var d := GetIconNameToPathDict(fs);
      if d.Failure? {
        return Failure(d.error);
      }
      r := Success(Keys(d.value));
    }

    /** `get_icon_path`: the icon directory when no name (or an empty one) is given, without
        touching the registry; otherwise the path registered for `name`, or `None`. */
    method GetIconPath(name: Option<string>, fs: FileSystem) returns (r: Result<Option<string>, Error>)
      requires Valid()
      modifies this
      ensures Valid()
      ensures (name.None? || name.value == "") ==>
        r == Success(Some(iconDirectory)) && iconNameToPathDict == old(iconNameToPathDict)
      ensures name.Some? && name.value != "" && old(Memoised(fs)).Failure? ==>
        r == Failure(old(Memoised(fs)).error)
      ensures name.Some? && name.value != "" && old(Memoised(fs)).Success? ==>
        r == Success(Get(old(Memoised(fs)).value, name.value))
      ensures name.Some? && name.value != "" && old(Memoised(fs)).Success? ==>
        iconNameToPathDict == old(Memoised(fs)).value
      ensures name.Some? && name.value != "" && old(Memoised(fs)).Failure? ==>
        iconNameToPathDict == old(iconNameToPathDict)
      ensures old(IsTruthy(iconNameToPathDict)) ==> iconNameToPathDict == old(iconNameToPathDict)
      ensures Memoised(fs) == old(Memoised(fs))
      ensures old(Consistent(fs)) ==> Consistent(fs)
    {
      if name.None? || name.value == "" {
        return Success(Some(iconDirectory));
      }
      var d := GetIconNameToPathDict(fs);
      if d.Failure? {
        return Failure(d.error);
      }
      r := Success(Get(d.value, name.value));
    }
  }

  /** `TablerQIcon` instances: drawing settings and a cache of the icons already produced. */
  class TablerQIcon {
    const meta: TablerQIconMeta
    var color: Option<Color>
    var size: int
    var viewBoxSize: int
    var strokeWidth: int
    var opacity: real
    var iconCacheDict: map<string, Icon>

    /** Every cached icon is what a fresh lookup with the current settings would return. Changing
        a setting through `SetAttr` keeps the cache, so it can break this. */
    ghost predicate CacheAgrees(appTextColor: Color, fs: FileSystem, svgBackend: bool)
      reads this, meta
    {
      meta.Memoised(fs).Success? ==>
        forall n :: n in iconCacheDict ==>
          iconCacheDict[n] == LookupIcon(meta.Memoised(fs).value, n, Style(), appTextColor, fs, svgBackend)
    }

    /** The settings passed on to `_get_qicon`. */
    function Style(): Style
      reads this
    {
      Icons.Style(color, size, viewBoxSize, strokeWidth, opacity)
    }

    constructor (meta: TablerQIconMeta, color: Option<Color>, size: int, viewBoxSize: int,
                 strokeWidth: int, opacity: real)
      ensures this.meta == meta
      ensures Style() == Icons.Style(color, size, viewBoxSize, strokeWidth, opacity)
      ensures iconCacheDict == map[]
    {
      this.meta := meta;
      this.color := color;
      this.size := size;
      this.viewBoxSize := viewBoxSize;
      this.strokeWidth := strokeWidth;
      this.opacity := opacity;
      iconCacheDict := map[];
    }

    /** `get_qicon`: a cached icon is returned as it is and nothing changes; otherwise the icon is
        built with this instance's settings and cached under `name`, even when it is empty. When
        the registry cannot be built the error propagates and the cache is left as it was. */
    method GetQIcon(name: string, appTextColor: Color, fs: FileSystem, svgBackend: bool)
      returns (r: Result<Icon, Error>)
      requires meta.Valid()
      modifies this, meta
      ensures meta.Valid()
      ensures Style() == old(Style())
      ensures name in old(iconCacheDict) ==>
        r == Success(old(iconCacheDict)[name]) && iconCacheDict == old(iconCacheDict)
        && meta.iconNameToPathDict == old(meta.iconNameToPathDict)
      ensures name !in old(iconCacheDict) && old(meta.Memoised(fs)).Failure? ==>
        r == Failure(old(meta.Memoised(fs)).error) && iconCacheDict == old(iconCacheDict)
      ensures name !in old(iconCacheDict) && old(meta.Memoised(fs)).Success? ==>
        && r == Success(LookupIcon(old(meta.Memoised(fs)).value, name, Style(), appTextColor, fs, svgBackend))
        && iconCacheDict == old(iconCacheDict)[name := r.value]
      ensures name !in old(iconCacheDict) && old(meta.Memoised(fs)).Success? ==>
        meta.iconNameToPathDict == old(meta.Memoised(fs)).value
      ensures name !in old(iconCacheDict) && old(meta.Memoised(fs)).Failure? ==>
        meta.iconNameToPathDict == old(meta.iconNameToPathDict)
      ensures meta.Memoised(fs) == old(meta.Memoised(fs))
      ensures old(CacheAgrees(appTextColor, fs, svgBackend)) ==> CacheAgrees(appTextColor, fs, svgBackend)
      ensures old(meta.Consistent(fs)) ==> meta.Consistent(fs)
    {
      if name in iconCacheDict {
        return Success(iconCacheDict[name]);
      }
      r := meta.GetQIcon(name, Style(), appTextColor, fs, svgBackend);
      if r.Success? {
        iconCacheDict := iconCacheDict[name := r.value];
      }
    }

    /** `__setattr__`: only the six known attributes may be assigned; any other name fails with
        `AttributeError` and changes nothing. */
    method SetAttr(name: string, value: AttrValue) returns (r: Outcome<Error>)
      requires name in SettableAttributes ==> Fits(name, value)
      modifies this
      ensures r.Pass? <==> name in SettableAttributes
      ensures r.Fail? ==> r == Fail(AttributeError(name))
      ensures name !in SettableAttributes ==> Style() == old(Style()) && iconCacheDict == old(iconCacheDict)
      ensures color == (if name == "_color" then value.color else old(color))
      ensures size == (if name == "_size" then value.n else old(size))
      ensures viewBoxSize == (if name == "_view_box_size" then value.n else old(viewBoxSize))
      ensures strokeWidth == (if name == "_stroke_width" then value.n else old(strokeWidth))
      ensures opacity == (if name == "_opacity" then value.x else old(opacity))
      ensures iconCacheDict == (if name == "_icon_cache_dict" then value.cache else old(iconCacheDict))
    {
      if name !in SettableAttributes {
        return Fail(AttributeError(name));
      }
      match name {
        case "_color" => color := value.color;
        case "_size" => size := value.n;
        case "_view_box_size" => viewBoxSize := value.n;
        case "_stroke_width" => strokeWidth := value.n;
        case "_opacity" => opacity := value.x;
        case _ => iconCacheDict := value.cache;
      }
      r := Pass;
    }
  }

  /** Asking one instance twice for the same icon gives the same answer the second time: the icon,
      from the cache, or, when the registry could not be built, the same error again. */
  method RepeatedLookupIsCached(q: TablerQIcon, name: string, appTextColor: Color, fs: FileSystem,
                                svgBackend: bool)
    returns (first: Result<Icon, Error>, second: Result<Icon, Error>)
    requires q.meta.Valid()
    modifies q, q.meta
    ensures second == first
  {
    first := q.GetQIcon(name, appTextColor, fs, svgBackend);
    second := q.GetQIcon(name, appTextColor, fs, svgBackend);
  }

  /** `[TablerQIcon.get_icon_path(n) for n in TablerQIcon.get_icon_names()]`: every listed name has
      a path, its entry in the memoised registry; when the memo agrees with `fs`, that is the joined
      path of a listed `.svg` file that is sanitised to the name. */
  method PathsOfIconNames(meta: TablerQIconMeta, fs: FileSystem)
    returns (names: Result<seq<string>, Error>, paths: seq<Option<string>>)
    requires meta.Valid()
    modifies meta
    ensures meta.Valid()
    ensures names.Failure? <==> old(meta.Memoised(fs)).Failure?
    ensures names.Success? ==> names.value == old(meta.Memoised(fs)).value.order && |paths| == |names.value|
    ensures names.Success? ==> forall i :: 0 <= i < |paths| ==>
      paths[i].Some? && paths[i] == Get(old(meta.Memoised(fs)).value, names.value[i])
    ensures names.Success? && old(meta.Consistent(fs)) ==>
      Registry(fs, meta.iconDirectory) == old(meta.Memoised(fs))
    ensures names.Success? && old(meta.Consistent(fs)) ==> forall i :: 0 <= i < |paths| ==>
      RegisteredFrom(fs, meta.iconDirectory, names.value[i], paths[i])
  {
    ghost var m := meta.Memoised(fs);
    ghost var consistent := meta.Consistent(fs);
    paths := [];
    names := meta.GetIconNames(fs);
    if names.Failure? {
      return;
    }
    ghost var d := m.value;
    var i := 0;
    while i < |names.value|
      invariant 0 <= i <= |names.value| && |paths| == i
      invariant meta.Valid() && meta.Memoised(fs) == m
      invariant forall j :: 0 <= j < i ==> paths[j] == Get(d, names.value[j])
    {
      var name := names.value[i];
      assert name in d.entries && name != "";
      var p := meta.GetIconPath(Some(name), fs);
      assert p == Success(Get(d, name));
      paths := paths + [p.value];
      i := i + 1;
    }
    if consistent {
      assert Registry(fs, meta.iconDirectory) == m;
      PathsOfNamesRegistered(fs, meta.iconDirectory, names.value, paths);
    }
  }
}
