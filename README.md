# tabler-qicon: icon names, registry, memo and cache

tabler-qicon serves the Tabler SVG icon set to Qt programs. An icon is reached by a Python
attribute name: `TablerQIcon.users`, or `TablerQIcon().arrow_left` on an instance. For this the library
scans its `icons` directory, turns every `.svg` file name into an identifier, and keeps a
dictionary from identifier to file path. This project models that machinery in Dafny in both of
the repository's versions.

- **Package version** (`tabler_qicon/tabler_qicon.py`):
  - The metaclass `TablerQIconMeta` memoises the dictionary in the class variable `_icon_name_to_path_dict`. The memo is reused once it is non-empty.
  - The sanitiser collapses every run of `[\W_]` into one `_`.
  - It prefixes `_` to keywords and to names that start with a digit.
  - Instances keep a per-name cache of finished icons.
  - Both the class and the instances guard attribute assignment.
- **Top-level version** (`tabler_qicon.py`):
  - The sanitiser replaces every character outside `[a-zA-Z0-9_]` one for one.
  - It prefixes `_` only to names that start with a digit.
  - Each instance takes a snapshot of the dictionary when it is created.
  - The class methods rescan on every call.

The modules:

- `Wrappers`, `Exceptions`: `Option`/`Result`/`Outcome`, and the Python exceptions the core raises.
- `Dicts`: a Python `dict` with string keys. It keeps insertion order. Overwriting a key keeps its position.
- `OsPath`: the file system, given as a value: the directories with their listings and the set of regular files. It also holds `posixpath.join`, `split('.')[0]` and the `.svg` filter.
- `Chars`: ASCII character classes and the keyword list of Python 3.10 and later.
- `IconRegistry`: the scan loop, shared by both versions and parameterised by the sanitiser. It also holds the directory check in front of the loop.
- `PackageNames`, `TopLevelNames`: the two sanitisers.
- `VersionComparison`: where the two sanitisers agree and where they differ.
- `Icons`: icon values. `Empty` is `QIcon()`. A rendered icon records the file and the settings it was painted with.
- `PackageQIcon`, `TopLevelQIcon`: the classes of the two versions.

The main facts proved:

- **Package names.** Every name is identifier text without `__`. It is never a keyword and never starts with a digit. `_` is prepended exactly when the collapsed stem needs it. Collapsing is idempotent, and it fixes exactly the strings that are already well formed.
- **An empty stem** (a file named `.svg`) makes `icon_name[0]` raise `IndexError`. This aborts the whole scan. The model returns that error for the first such file and leaves the memo empty.
- **Registry contents, for both versions:**
  - Each key comes from a listed `.svg` file.
  - Its value is `join(dir, f)` for the last such file in listing order. On a collision the later file wins.
  - Every listed `.svg` file contributes a key.
  - Other files are ignored.
- **Memo.** Once populated, the memo is reused, and no model operation changes it. A missing directory is reported only while the memo is empty. For a fixed file system, the memo never changes the answer a call gives.
- **Names and paths.** In both versions, `get_icon_path` gives a path for every name `get_icon_names` lists. That path is the joined path of a listed `.svg` file that is sanitised to the name.
- **Cache.** A hit returns the stored icon and changes nothing. A miss stores exactly one entry, an empty icon included. A repeated call returns the first result.
- **Comparing the versions.** Apart from keywords, the two sanitisers give a stem the same name exactly when its one-for-one replacement has no `__`. Keywords always get different names.

The classmethod `_get_icon_name_to_path_dict` is looked up through the class `TablerQIcon`, but
it is bound to the metaclass itself. Its assignment to `cls._icon_name_to_path_dict` therefore
goes through `type.__setattr__` and is not blocked by `TablerQIconMeta.__setattr__`. The model
gives the memo to the `TablerQIconMeta` object for that reason, and its `SetAttr` stands for
assignments to attributes of the class `TablerQIcon`.

## Model

| member | source | states |
|---|---|---|
| Dicts.Empty | tabler_qicon/tabler_qicon.py:148 | the new dictionary has no entries and is well formed |
| Dicts.Insert | tabler_qicon/tabler_qicon.py:168-169 | after `d[k] = v` the key maps to `v`, every other key keeps its value, the old order is a prefix of the new one, and the order is unchanged exactly when `k` was already present |
| Dicts.Get | tabler_qicon/tabler_qicon.py:454 | `dict.get` gives a value exactly when the key is present, and then the stored value |
| Dicts.GetOr | tabler_qicon/tabler_qicon.py:211 | `dict.get(name, str())` gives the stored value when present and the default otherwise |
| Dicts.Keys | tabler_qicon/tabler_qicon.py:433 | `list(d.keys())` has no duplicates and holds exactly the keys of the dictionary |
| Dicts.IsTruthy | tabler_qicon/tabler_qicon.py:138 | a well-formed dictionary is true in a condition exactly when it has at least one key, and then its first key has an entry |
| OsPath.Join | tabler_qicon/tabler_qicon.py:168-169 | `os.path.join(dir, f)` ends with `f`, starts with `dir` unless `f` is absolute, and is non-empty for a non-empty `f` |
| OsPath.IsSvg | tabler_qicon/tabler_qicon.py:153 | `f.endswith('.svg')` holds exactly when `f` is some name followed by `.svg` |
| OsPath.Stem | tabler_qicon/tabler_qicon.py:162 | `split('.')[0]` is a dot-free prefix of the name, followed by a dot whenever it is shorter than the name |
| OsPath.StemOfDotted | tabler_qicon/tabler_qicon.py:162 | the stem of `s + "." + t` is `s` when `s` has no dot |
| OsPath.SvgFiles | tabler_qicon/tabler_qicon.py:151-154 | the filtered listing holds exactly the listed names ending in `.svg` |
| OsPath.SvgFilesAppend | tabler_qicon/tabler_qicon.py:151-154 | filtering a concatenated listing concatenates the filtered parts, in order |
| OsPath.NonSvgIgnored | tabler_qicon/tabler_qicon.py:151-154 | inserting a name that does not end in `.svg` anywhere in the listing leaves the filtered listing unchanged |
| Chars.IsKeyword | tabler_qicon/tabler_qicon.py:164 | `keyword.iskeyword` holds only for words of two to eight characters |
| Chars.KeywordsAreLetters | tabler_qicon/tabler_qicon.py:164 | every Python keyword is a non-empty word of ASCII letters |
| IconRegistry.Scan | tabler_qicon/tabler_qicon.py:160-169 | the loop either completes or raises `IndexError` for one of the files it was given; the same holds for the top-level loop at tabler_qicon.py lines 232-240 |
| IconRegistry.ScanStopsAtFailure | tabler_qicon/tabler_qicon.py:160-169 | once the loop has raised on some file, the files after it do not change the outcome |
| IconRegistry.ScanFailure | tabler_qicon/tabler_qicon.py:160-165 | the loop raises exactly when some file has no icon name, and the `IndexError` is for the first such file; with either sanitiser, so also for the top-level loop at tabler_qicon.py lines 232-237 |
| IconRegistry.ScanValid | tabler_qicon/tabler_qicon.py:160-169 | a completed loop yields a well-formed dictionary |
| IconRegistry.ScanKeys | tabler_qicon/tabler_qicon.py:160-169 | a name is a key exactly when some listed file is sanitised to it, for either sanitiser (the top-level loop is tabler_qicon.py lines 232-240) |
| IconRegistry.ScanValues | tabler_qicon/tabler_qicon.py:160-169 | the value of each key is `join(dir, f)` for the last file `f` that is sanitised to that key, for either sanitiser |
| IconRegistry.LastFileWins | tabler_qicon/tabler_qicon.py:168-169 | when the files so far scan without error, a further file with an icon name also scans, and its name then maps to its own path, whatever earlier files mapped it to; likewise at tabler_qicon.py line 240 |
| IconRegistry.ScanIcons | tabler_qicon/tabler_qicon.py:160-169 | the `for` loop that fills the dictionary computes exactly the fold `Scan`, including its first `IndexError`; both versions run it (the top-level loop is tabler_qicon.py lines 232-240) |
| IconRegistry.Registry | tabler_qicon/tabler_qicon.py:141-169 | a missing directory raises `FileNotFoundError` for that directory; with the directory present, the only error is an `IndexError` for a listed `.svg` file; likewise for tabler_qicon.py lines 218-240 |
| IconRegistry.RegistryEntriesFromSvgFiles | tabler_qicon/tabler_qicon.py:141-169 | a successful scan means the directory exists, and every key comes from a listed `.svg` file whose path is its value; likewise for tabler_qicon.py lines 218-240 |
| IconRegistry.RegistryCoversSvgFiles | tabler_qicon/tabler_qicon.py:151-169 | after a successful scan every listed `.svg` file has its icon name among the keys |
| IconRegistry.NonSvgNamesIgnored | tabler_qicon/tabler_qicon.py:151-154 | a file not ending in `.svg` has no effect on the scan, wherever it is listed; likewise for the filter at tabler_qicon.py line 227 |
| PackageNames.SkipRun | tabler_qicon/tabler_qicon.py:157-162 | skipping a leading run of `[\W_]` leaves nothing or a string starting with a letter or digit |
| PackageNames.SkipRunSuffix | tabler_qicon/tabler_qicon.py:157-162 | what is skipped is a prefix consisting only of `[\W_]` characters |
| PackageNames.Collapse | tabler_qicon/tabler_qicon.py:157-162 | `re.sub(r'[\W_]+', '_', s)` never lengthens its input and is empty exactly when the input is |
| PackageNames.CollapseHead | tabler_qicon/tabler_qicon.py:157-162 | the result starts with `_` exactly when the input starts with a separator, and otherwise with the input's first letter or digit |
| PackageNames.CollapseWellFormed | tabler_qicon/tabler_qicon.py:157-162 | every character of the result is in `[A-Za-z0-9_]` and no two consecutive characters are `_` |
| PackageNames.CollapseAppend | tabler_qicon/tabler_qicon.py:157-162 | where no separator run spans the join, collapsing a concatenation collapses each part |
| PackageNames.CollapseRun | tabler_qicon/tabler_qicon.py:157-162 | a non-empty run of separators becomes exactly one `_` |
| PackageNames.CollapseFixpoint | tabler_qicon/tabler_qicon.py:157-162 | collapsing leaves a string unchanged exactly when it is identifier text without `__`, and collapsing twice is collapsing once |
| PackageNames.IconName | tabler_qicon/tabler_qicon.py:162-165 | `None` exactly for an empty stem (where `icon_name[0]` raises); otherwise identifier text without `__`, never a keyword and never digit-first; the `_` prefix is added exactly when the collapsed stem is a keyword or starts with a digit |
| PackageNames.FileIconName | tabler_qicon/tabler_qicon.py:162-165 | a file has no icon name exactly when its name is empty or starts with `.`; otherwise the name is non-empty identifier text |
| PackageNames.FileIconNameOfStem | tabler_qicon/tabler_qicon.py:162 | the icon name of `s + "." + t` depends only on `s` |
| PackageNames.SeparatedWordsName | tabler_qicon/tabler_qicon.py:162 | two alphanumeric words joined by any one separator give `word_word` |
| PackageNames.LeadingDigitExample | tabler_qicon/tabler_qicon.py:164-165 | `2fa.svg` is named `_2fa` |
| PackageNames.KeywordExample | tabler_qicon/tabler_qicon.py:164-165 | `class.svg` is named `_class` |
| PackageNames.EmptyStemExample | tabler_qicon/tabler_qicon.py:164 | `.svg` has no icon name |
| TopLevelNames.ReplaceInvalid | tabler_qicon.py:230-234 | `re.sub(r'[^a-zA-Z0-9_]', '_', s)` keeps the length and replaces exactly the characters outside `[a-zA-Z0-9_]`, position by position |
| TopLevelNames.IconName | tabler_qicon.py:234-237 | `None` exactly for an empty stem; otherwise identifier text that is never digit-first, whose length is the stem's plus one exactly when `_` was prepended, which happens exactly when the stem starts with a digit |
| TopLevelNames.FileIconName | tabler_qicon.py:234-237 | a file has no icon name exactly when its name is empty or starts with `.`; otherwise the name is non-empty identifier text |
| TopLevelNames.FileIconNameOfStem | tabler_qicon.py:234 | the icon name of `s + "." + t` depends only on `s` |
| TopLevelNames.IdentifierKept | tabler_qicon.py:230-237 | a stem that is already identifier text and not digit-first is its own icon name |
| TopLevelNames.KeywordKept | tabler_qicon.py:236-237 | there is no keyword check: every keyword is its own icon name |
| TopLevelNames.LeadingDigitExample | tabler_qicon.py:236-237 | `2fa.svg` is named `_2fa` |
| TopLevelNames.KeywordExample | tabler_qicon.py:236-237 | `class.svg` is named `class` |
| VersionComparison.SanitisersAgree | tabler_qicon/tabler_qicon.py:157-162 | collapsing runs and replacing one for one (tabler_qicon.py:230-234) give the same text exactly when the one-for-one result has no `__` |
| VersionComparison.IconNamesAgree | tabler_qicon/tabler_qicon.py:157-165 | away from keywords, the two versions name a stem alike exactly when its one-for-one replacement has no `__` |
| VersionComparison.KeywordsDiffer | tabler_qicon/tabler_qicon.py:164-165 | a keyword stem is named differently by the two versions |
| Icons.PaintColor | tabler_qicon/tabler_qicon.py:201-205 | an icon is painted in the requested colour, or in the application's text colour when none is given |
| Icons.Render | tabler_qicon/tabler_qicon.py:220-274 | painting a file never yields the empty icon, and the icon records that file and colour |
| Icons.RasterIgnoresSvgSettings | tabler_qicon/tabler_qicon.py:248-258 | without QtSvg the view box and stroke width do not affect the icon |
| Icons.RenderInjective | tabler_qicon/tabler_qicon.py:220-274 | two renderings of a file are equal exactly when colour, size, opacity and, with QtSvg, view box and stroke width agree |
| PackageQIcon.Registry | tabler_qicon/tabler_qicon.py:141-169 | a completed scan means the directory exists and gives a well-formed dictionary in which the empty name is never a key; a failed one raises `FileNotFoundError` exactly when the directory is missing |
| PackageQIcon.RegistryKeysAreAttributeNames | tabler_qicon/tabler_qicon.py:157-169 | every key of the package registry is non-empty identifier text without `__`, not a keyword and not digit-first |
| PackageQIcon.NameHasPath | tabler_qicon/tabler_qicon.py:423-454 | every name `get_icon_names` lists from a scan maps, under `get_icon_path`, to the joined path of a listed `.svg` file that is sanitised to that name |
| PackageQIcon.PathsOfNamesRegistered | tabler_qicon/tabler_qicon.py:423-454 | looking up every listed name in turn gives, for each, such a joined path |
| PackageQIcon.DirectoryNamedSvgExample | tabler_qicon/tabler_qicon.py:151-154 | a directory named `x.svg` is registered under `x` with its path, and `_get_qicon` then returns the empty icon because of the `isfile` check at lines 214-218 |
| PackageQIcon.LookupIcon | tabler_qicon/tabler_qicon.py:207-218 | the icon is rendered exactly when the name has an entry that is an existing file, and then it is that file painted with the given settings; otherwise it is empty |
| PackageQIcon.TablerQIconMeta.constructor | tabler_qicon/tabler_qicon.py:86 | the memo starts empty, and the icon directory is `join(module directory, "icons")` (line 66) |
| PackageQIcon.TablerQIconMeta.Memoised | tabler_qicon/tabler_qicon.py:137-175 | what `_get_icon_name_to_path_dict` answers in the current state: an error is possible only while the memo is empty, and a successful answer is well formed |
| PackageQIcon.TablerQIconMeta.GetIconNameToPathDict | tabler_qicon/tabler_qicon.py:137-175 | a non-empty memo is returned unchanged; otherwise the result is a fresh scan, stored when it succeeds and not stored when it fails; `FileNotFoundError` only while the memo is empty; for a fixed file system the memo never changes what a call returns |
| PackageQIcon.TablerQIconMeta.GetQIcon | tabler_qicon/tabler_qicon.py:178-218 | `_get_qicon` gives the lookup result on the memoised registry, or the scan's error. After the call the memo holds the memoised registry when it could be built, and is unchanged when the scan failed. |
| PackageQIcon.TablerQIconMeta.GetAttr | tabler_qicon/tabler_qicon.py:90-104 | an attribute of the class is the icon looked up with the default arguments. After the call the memo holds the memoised registry when it could be built, and is unchanged when the scan failed. |
| PackageQIcon.TablerQIconMeta.SetAttr | tabler_qicon/tabler_qicon.py:106-122 | assigning any attribute of the class fails with `AttributeError` naming it |
| PackageQIcon.TablerQIconMeta.GetIconNames | tabler_qicon/tabler_qicon.py:423-433 | the names are the memoised registry's keys in insertion order, without duplicates; scan errors propagate. After the call the memo holds the memoised registry when it could be built, and is unchanged when the scan failed. |
| PackageQIcon.TablerQIconMeta.GetIconPath | tabler_qicon/tabler_qicon.py:436-454 | no name or an empty one gives the icon directory without touching the registry; otherwise the registered path or `None`, and the memo then holds the memoised registry when it could be built and is unchanged when the scan failed |
| PackageQIcon.TablerQIcon.constructor | tabler_qicon/tabler_qicon.py:293-316 | the instance holds the given settings and an empty cache |
| PackageQIcon.TablerQIcon.GetQIcon | tabler_qicon/tabler_qicon.py:378-403 | a cached name returns its icon and changes nothing; a miss returns the lookup with the instance's settings and adds exactly that entry, even for an empty icon; a scan error leaves the cache as it was; cached icons stay equal to a fresh lookup while the settings are unchanged. On a miss the metaclass memo ends up holding the memoised registry when it could be built, and is unchanged when the scan failed |
| PackageQIcon.TablerQIcon.SetAttr | tabler_qicon/tabler_qicon.py:357-374 | assignment succeeds exactly for the six listed attributes and changes only that one; any other name fails with `AttributeError` and changes nothing |
| PackageQIcon.PathsOfIconNames | tabler_qicon/tabler_qicon.py:423-454 | calling `get_icon_path` on each name `get_icon_names` returns gives a path for every name, its entry in the memoised registry; when the memo agrees with the file system, the joined path of a listed `.svg` file sanitised to that name |
| PackageQIcon.RepeatedLookupIsCached | tabler_qicon/tabler_qicon.py:387-403 | asking an instance twice for the same name gives the same result both times |
| TopLevelQIcon.IconDirectory | tabler_qicon.py:57 | the icon directory starts with the module's directory and ends in `icons` |
| TopLevelQIcon.Registry | tabler_qicon.py:218-240 | a completed scan means the directory exists and gives a well-formed dictionary in which the empty name is never a key; a failed one raises `FileNotFoundError` exactly when the directory is missing |
| TopLevelQIcon.RegistryKeysAreIdentifiers | tabler_qicon.py:230-240 | every key of the top-level registry is non-empty identifier text that is not digit-first |
| TopLevelQIcon.NameHasPath | tabler_qicon.py:218-277 | every name `get_icon_names` lists maps, under `get_icon_path`, to the joined path of a listed `.svg` file that is sanitised to that name |
| TopLevelQIcon.GetIconNameToPathDict | tabler_qicon.py:209-243 | each call is a fresh scan of the `icons` directory beside the module (line 57); a missing directory raises `FileNotFoundError` on every call |
| TopLevelQIcon.GetIconNames | tabler_qicon.py:246-256 | the names are exactly the keys of a fresh scan in insertion order, without duplicates |
| TopLevelQIcon.GetIconPath | tabler_qicon.py:259-277 | no name or an empty one gives the icon directory, `join(module directory, "icons")`, without scanning; otherwise the path a fresh scan registers, or `None` |
| TopLevelQIcon.PathsOfIconNames | tabler_qicon.py:246-277 | calling `get_icon_path` on each name `get_icon_names` returns gives, for every name, the joined path of a listed `.svg` file that is sanitised to it |
| TopLevelQIcon.DirectoryNamedSvgExample | tabler_qicon.py:227 | a directory named `x.svg` is registered under `x` with its path, and with QtSvg `get_qicon` then fails to `open` it (line 155) |
| TopLevelQIcon.LookupIcon | tabler_qicon.py:143-206 | an absent name or empty path gives the empty icon; with QtSvg an entry that is not an existing file fails to open; otherwise the entry's file painted with the given colour and settings |
| TopLevelQIcon.TablerQIcon.constructor | tabler_qicon.py:81-99 | the instance holds the given settings and the registry snapshot |
| TopLevelQIcon.TablerQIcon.GetQIcon | tabler_qicon.py:135-206 | lookups use only the snapshot and change nothing; a rendered icon comes from the snapshot's entry and carries the instance's colour, size, opacity and, with QtSvg, view box and stroke width |
| TopLevelQIcon.NewTablerQIcon | tabler_qicon.py:81-99 | creating an instance scans once; a failed scan creates nothing, and otherwise the new instance keeps exactly that scan |

## Left out

- Qt backend selection and the import fallback loops (`set_backend`, `use`, and the module-level `for … else`). These are dynamic imports of foreign modules. Whether QtSvg is present is the parameter `svgBackend`.
- Rendering:
  - Qt's `QSvgRenderer`, `QPixmap`, `QPainter` and `QIcon` are foreign calls, and opacity is a float.
  - A rendered icon records the file and its settings in place of pixels.
  - Opacity is a `real`.
- The XML rewrite of `stroke-width`. It is recorded as a setting of the SVG rendering.
- The default colour:
  - The package version reads it from `QApplication.instance().palette()` at call time. It is the parameter `appTextColor`.
  - The top-level version takes it from a class-level `QPalette` when the class is defined. It is passed to the constructor like any other colour.
- The file system (`os.listdir`, `os.path.isdir`, `os.path.isfile`, `open`). It is a value passed to every operation. It never changes during a call. Listings come in the order they are given.
- A file that passes `os.path.isfile` is assumed readable. In the top-level version `open` can fail, and the model does fail there. Its raster path loads a missing file without error, as `QPixmap` does.
- Icons.Render: with QtSvg, `svg_file.read()` and `ElementTree.fromstring` raise on a file that cannot be decoded or is not well-formed XML (tabler_qicon/tabler_qicon.py:222-226, tabler_qicon.py:155-159). File contents are not modelled, so rendering an existing file never fails.
- PackageQIcon.LookupIcon: inherits that gap from `Icons.Render`; a malformed SVG file is rendered, where the source raises.
- PackageQIcon.TablerQIconMeta.GetQIcon: inherits the same gap; its only errors are those of the scan.
- TopLevelQIcon.LookupIcon: inherits the same gap; its only QtSvg error is the failed `open` of a path that is not an existing file.
- Icons.Render: on the raster path a file that `QPixmap` cannot load gives a null `QIcon` in Qt. The model, which has no pixels, gives a `Rendered` icon that records the file.
- OsPath.Join: it follows `posixpath.join`. The Windows rules of `ntpath.join` (drive letters, backslashes) are not modelled.
- Logging and `print` warnings.
- The full Unicode meaning of `\W`. Every non-ASCII character is treated as a separator.
- `__call__`, `__getitem__` and the instance `__getattr__` in both versions. Each only calls `get_qicon`.
- The public `get_icon_name_to_path_dict` of the package. It only returns the metaclass's memo, modelled as `GetIconNameToPathDict`.
- Aliasing of the memo. `get_icon_name_to_path_dict` (tabler_qicon/tabler_qicon.py:420, returning the object of lines 139 and 175) hands out the memo dictionary itself, so a caller that mutates it, for example with `.clear()`, mutates the memo. The model's dictionaries are values, so it does not capture this.
- The flip/flop transformations asserted in tests/test_tablerqicon.py:78-112. That test imports a module `tablerqicon` (line 14), and neither `tabler_qicon.py` nor `tabler_qicon/tabler_qicon.py` defines `flip` or `flop`.
- setup.py and the `__main__` demonstration blocks.
- No promise that every listed name's path is an existing file. The source filters names only, so a directory named `x.svg` is registered. `get_icon_path` then returns the directory's path, the package's `_get_qicon` returns an empty icon (tabler_qicon/tabler_qicon.py:214-218), and the top-level `open` fails (tabler_qicon.py:155). `PackageQIcon.DirectoryNamedSvgExample` and `TopLevelQIcon.DirectoryNamedSvgExample` exhibit the case.
- PackageQIcon.TablerQIcon.GetQIcon: icons are values, so "the identical cached object" is stated as equality of the returned icon.
- PackageQIcon.TablerQIcon.SetAttr: requires the value to have the attribute's type, where Python stores a value of any type.
- Assignment to instance attributes in the top-level version is unguarded. Its fields are plain mutable fields.
