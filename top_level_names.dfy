/** The icon-name sanitiser of the top-level version (`tabler_qicon.py`): every character outside
    `[a-zA-Z0-9_]` is replaced by `_`, one for one, and `_` is prepended only when the result starts
    with a digit. Unlike the package version it neither merges runs nor checks for keywords. */
module TopLevelNames {
  import opened Wrappers
  import opened Chars
  import OsPath

  /** `re.sub(r'[^a-zA-Z0-9_]', '_', s)` */
  function ReplaceInvalid(s: string): (r: string)
    ensures |r| == |s|
    ensures forall i :: 0 <= i < |s| ==> r[i] == (if IsIdentChar(s[i]) then s[i] else '_')
  {
    if s == [] then [] else [if IsIdentChar(s[0]) then s[0] else '_'] + ReplaceInvalid(s[1..])
  }

  /** The icon name of a stem, `None` where `icon_name[0]` raises `IndexError` (an empty stem). */
  function IconName(stem: string): (r: Option<string>)
    ensures r.None? <==> stem == []
    ensures r.Some? ==> IsIdentifierText(r.value) && r.value != [] && !IsDigit(r.value[0])
    ensures r.Some? ==> |r.value| == |stem| + (if IsDigit(stem[0]) then 1 else 0)
    ensures r.Some? ==> (r.value == "_" + ReplaceInvalid(stem) <==> IsDigit(stem[0]))
    ensures r.Some? ==> (r.value == ReplaceInvalid(stem) <==> !IsDigit(stem[0]))
  {
    var name := ReplaceInvalid(stem);
    if name == [] then None
    else if IsDigit(name[0]) then
      assert forall i :: 1 <= i < |"_" + name| ==> ("_" + name)[i] == name[i - 1];
      Some("_" + name)
    else Some(name)
  }

  /** The icon name of file `f`: the sanitised part before its first dot. */
  function FileIconName(f: string): (r: Option<string>)
    ensures r.None? <==> f == [] || f[0] == '.'
    ensures r.Some? ==> r.value != [] && IsIdentifierText(r.value)
  {
    IconName(OsPath.Stem(f))
  }

  /** The icon name depends only on the part of the file name before its first dot: everything
      from that dot on, `.svg` included, is ignored. */
  lemma FileIconNameOfStem(s: string, t: string)
    requires '.' !in s
    ensures FileIconName(s + "." + t) == IconName(s)
  {
    OsPath.StemOfDotted(s, t);
  }

  /** Identifier text that does not start with a digit is kept exactly as it is; in particular a
      Python keyword such as `class` stays `class`, because there is no keyword check. */
  lemma IdentifierKept(s: string)
    requires s != [] && IsIdentifierText(s) && !IsDigit(s[0])
    ensures IconName(s) == Some(s)
  {
    assert ReplaceInvalid(s) == s;
  }

  /** Every Python keyword is its own icon name. */
  lemma KeywordKept(k: string)
    requires IsKeyword(k)
    ensures IconName(k) == Some(k)
  {
    KeywordsAreLetters(k);
    IdentifierKept(k);
  }

  /** A file named `2fa.svg` gets the icon name `_2fa`. */
  lemma LeadingDigitExample()
    ensures FileIconName("2fa.svg") == Some("_2fa")
  {
    OsPath.StemOfDotted("2fa", "svg");
    assert "2fa" + "." + "svg" == "2fa.svg";
    assert ReplaceInvalid("2fa") == "2fa";
    assert "_" + "2fa" == "_2fa";
  }

  /** A file named `class.svg` gets the icon name `class`. */
  lemma KeywordExample()
    ensures FileIconName("class.svg") == Some("class")
  {
    OsPath.StemOfDotted("class", "svg");
    assert "class" + "." + "svg" == "class.svg";
    KeywordKept("class");
  }
}
