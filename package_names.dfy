/** The icon-name sanitiser of the package version (`tabler_qicon/tabler_qicon.py`): every maximal
    run of characters matching `[\W_]` becomes one `_`, and `_` is prepended when the result is a
    Python keyword or starts with a digit. Characters are classified as ASCII. */
module PackageNames {
  import opened Wrappers
  import opened Chars
  import OsPath

  /** `s` never contains two consecutive underscores. */
  predicate NoDoubleUnderscore(s: string) {
    forall i, j :: 0 <= i < |s| && 0 <= j < |s| && j == i + 1 ==> !(s[i] == '_' && s[j] == '_')
  }

  /** `s` with its leading run of `[\W_]` characters removed. */
  function SkipRun(s: string): (r: string)
    ensures |r| <= |s|
    ensures r == [] || IsAlnum(r[0])
  {
    if s != [] && !IsAlnum(s[0]) then SkipRun(s[1..]) else s
  }

  /** `SkipRun` drops a prefix of `s` made only of `[\W_]` characters. */
  lemma {:induction false} SkipRunSuffix(s: string)
    ensures SkipRun(s) == s[|s| - |SkipRun(s)|..]
    ensures forall i :: 0 <= i < |s| - |SkipRun(s)| ==> !IsAlnum(s[i])
  {
    if s != [] && !IsAlnum(s[0]) {
      SkipRunSuffix(s[1..]);
      assert forall i :: 1 <= i < |s| ==> s[i] == s[1..][i - 1];
    }
  }

  /** `re.sub(r'[\W_]+', '_', s)` */
  function Collapse(s: string): (r: string)
    ensures |r| <= |s|
    ensures r == [] <==> s == []
    decreases |s|
  {
    if s == [] then []
    else if IsAlnum(s[0]) then [s[0]] + Collapse(s[1..])
    else "_" + Collapse(SkipRun(s[1..]))
  }

  /** A collapsed string starts with an underscore exactly when the original starts with a run of
      `[\W_]`; otherwise it starts with the same letter or digit. */
  lemma CollapseHead(s: string)
    requires s != []
    ensures Collapse(s)[0] == '_' <==> !IsAlnum(s[0])
    ensures IsAlnum(s[0]) ==> Collapse(s)[0] == s[0]
  {
  }

  /** Every character of a collapsed string is in `[A-Za-z0-9_]`, and no two underscores are
      adjacent, because a whole run of `[\W_]` characters leaves one underscore behind. */
  lemma {:induction false} CollapseWellFormed(s: string)
    ensures IsIdentifierText(Collapse(s)) && NoDoubleUnderscore(Collapse(s))
    decreases |s|
  {
    if s != [] {
      var t := if IsAlnum(s[0]) then s[1..] else SkipRun(s[1..]);
      CollapseWellFormed(t);
      if t != [] { CollapseHead(t); }
      var c := Collapse(t);
      var r := Collapse(s);
      assert r == [if IsAlnum(s[0]) then s[0] else '_'] + c;
      assert forall i :: 1 <= i < |r| ==> r[i] == c[i - 1];
    }
  }

  /** Two strings can be collapsed separately when no run of `[\W_]` spans the point where they meet. */
  predicate Separable(a: string, b: string) {
    a == [] || b == [] || IsAlnum(a[|a| - 1]) || IsAlnum(b[0])
  }

  lemma {:induction false} SkipRunAppend(u: string, b: string)
    requires u != [] && Separable(u, b)
    ensures SkipRun(u + b) == SkipRun(u) + b
    decreases |u|
  {
    assert (u + b)[0] == u[0];
    if !IsAlnum(u[0]) {
      assert (u + b)[1..] == u[1..] + b;
      if u[1..] != [] {
        SkipRunAppend(u[1..], b);
      }
    }
  }

  /** One step of `Collapse`: the first character, or the run it starts, and the rest. */
  lemma CollapseStep(s: string)
    requires s != []
    ensures Collapse(s) == if IsAlnum(s[0]) then [s[0]] + Collapse(s[1..]) else "_" + Collapse(SkipRun(s[1..]))
  {
  }

  /** Regrouping a concatenation, stated once: asserted inline, the same fact makes the solver
      explore far more in the proofs of `CollapseAppend` below. */
  lemma AppendAssociative(x: string, y: string, z: string)
    ensures x + (y + z) == (x + y) + z
  {
  }

  /** Collapsing works run by run: it distributes over a concatenation that splits no run. */
  lemma {:induction false} CollapseAppend(a: string, b: string)
    requires Separable(a, b)
    ensures Collapse(a + b) == Collapse(a) + Collapse(b)
    decreases |a|, 1
  {
    if a == [] {
      assert a + b == b;
    } else if IsAlnum(a[0]) {
      CollapseAppendAlnumHead(a, b);
    } else {
      CollapseAppendRunHead(a, b);
    }
  }

  lemma {:induction false} CollapseAppendAlnumHead(a: string, b: string)
    requires Separable(a, b) && a != [] && IsAlnum(a[0])
    ensures Collapse(a + b) == Collapse(a) + Collapse(b)
    decreases |a|, 0
  {
    var ab := a + b;
    assert ab[0] == a[0] && ab[1..] == a[1..] + b;
    CollapseStep(ab);
    CollapseStep(a);
    assert a[1..] == [] || a[1..][|a[1..]| - 1] == a[|a| - 1];
    CollapseAppend(a[1..], b);
    AppendAssociative([a[0]], Collapse(a[1..]), Collapse(b));
  }

  lemma {:induction false} CollapseAppendRunHead(a: string, b: string)
    requires Separable(a, b) && a != [] && !IsAlnum(a[0])
    ensures Collapse(a + b) == Collapse(a) + Collapse(b)
    decreases |a|, 0
  {
    var ab := a + b;
    assert ab[0] == a[0] && ab[1..] == a[1..] + b;
    CollapseStep(ab);
    CollapseStep(a);
    if a[1..] == [] {
      assert SkipRun(b) == b;
      assert Collapse(a) == "_";
      assert ab[1..] == b;
    } else {
      SkipRunAppend(a[1..], b);
      var v := SkipRun(a[1..]);
      SkipRunSuffix(a[1..]);
      assert v == [] || v[|v| - 1] == a[|a| - 1];
      CollapseAppend(v, b);
      AppendAssociative("_", Collapse(v), Collapse(b));
    }
  }

  /** A whole run of `[\W_]` characters becomes a single underscore. */
  lemma CollapseRun(s: string)
    requires s != [] && forall i :: 0 <= i < |s| ==> !IsAlnum(s[i])
    ensures Collapse(s) == "_"
  {
    SkipRunSuffix(s[1..]);
    assert SkipRun(s[1..]) == [];
  }

  /** Collapsing leaves a string unchanged exactly when it is identifier text without `__`;
      in particular collapsing twice is the same as collapsing once. */
  lemma {:induction false} CollapseFixpoint(s: string)
    ensures Collapse(s) == s <==> IsIdentifierText(s) && NoDoubleUnderscore(s)
    ensures Collapse(Collapse(s)) == Collapse(s)
    decreases |s|
  {
    CollapseWellFormed(s);
    if s != [] && IsIdentifierText(s) && NoDoubleUnderscore(s) {
      assert IsIdentifierText(s[1..]) && NoDoubleUnderscore(s[1..]);
      CollapseFixpoint(s[1..]);
      if !IsAlnum(s[0]) {
        assert s[1..] == [] || IsAlnum(s[1]);
        assert SkipRun(s[1..]) == s[1..];
      }
    }
    var c := Collapse(s);
    if c != [] {
      assert IsIdentifierText(c[1..]) && NoDoubleUnderscore(c[1..]);
      CollapseFixpoint(c[1..]);
      if !IsAlnum(c[0]) {
        assert c[1..] == [] || IsAlnum(c[1]);
        assert SkipRun(c[1..]) == c[1..];
      }
    }
  }

  /** The collapsed stem needs a leading underscore: it is a keyword or starts with a digit. */
  predicate NeedsPrefix(name: string) {
    IsKeyword(name) || (name != [] && IsDigit(name[0]))
  }

  /** The icon name of a stem, `None` where `icon_name[0]` raises `IndexError` (an empty stem). */
  function IconName(stem: string): (r: Option<string>)
    ensures r.None? <==> stem == []
    ensures r.Some? ==> IsIdentifierText(r.value) && NoDoubleUnderscore(r.value)
    ensures r.Some? ==> r.value != [] && !IsKeyword(r.value) && !IsDigit(r.value[0])
    ensures r.Some? ==> (r.value == "_" + Collapse(stem) <==> NeedsPrefix(Collapse(stem)))
    ensures r.Some? ==> (r.value == Collapse(stem) <==> !NeedsPrefix(Collapse(stem)))
  {
    var name := Collapse(stem);
    CollapseWellFormed(stem);
    if name == [] then None
    else if IsKeyword(name) || IsDigit(name[0]) then
      assert (IsKeyword(name) ==> IsAsciiLetter(name[0])) && !IsKeyword("_" + name) by {
        if IsKeyword(name) { KeywordsAreLetters(name); }
        assert ("_" + name)[0] == '_';
        if IsKeyword("_" + name) { KeywordsAreLetters("_" + name); }
      }
      Some("_" + name)
    else Some(name)
  }

  /** The icon name of file `f`: the sanitised part before its first dot. */
  function FileIconName(f: string): (r: Option<string>)
    ensures r.None? <==> f == [] || f[0] == '.'
    ensures r.Some? ==> r.value != [] && IsIdentifierText(r.value)
  {
    IconName(OsPath.Stem(f))
  }

  /** The icon name depends only on the part of the file name before its first dot: everything
      from that dot on, `.svg` included, is ignored. */
  lemma FileIconNameOfStem(s: string, t: string)
    requires '.' !in s
    ensures FileIconName(s + "." + t) == IconName(s)
  {
    OsPath.StemOfDotted(s, t);
  }

  /** A file named `2fa.svg` gets the icon name `_2fa`: the leading digit forces the prefix. */
  lemma LeadingDigitExample()
    ensures FileIconName("2fa.svg") == Some("_2fa")
  {
    OsPath.StemOfDotted("2fa", "svg");
    assert "2fa" + "." + "svg" == "2fa.svg";
    CollapseFixpoint("2fa");
    assert Collapse("2fa") == "2fa";
    assert "_" + "2fa" == "_2fa";
  }

  /** Two words joined by one separator character, as in the file `user-check.svg`, keep their letters and get
      one underscore in between. */
  lemma SeparatedWordsName(x: string, c: char, y: string)
    requires x != [] && y != [] && !IsAlnum(c) && !IsDigit(x[0])
    requires forall i :: 0 <= i < |x| ==> IsAlnum(x[i])
    requires forall i :: 0 <= i < |y| ==> IsAlnum(y[i])
    ensures IconName(x + [c] + y) == Some(x + "_" + y)
  {
    CollapseFixpoint(x);
    CollapseFixpoint(y);
    CollapseRun([c]);
    CollapseAppend([c], y);
    CollapseAppend(x, [c] + y);
    assert x + [c] + y == x + ([c] + y);
    assert x + "_" + y == x + ("_" + y);
    var r := x + "_" + y;
    assert r[0] == x[0] && r[|x|] == '_' && !IsAsciiLetter(r[|x|]);
    if IsKeyword(r) {
      KeywordsAreLetters(r);
    }
  }

  /** A file named `class.svg` gets the icon name `_class`: a keyword forces the prefix. */
  lemma KeywordExample()
    ensures FileIconName("class.svg") == Some("_class")
  {
    OsPath.StemOfDotted("class", "svg");
    assert "class" + "." + "svg" == "class.svg";
    CollapseFixpoint("class");
    assert Collapse("class") == "class";
    assert IsKeyword("class");
    assert "_" + "class" == "_class";
  }

  /** A file named `.svg` has an empty stem, on which the sanitiser raises `IndexError`. */
  lemma EmptyStemExample()
    ensures FileIconName(".svg") == None
  {
  }
}
