/** How the two sanitisers relate: the package merges runs of separators and prefixes keywords,
    the top-level version replaces separators one for one and keeps keywords. They agree exactly
    on stems whose one-for-one replacement has no two consecutive underscores, apart from keywords. */
module VersionComparison {
  import opened Wrappers
  import opened Chars
  import PackageNames
  import TopLevelNames

  /** Collapsing runs and replacing one for one give the same text exactly when the one-for-one
      replacement has no `__`. */
  lemma {:induction false} SanitisersAgree(s: string)
    ensures PackageNames.Collapse(s) == TopLevelNames.ReplaceInvalid(s)
        <==> PackageNames.NoDoubleUnderscore(TopLevelNames.ReplaceInvalid(s))
  {
    PackageNames.CollapseWellFormed(s);
    var t := TopLevelNames.ReplaceInvalid(s);
    if s != [] && PackageNames.NoDoubleUnderscore(t) {
      var tail := TopLevelNames.ReplaceInvalid(s[1..]);
      assert t == [t[0]] + tail;
      assert PackageNames.NoDoubleUnderscore(tail) by {
        assert forall i :: 0 <= i < |tail| ==> tail[i] == t[i + 1];
      }
      SanitisersAgree(s[1..]);
      PackageNames.CollapseStep(s);
      if !IsAlnum(s[0]) {
        assert t[0] == '_';
        if s[1..] != [] {
          assert t[1] == tail[0];
          assert IsAlnum(s[1..][0]);
        }
        assert PackageNames.SkipRun(s[1..]) == s[1..];
      }
    }
  }

  /** Apart from keywords, the two versions give a stem the same icon name exactly when its
      one-for-one replacement has no `__`. */
  lemma IconNamesAgree(s: string)
    requires !IsKeyword(TopLevelNames.ReplaceInvalid(s))
    ensures PackageNames.IconName(s) == TopLevelNames.IconName(s)
        <==> PackageNames.NoDoubleUnderscore(TopLevelNames.ReplaceInvalid(s))
  {
    if PackageNames.NoDoubleUnderscore(TopLevelNames.ReplaceInvalid(s)) {
      SameNameWithoutDoubleUnderscore(s);
    } else {
      DifferentNameWithDoubleUnderscore(s);
    }
  }

  /** Without `__` the collapsed and the replaced stem coincide, and so does the digit test. */
  lemma SameNameWithoutDoubleUnderscore(s: string)
    requires !IsKeyword(TopLevelNames.ReplaceInvalid(s))
    requires PackageNames.NoDoubleUnderscore(TopLevelNames.ReplaceInvalid(s))
    ensures PackageNames.IconName(s) == TopLevelNames.IconName(s)
  {
    SanitisersAgree(s);
    var t := TopLevelNames.ReplaceInvalid(s);
    if s != [] {
      assert IsDigit(t[0]) <==> IsDigit(s[0]);
    }
  }

  /** With `__` the top-level name keeps it, and a package name never has one. */
  lemma DifferentNameWithDoubleUnderscore(s: string)
    requires !PackageNames.NoDoubleUnderscore(TopLevelNames.ReplaceInvalid(s))
    ensures PackageNames.IconName(s) != TopLevelNames.IconName(s)
  {
    var t := TopLevelNames.ReplaceInvalid(s);
    var q := TopLevelNames.IconName(s).value;
    assert !PackageNames.NoDoubleUnderscore(q) by {
      var i, j :| 0 <= i < |t| && 0 <= j < |t| && j == i + 1 && t[i] == '_' && t[j] == '_';
      if q != t {
        assert q == "_" + t;
        assert q[i + 1] == '_' && q[j + 1] == '_';
      }
    }
  }

  /** A keyword stem is prefixed by the package and kept as it is by the top-level version. */
  lemma KeywordsDiffer(k: string)
    requires IsKeyword(k)
    ensures PackageNames.IconName(k) != TopLevelNames.IconName(k)
  {
    TopLevelNames.KeywordKept(k);
  }
}
