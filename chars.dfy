/** ASCII character classes and Python's reserved words, as used by the icon-name sanitisers. */
module Chars {

  predicate IsAsciiLetter(c: char) {
    'a' <= c <= 'z' || 'A' <= c <= 'Z'
  }

  /** `str.isdigit()` on one ASCII character. */
  predicate IsDigit(c: char) {
    '0' <= c <= '9'
  }

  predicate IsAlnum(c: char) {
    IsAsciiLetter(c) || IsDigit(c)
  }

  /** A member of the regular-expression class `[a-zA-Z0-9_]`. */
  predicate IsIdentChar(c: char) {
    IsAlnum(c) || c == '_'
  }

  /** Every character of `s` may appear in a Python identifier. */
  predicate IsIdentifierText(s: string) {
    forall i :: 0 <= i < |s| ==> IsIdentChar(s[i])
  }

  /** Python's `keyword.kwlist` (3.10 and later). */
  const Keywords: set<string> := {
    "False", "None", "True", "and", "as", "assert", "async", "await", "break", "class",
    "continue", "def", "del", "elif", "else", "except", "finally", "for", "from", "global",
    "if", "import", "in", "is", "lambda", "nonlocal", "not", "or", "pass", "raise",
    "return", "try", "while", "with", "yield"
  }

  /** `keyword.iskeyword(s)` */
  predicate IsKeyword(s: string): (r: bool)
    ensures r ==> 2 <= |s| <= 8
  {
    s in Keywords
  }

  /** Every reserved word is a non-empty run of ASCII letters. */
  lemma KeywordsAreLetters(k: string)
    requires IsKeyword(k)
    ensures k != [] && forall i :: 0 <= i < |k| ==> IsAsciiLetter(k[i])
  {
  }
}
