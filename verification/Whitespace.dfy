/** Trimming, as JavaScript's `trim` and Rust's `str::trim` do it. */
module Whitespace {
  // White space and line terminators of ECMAScript.
  predicate IsJsSpace(c: char) {
    var n := c as int;
    9 <= n <= 13 || n == 0x20 || n == 0xA0 || n == 0x1680 || 0x2000 <= n <= 0x200A ||
    n == 0x2028 || n == 0x2029 || n == 0x202F || n == 0x205F || n == 0x3000 || n == 0xFEFF
  }

  // The White_Space property of Unicode.
  predicate IsRustSpace(c: char) {
    var n := c as int;
    9 <= n <= 13 || n == 0x20 || n == 0x85 || n == 0xA0 || n == 0x1680 || 0x2000 <= n <= 0x200A ||
    n == 0x2028 || n == 0x2029 || n == 0x202F || n == 0x205F || n == 0x3000
  }

  /** The two kinds of white space differ in two characters: next line, and the byte order mark. */
  lemma SpacesDiffer(c: char)
    ensures IsJsSpace(c) != IsRustSpace(c) <==> c == '\U{85}' || c == '\U{FEFF}'
  {
  }

  predicate AllSpace(s: string, space: char -> bool) {
    forall c :: c in s ==> space(c)
  }

  function TrimStart(s: string, space: char -> bool): (t: string)
    ensures |t| <= |s| && s[|s| - |t|..] == t && AllSpace(s[..|s| - |t|], space)
    ensures t != "" ==> !space(t[0])
  {
    if s == "" || !space(s[0]) then s else
      var t := TrimStart(s[1..], space);
      assert s[..|s| - |t|] == [s[0]] + s[1..][..|s[1..]| - |t|];
      t
  }

  function TrimEnd(s: string, space: char -> bool): (t: string)
    ensures t <= s && AllSpace(s[|t|..], space)
    ensures t != "" ==> !space(t[|t| - 1])
  {
    if s == "" || !space(s[|s| - 1]) then s else
      var t := TrimEnd(s[..|s| - 1], space);
      assert s[|t|..] == s[..|s| - 1][|t|..] + [s[|s| - 1]];
      t
  }

  function Trim(s: string, space: char -> bool): string {
    TrimEnd(TrimStart(s, space), space)
  }

  function JsTrim(s: string): string {
    Trim(s, IsJsSpace)
  }

  lemma TrimEndBlank(t: string, space: char -> bool)
    requires t != "" ==> !space(t[0])
    ensures TrimEnd(t, space) == "" <==> t == ""
  {
    var e := TrimEnd(t, space);
    assert e + t[|e|..] == t;
    if t != "" {
      assert t[0] in t;
    }
  }

  // A text is blank exactly when nothing is left of it.
  lemma BlankTrimsToNothing(s: string, space: char -> bool)
    ensures Trim(s, space) == "" <==> AllSpace(s, space)
  {
    var t := TrimStart(s, space);
    hide TrimStart;
    assert s == s[..|s| - |t|] + t;
    TrimEndBlank(t, space);
    if t != "" {
      assert t[0] in s;
    }
  }

  // A text with no space at either end has nothing to trim.
  lemma NothingToTrim(s: string, space: char -> bool)
    requires s != "" && !space(s[0]) && !space(s[|s| - 1])
    ensures Trim(s, space) == s
  {
    assert TrimStart(s, space) == s;
  }
}
