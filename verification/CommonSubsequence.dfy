/** The length the diff table holds, and why it is the longest common subsequence. */
module CommonSubsequence {
  predicate IsSubsequence<T(==)>(c: seq<T>, s: seq<T>)
    decreases |s|
  {
    c == [] ||
    (s != [] && ((c[0] == s[0] && IsSubsequence(c[1..], s[1..])) || IsSubsequence(c, s[1..])))
  }

  ghost predicate IsCommon<T>(c: seq<T>, a: seq<T>, b: seq<T>) {
    IsSubsequence(c, a) && IsSubsequence(c, b)
  }

  // The recurrence of the table: equal heads are always matched.
  function Lcs<T(==)>(a: seq<T>, b: seq<T>): nat
    decreases |a| + |b|
  {
    if a == [] || b == [] then 0
    else if a[0] == b[0] then Lcs(a[1..], b[1..]) + 1
    else
      var skipA, skipB := Lcs(a[1..], b), Lcs(a, b[1..]);
      if skipA < skipB then skipB else skipA
  }

  lemma {:induction false} TailOfSubsequence<T>(c: seq<T>, s: seq<T>)
    requires c != [] && IsSubsequence(c, s)
    ensures s != [] && IsSubsequence(c[1..], s[1..])
    ensures c[0] != s[0] ==> IsSubsequence(c, s[1..])
    decreases |s|
  {
    if !(c[0] == s[0] && IsSubsequence(c[1..], s[1..])) {
      TailOfSubsequence(c, s[1..]);
      DropHead(c[1..], s[1..]);
    }
  }

  lemma DropHead<T>(c: seq<T>, s: seq<T>)
    requires s != [] && IsSubsequence(c, s[1..])
    ensures IsSubsequence(c, s)
  {
  }

  // No common subsequence is longer than the recurrence says.
  lemma {:induction false} LcsBounds<T>(c: seq<T>, a: seq<T>, b: seq<T>)
    requires IsCommon(c, a, b)
    ensures |c| <= Lcs(a, b)
    decreases |a| + |b|
  {
    if c != [] {
      TailOfSubsequence(c, a);
      TailOfSubsequence(c, b);
      if a[0] == b[0] {
        LcsBounds(c[1..], a[1..], b[1..]);
      } else if c[0] != a[0] {
        LcsBounds(c, a[1..], b);
      } else {
        LcsBounds(c, a, b[1..]);
      }
    }
  }

  lemma {:induction false} SingletonSubsequence<T>(x: T, s: seq<T>)
    requires x in s
    ensures IsSubsequence([x], s)
    decreases |s|
  {
    if s[0] != x {
      SingletonSubsequence(x, s[1..]);
    }
  }
}
