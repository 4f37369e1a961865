/** Splitting a text on newlines and joining lines again, as `split('\n')` and `join('\n')` do. */
module TextLines {
  // Position of the first newline at or after the start, or |s| when there is none.
  function NewlineAt(s: string): (n: nat)
    ensures n <= |s|
    ensures '\n' !in s[..n]
    ensures n < |s| ==> s[n] == '\n'
  {
    if s == [] || s[0] == '\n' then 0 else
      var n := 1 + NewlineAt(s[1..]);
      assert s[..n] == [s[0]] + s[1..][..n - 1];
      n
  }

  function Split(s: string): (lines: seq<string>)
    ensures lines != []
    decreases |s|
  {
    var n := NewlineAt(s);
    if n == |s| then [s] else [s[..n]] + Split(s[n + 1..])
  }

  function Join(lines: seq<string>): string {
    if lines == [] then "" else if |lines| == 1 then lines[0] else lines[0] + "\n" + Join(lines[1..])
  }

  // No element contains a newline.
  predicate AllLines(lines: seq<string>) {
    forall l :: l in lines ==> '\n' !in l
  }

  lemma {:induction false} SplitYieldsLines(s: string)
    ensures AllLines(Split(s))
    decreases |s|
  {
    var n := NewlineAt(s);
    if n < |s| {
      SplitYieldsLines(s[n + 1..]);
    }
  }

  lemma JoinCons(l: string, lines: seq<string>)
    requires lines != []
    ensures Join([l] + lines) == l + "\n" + Join(lines)
  {
    assert ([l] + lines)[1..] == lines;
  }

  lemma {:induction false} JoinSplit(s: string)
    ensures Join(Split(s)) == s
    decreases |s|
  {
    var n := NewlineAt(s);
    if n < |s| {
      var head, tail := s[..n], s[n + 1..];
      assert s == head + "\n" + tail;
      JoinSplit(tail);
      JoinCons(head, Split(tail));
    }
  }

  lemma NewlineAtIs(s: string, n: nat)
    requires n <= |s| && '\n' !in s[..n]
    requires n < |s| ==> s[n] == '\n'
    ensures NewlineAt(s) == n
  {
    var m := NewlineAt(s);
    assert forall i :: 0 <= i < n ==> s[i] in s[..n];
    assert forall i :: 0 <= i < m ==> s[i] in s[..m];
  }

  lemma {:induction false} SplitJoin(lines: seq<string>)
    requires lines != [] && AllLines(lines)
    ensures Split(Join(lines)) == lines
  {
    var s := Join(lines);
    if |lines| == 1 {
      assert s[..|s|] == lines[0] && lines[0] in lines;
      NewlineAtIs(s, |s|);
      assert lines == [lines[0]];
    } else {
      var n := |lines[0]|;
      assert s[..n] == lines[0] && s[n] == '\n' && s[n + 1..] == Join(lines[1..]);
      NewlineAtIs(s, n);
      SplitJoin(lines[1..]);
      assert lines == [lines[0]] + lines[1..];
    }
  }
}
