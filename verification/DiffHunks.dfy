/**
 Grouping a full diff into hunks with context (src/editing/atomic-edit-planner.ts),
 and the patch that a list of hunks stands for.
 */
module DiffHunks {
  import opened Wrappers
  import opened LineDiff

  // Context lines kept around each change inside a hunk.
  const HUNK_CONTEXT := 3

  datatype DiffHunk = DiffHunk(oldStart: nat, oldLines: nat, newStart: nat, newLines: nat, lines: seq<DiffLine>)

  // First and last position of a hunk in the full diff.
  datatype Range = Range(lo: nat, hi: nat)

  predicate Changed(op: DiffLine) {
    op.kind != Context
  }

  // ----- which positions belong to hunks

  // Position p is within the context of one of the given changes.
  ghost predicate Near(changes: seq<nat>, context: nat, p: int) {
    exists m :: 0 <= m < |changes| && changes[m] - context <= p <= changes[m] + context
  }

  predicate Inside(r: Range, p: int) {
    r.lo <= p <= r.hi
  }

  ghost predicate Covered(ranges: seq<Range>, p: int) {
    exists k :: 0 <= k < |ranges| && Inside(ranges[k], p)
  }

  // In bounds, ordered, disjoint, and with at least one position between neighbours.
  ghost predicate Separated(ranges: seq<Range>, n: nat) {
    && (forall k :: 0 <= k < |ranges| ==> ranges[k].lo <= ranges[k].hi < n)
    && (forall k, l :: 0 <= k < l < |ranges| ==> ranges[k].hi + 1 < ranges[l].lo)
  }

  // The ranges are the maximal runs of positions that are within the context of a change.
  ghost predicate AreRuns(ranges: seq<Range>, ops: seq<DiffLine>, context: nat) {
    && Separated(ranges, |ops|)
    && forall p :: 0 <= p < |ops| ==> (Covered(ranges, p) <==> Near(ChangeIndices(ops, |ops|), context, p))
  }

  // Positions below n of the changed lines, in order.
  function ChangeIndices(ops: seq<DiffLine>, n: nat): (changes: seq<nat>)
    requires n <= |ops|
    ensures forall m :: 0 <= m < |changes| ==> changes[m] < n && Changed(ops[changes[m]])
    ensures forall l, m :: 0 <= l < m < |changes| ==> changes[l] < changes[m]
    ensures forall p :: 0 <= p < n && Changed(ops[p]) ==> p in changes
  {
    if n == 0 then [] else
      var before := ChangeIndices(ops, n - 1);
      if Changed(ops[n - 1]) then before + [n - 1] else before
  }

  lemma FirstCovered(r: seq<Range>)
    requires r != [] && r[0].lo <= r[0].hi
    ensures Covered(r, r[0].lo)
  {
    assert Inside(r[0], r[0].lo);
  }

  // Two families of runs of the same positions are the same list.
  lemma {:induction false} RunsAreUnique(r: seq<Range>, s: seq<Range>, n: nat)
    requires Separated(r, n) && Separated(s, n)
    requires forall p :: 0 <= p < n ==> (Covered(r, p) <==> Covered(s, p))
    ensures r == s
  {
    if r == [] || s == [] {
      if r != [] {
        FirstCovered(r);
      }
      if s != [] {
        FirstCovered(s);
      }
    } else {
      FirstRun(r, s, n);
      FirstRun(s, r, n);
      forall p | 0 <= p < n
        ensures Covered(r[1..], p) <==> Covered(s[1..], p)
      {
        RestCovered(r, n, p);
        RestCovered(s, n, p);
      }
      RunsAreUnique(r[1..], s[1..], n);
      assert r == [r[0]] + r[1..] && s == [s[0]] + s[1..];
    }
  }

  lemma RestCovered(r: seq<Range>, n: nat, p: int)
    requires r != [] && Separated(r, n)
    ensures Covered(r[1..], p) <==> Covered(r, p) && !Inside(r[0], p)
  {
    if Covered(r, p) && !Inside(r[0], p) {
      var k :| 0 <= k < |r| && Inside(r[k], p);
      assert r[1..][k - 1] == r[k];
    }
  }

  // The first run of s starts no later, and if together no earlier ends, than the first of r.
  lemma FirstRun(r: seq<Range>, s: seq<Range>, n: nat)
    requires r != [] && s != [] && Separated(r, n) && Separated(s, n)
    requires forall p :: 0 <= p < n ==> (Covered(r, p) <==> Covered(s, p))
    ensures s[0].lo <= r[0].lo
    ensures s[0].lo == r[0].lo ==> s[0].hi >= r[0].hi
  {
    assert Inside(r[0], r[0].lo) && Covered(r, r[0].lo);
    var k :| 0 <= k < |s| && Inside(s[k], r[0].lo);
    if s[0].lo == r[0].lo && s[0].hi < r[0].hi {
      var p := s[0].hi + 1;
      assert Inside(r[0], p) && Covered(r, p);
      var l :| 0 <= l < |s| && Inside(s[l], p);
      assert false;
    }
  }

  // ----- one hunk

  function FirstOldLine(lines: seq<DiffLine>): Option<nat> {
    if lines == [] then None else lines[0].oldLine.OrElse(FirstOldLine(lines[1..]))
  }

  function FirstNewLine(lines: seq<DiffLine>): Option<nat> {
    if lines == [] then None else lines[0].newLine.OrElse(FirstNewLine(lines[1..]))
  }

  function HunkOf(lines: seq<DiffLine>): DiffHunk {
    DiffHunk(FirstOldLine(lines).GetOr(0), |OldSide(lines)|,
             FirstNewLine(lines).GetOr(0), |NewSide(lines)|, lines)
  }

  function HunksAt(ops: seq<DiffLine>, ranges: seq<Range>): (hunks: seq<DiffHunk>)
    requires forall k :: 0 <= k < |ranges| ==> ranges[k].lo <= ranges[k].hi < |ops|
  {
    seq(|ranges|, k requires 0 <= k < |ranges| => HunkOf(ops[ranges[k].lo..ranges[k].hi + 1]))
  }

  lemma HunksAtCons(ops: seq<DiffLine>, ranges: seq<Range>)
    requires ranges != [] && forall k :: 0 <= k < |ranges| ==> ranges[k].lo <= ranges[k].hi < |ops|
    ensures HunksAt(ops, ranges) == [HunkOf(ops[ranges[0].lo..ranges[0].hi + 1])] + HunksAt(ops, ranges[1..])
  {
  }

  // hunks is the grouping of the full diff ops.
  ghost predicate AreHunks(hunks: seq<DiffHunk>, ops: seq<DiffLine>, context: nat) {
    exists ranges :: AreRuns(ranges, ops, context) && hunks == HunksAt(ops, ranges)
  }

  // ----- grouping

  function Max(x: int, y: int): int {
    if x < y then y else x
  }

  function Min(x: int, y: int): int {
    if x < y then x else y
  }

  lemma NearSnoc(changes: seq<nat>, c: nat, context: nat, p: int)
    ensures Near(changes + [c], context, p) <==> Near(changes, context, p) || c - context <= p <= c + context
  {
    var all := changes + [c];
    if Near(changes, context, p) {
      var m :| 0 <= m < |changes| && changes[m] - context <= p <= changes[m] + context;
      assert all[m] == changes[m];
    }
    assert all[|changes|] == c;
  }

  lemma CoveredSnoc(ranges: seq<Range>, r: Range, p: int)
    ensures Covered(ranges + [r], p) <==> Covered(ranges, p) || Inside(r, p)
  {
    var all := ranges + [r];
    if Covered(ranges, p) {
      var k :| 0 <= k < |ranges| && Inside(ranges[k], p);
      assert all[k] == ranges[k];
    }
    assert all[|ranges|] == r;
  }

  // The grouping state after the changes so far: closed ranges, and the range still open.
  ghost predicate Grouped(ranges: seq<Range>, open: Range, changes: seq<nat>, context: nat, n: nat) {
    && changes != []
    && Separated(ranges + [open], n)
    && open.lo <= changes[|changes| - 1]
    && (open.lo == 0 || open.lo <= changes[|changes| - 1] - context)
    && open.hi == Min(n - 1, changes[|changes| - 1] + context)
    && forall p :: 0 <= p < n ==> (Covered(ranges + [open], p) <==> Near(changes, context, p))
  }

  // A change whose context touches the open range extends it.
  lemma Extend(ranges: seq<Range>, open: Range, changes: seq<nat>, c: nat, context: nat, n: nat)
    requires Grouped(ranges, open, changes, context, n)
    requires changes[|changes| - 1] < c < n && c - context <= open.hi + 1
    ensures Grouped(ranges, Range(open.lo, Min(n - 1, Max(open.hi, c + context))), changes + [c], context, n)
  {
    var open' := Range(open.lo, Min(n - 1, Max(open.hi, c + context)));
    forall p | 0 <= p < n
      ensures Covered(ranges + [open'], p) <==> Near(changes + [c], context, p)
    {
      CoveredSnoc(ranges, open, p);
      CoveredSnoc(ranges, open', p);
      NearSnoc(changes, c, context, p);
    }
    assert forall k :: 0 <= k < |ranges| ==> (ranges + [open])[k] == (ranges + [open'])[k] == ranges[k];
    assert (ranges + [open])[|ranges|] == open && (ranges + [open'])[|ranges|] == open';
  }

  // Any other change closes the open range and opens its own.
  lemma Reopen(ranges: seq<Range>, open: Range, changes: seq<nat>, c: nat, context: nat, n: nat)
    requires Grouped(ranges, open, changes, context, n)
    requires changes[|changes| - 1] < c < n && c - context > open.hi + 1
    ensures Grouped(ranges + [open], Range(Max(0, c - context), Min(n - 1, c + context)), changes + [c], context, n)
  {
    var open' := Range(Max(0, c - context), Min(n - 1, c + context));
    forall p | 0 <= p < n
      ensures Covered(ranges + [open] + [open'], p) <==> Near(changes + [c], context, p)
    {
      CoveredSnoc(ranges + [open], open', p);
      NearSnoc(changes, c, context, p);
    }
    assert (ranges + [open])[|ranges|] == open;
  }

  lemma FirstOpen(c: nat, context: nat, n: nat)
    requires c < n
    ensures Grouped([], Range(Max(0, c - context), Min(n - 1, c + context)), [c], context, n)
  {
    forall p | 0 <= p < n
      ensures Covered([] + [Range(Max(0, c - context), Min(n - 1, c + context))], p) <==> Near([c], context, p)
    {
      CoveredSnoc([], Range(Max(0, c - context), Min(n - 1, c + context)), p);
      NearSnoc([], c, context, p);
      assert [] + [c] == [c];
    }
  }

  datatype Grouping = Grouping(closed: seq<Range>, open: Range)

  // What the first k changes group into.
  function GroupUpTo(changes: seq<nat>, k: nat, context: nat, n: nat): Grouping
    requires 1 <= k <= |changes| && forall m :: 0 <= m < |changes| ==> changes[m] < n
  {
    var c := changes[k - 1];
    if k == 1 then Grouping([], Range(Max(0, c - context), Min(n - 1, c + context))) else
      var g := GroupUpTo(changes, k - 1, context, n);
      if c - context <= g.open.hi + 1 then
        Grouping(g.closed, Range(g.open.lo, Min(n - 1, Max(g.open.hi, c + context))))
      else
        Grouping(g.closed + [g.open], Range(Max(0, c - context), Min(n - 1, c + context)))
  }

  lemma GroupStep(changes: seq<nat>, k: nat, context: nat, n: nat)
    requires 1 <= k < |changes| && forall m :: 0 <= m < |changes| ==> changes[m] < n
    requires changes[k - 1] < changes[k]
    requires var g := GroupUpTo(changes, k, context, n); Grouped(g.closed, g.open, changes[..k], context, n)
    ensures var g := GroupUpTo(changes, k + 1, context, n);
            Grouped(g.closed, g.open, changes[..k] + [changes[k]], context, n)
  {
    hide Separated, Covered, Near;
    var g := GroupUpTo(changes, k, context, n);
    if changes[k] - context <= g.open.hi + 1 {
      Extend(g.closed, g.open, changes[..k], changes[k], context, n);
    } else {
      Reopen(g.closed, g.open, changes[..k], changes[k], context, n);
    }
  }

  lemma {:induction false} GroupUpToGroups(changes: seq<nat>, k: nat, context: nat, n: nat)
    requires 1 <= k <= |changes| && forall m :: 0 <= m < |changes| ==> changes[m] < n
    requires forall l, m :: 0 <= l < m < |changes| ==> changes[l] < changes[m]
    ensures var g := GroupUpTo(changes, k, context, n); Grouped(g.closed, g.open, changes[..k], context, n)
  {
    hide Grouped;
    var c := changes[k - 1];
    if k == 1 {
      FirstOpen(c, context, n);
      assert changes[..1] == [c];
    } else {
      GroupUpToGroups(changes, k - 1, context, n);
      GroupStep(changes, k - 1, context, n);
      assert changes[..k] == changes[..k - 1] + [c];
    }
  }

  // The ranges of the whole diff.
  function Ranges(ops: seq<DiffLine>, context: nat): seq<Range> {
    var changes := ChangeIndices(ops, |ops|);
    if changes == [] then [] else
      var g := GroupUpTo(changes, |changes|, context, |ops|);
      g.closed + [g.open]
  }

  lemma RangesAreRuns(ops: seq<DiffLine>, context: nat)
    ensures AreRuns(Ranges(ops, context), ops, context)
  {
    var changes := ChangeIndices(ops, |ops|);
    if changes != [] {
      GroupUpToGroups(changes, |changes|, context, |ops|);
      assert changes[..|changes|] == changes;
    }
  }

  /** The merge loop: one pass over the changed positions. */
  method MergeRanges(changed: seq<nat>, context: nat, n: nat) returns (ranges: seq<Range>)
    requires changed != [] && forall m :: 0 <= m < |changed| ==> changed[m] < n
    ensures var g := GroupUpTo(changed, |changed|, context, n); ranges == g.closed + [g.open]
  {
    ranges := [];
    var start: nat := Max(0, changed[0] - context);
    var end: nat := Min(n - 1, changed[0] + context);
    for k := 1 to |changed|
      invariant GroupUpTo(changed, k, context, n) == Grouping(ranges, Range(start, end))
    {
      var lo := changed[k] - context;
      var hi := changed[k] + context;
      if lo <= end + 1 {
        end := Min(n - 1, Max(end, hi));
      } else {
        ranges := ranges + [Range(start, end)];
        start := Max(0, lo);
        end := Min(n - 1, hi);
      }
    }
    ranges := ranges + [Range(start, end)];
  }

  method GroupHunks(ops: seq<DiffLine>, context: nat) returns (hunks: seq<DiffHunk>)
    ensures AreHunks(hunks, ops, context)
  {
    var changed := ChangeIndices(ops, |ops|);
    var ranges := [];
    if |changed| > 0 {
      ranges := MergeRanges(changed, context, |ops|);
    }
    RangesAreRuns(ops, context);
    assert ranges == Ranges(ops, context);
    hunks := HunksAt(ops, ranges);
  }

  // ----- patches

  // Where a side's recorded start points; 0 stands for "before the first line".
  function At(start: nat): nat {
    if start == 0 then 0 else start - 1
  }

  // Applies the hunks to the lines from position `done` on, each at its recorded start and
  // over its recorded count; None when a hunk does not find its old lines there.
  function Patch(lines: seq<string>, hunks: seq<DiffHunk>, done: nat): Option<seq<string>>
    requires done <= |lines|
    decreases |hunks|
  {
    if hunks == [] then Some(lines[done..]) else
      var h := hunks[0];
      var at := At(h.oldStart);
      if !(done <= at && at + h.oldLines <= |lines| && lines[at..at + h.oldLines] == OldSide(h.lines)) then None else
        match Patch(lines, hunks[1..], at + h.oldLines)
        case None => None
        case Some(rest) => Some(lines[done..at] + NewSide(h.lines) + rest)
  }

  lemma {:induction false} TextsSplit(ops: seq<DiffLine>, n: nat, drop: DiffLineKind)
    requires n <= |ops|
    ensures Texts(ops, drop) == Texts(ops[..n], drop) + Texts(ops[n..], drop)
  {
    assert ops == ops[..n] + ops[n..];
    TextsConcat(ops[..n], ops[n..], drop);
  }

  // The lines of one side between two positions of the full diff.
  lemma SideBetween(ops: seq<DiffLine>, e: nat, n: nat, drop: DiffLineKind)
    requires e <= n <= |ops|
    ensures |Texts(ops[..e], drop)| <= |Texts(ops[..n], drop)| <= |Texts(ops, drop)|
    ensures Texts(ops, drop)[|Texts(ops[..e], drop)|..|Texts(ops[..n], drop)|] == Texts(ops[e..n], drop)
  {
    TextsSplit(ops, n, drop);
    TextsSplit(ops[..n], e, drop);
    assert ops[..n][..e] == ops[..e] && ops[..n][e..] == ops[e..n];
  }

  lemma {:induction false} UnchangedSides(ops: seq<DiffLine>)
    requires forall op :: op in ops ==> !Changed(op)
    ensures OldSide(ops) == NewSide(ops)
    ensures CountKind(ops, Add) == 0 && CountKind(ops, Remove) == 0
  {
    if ops != [] {
      assert ops[0] in ops;
      UnchangedSides(ops[1..]);
    }
  }

  // A numbered diff is numbered from any position on.
  lemma {:induction false} NumberedFrom(ops: seq<DiffLine>, i: nat, j: nat, n: nat)
    requires Numbered(ops, i, j) && n <= |ops|
    ensures Numbered(ops[n..], i + |OldSide(ops[..n])|, j + |NewSide(ops[..n])|)
  {
    if n == 0 {
      assert ops[0..] == ops;
    } else {
      assert ops[..n][1..] == ops[1..][..n - 1] && ops[1..][n - 1..] == ops[n..];
      NumberedFrom(ops[1..], if ops[0].kind == Add then i else i + 1, if ops[0].kind == Remove then j else j + 1, n - 1);
    }
  }

  // Lines with a line number are exactly those on that side, and the first carries the position.
  lemma {:induction false} FirstNumbers(lines: seq<DiffLine>, i: nat, j: nat)
    requires Numbered(lines, i, j)
    ensures FirstOldLine(lines) == if OldSide(lines) == [] then None else Some(i + 1)
    ensures FirstNewLine(lines) == if NewSide(lines) == [] then None else Some(j + 1)
  {
    if lines != [] {
      match lines[0].kind
      case Context =>
      case Add => FirstNumbers(lines[1..], i, j + 1);
      case Remove => FirstNumbers(lines[1..], i + 1, j);
    }
  }

  lemma {:induction false} NumberedPrefix(lines: seq<DiffLine>, i: nat, j: nat, n: nat)
    requires Numbered(lines, i, j) && n <= |lines|
    ensures Numbered(lines[..n], i, j)
  {
    if n > 0 {
      assert lines[..n][1..] == lines[1..][..n - 1];
      NumberedPrefix(lines[1..], if lines[0].kind == Add then i else i + 1, if lines[0].kind == Remove then j else j + 1, n - 1);
    }
  }

  lemma {:induction false} EmptySide(lines: seq<DiffLine>, drop: DiffLineKind)
    requires Texts(lines, drop) == []
    ensures forall op :: op in lines ==> op.kind == drop
  {
    if lines != [] {
      EmptySide(lines[1..], drop);
    }
  }

  // A position within the context of a change is in some range.
  lemma ChangeCovers(ops: seq<DiffLine>, ranges: seq<Range>, context: nat, c: nat, p: nat) returns (l: nat)
    requires AreRuns(ranges, ops, context) && c < |ops| && p < |ops| && Changed(ops[c])
    requires c - context <= p <= c + context
    ensures l < |ranges| && Inside(ranges[l], p)
  {
    var changes := ChangeIndices(ops, |ops|);
    var m :| 0 <= m < |changes| && changes[m] == c;
    assert changes[m] - context <= p <= changes[m] + context;
    assert Near(changes, context, p) && Covered(ranges, p);
    l :| 0 <= l < |ranges| && Inside(ranges[l], p);
  }

  // A hunk that does not reach the edge of the diff begins and ends with an unchanged line.
  lemma HunkEdges(ops: seq<DiffLine>, ranges: seq<Range>, context: nat, k: nat)
    requires AreRuns(ranges, ops, context) && context >= 1 && k < |ranges|
    ensures ranges[k].lo > 0 ==> !Changed(ops[ranges[k].lo])
    ensures ranges[k].hi < |ops| - 1 ==> !Changed(ops[ranges[k].hi])
  {
    var lo, hi := ranges[k].lo, ranges[k].hi;
    if lo > 0 && Changed(ops[lo]) {
      var l := ChangeCovers(ops, ranges, context, lo, lo - 1);
    }
    if hi < |ops| - 1 && Changed(ops[hi]) {
      var l := ChangeCovers(ops, ranges, context, hi, hi + 1);
    }
  }

  lemma OneSidedSpan(ops: seq<DiffLine>, lo: nat, hi: nat, drop: DiffLineKind)
    requires lo <= hi < |ops| && drop != Context && Texts(ops[lo..hi + 1], drop) == []
    requires lo > 0 ==> !Changed(ops[lo])
    requires hi < |ops| - 1 ==> !Changed(ops[hi])
    ensures lo == 0 && hi == |ops| - 1
  {
    var lines := ops[lo..hi + 1];
    EmptySide(lines, drop);
    assert lines[0] == ops[lo] && lines[hi - lo] == ops[hi];
    assert ops[lo] in lines && ops[hi] in lines;
  }

  // A hunk with nothing on one side spans the whole diff, so that side's text is empty.
  lemma OneSidedHunk(ops: seq<DiffLine>, ranges: seq<Range>, context: nat, k: nat, drop: DiffLineKind)
    requires AreRuns(ranges, ops, context) && context >= 1 && k < |ranges| && drop != Context
    requires Texts(ops[ranges[k].lo..ranges[k].hi + 1], drop) == []
    ensures ranges[k] == Range(0, |ops| - 1) && Texts(ops, drop) == []
  {
    HunkEdges(ops, ranges, context, k);
    OneSidedSpan(ops, ranges[k].lo, ranges[k].hi, drop);
    assert ops[ranges[k].lo..ranges[k].hi + 1] == ops;
  }

  // End of the hunk before number k, as a position of the full diff.
  function Resume(ranges: seq<Range>, k: nat): nat
    requires k <= |ranges|
  {
    if k == 0 then 0 else ranges[k - 1].hi + 1
  }

  // Between two hunks, and after the last, nothing changes.
  lemma GapUnchanged(ops: seq<DiffLine>, ranges: seq<Range>, context: nat, k: nat, next: nat)
    requires AreRuns(ranges, ops, context) && k <= |ranges|
    requires Resume(ranges, k) <= next <= |ops|
    requires next == if k == |ranges| then |ops| else ranges[k].lo
    ensures forall op :: op in ops[Resume(ranges, k)..next] ==> !Changed(op)
  {
    var e := Resume(ranges, k);
    forall p | e <= p < next
      ensures !Changed(ops[p])
    {
      if Changed(ops[p]) {
        var l := ChangeCovers(ops, ranges, context, p, p);
      }
    }
  }

  // The first old line number of a slice counts the old lines before it.
  lemma SliceNumbers(ops: seq<DiffLine>, lo: nat, hi: nat)
    requires Numbered(ops, 0, 0) && lo <= hi < |ops|
    ensures var lines := ops[lo..hi + 1];
            FirstOldLine(lines) == if OldSide(lines) == [] then None else Some(|OldSide(ops[..lo])| + 1)
  {
    NumberedFrom(ops, 0, 0, lo);
    assert ops[lo..][..hi + 1 - lo] == ops[lo..hi + 1];
    NumberedPrefix(ops[lo..], |OldSide(ops[..lo])|, |NewSide(ops[..lo])|, hi + 1 - lo);
    FirstNumbers(ops[lo..hi + 1], |OldSide(ops[..lo])|, |NewSide(ops[..lo])|);
  }

  lemma SomeSide(ops: seq<DiffLine>, lo: nat, hi: nat)
    requires lo <= hi < |ops| && OldSide(ops[lo..hi + 1]) != []
    ensures OldSide(ops) != []
  {
    SideBetween(ops, lo, hi + 1, Add);
  }

  // The recorded start of hunk k points at the first old line of the hunk.
  lemma StartOfHunk(ops: seq<DiffLine>, ranges: seq<Range>, context: nat, k: nat)
    requires AreRuns(ranges, ops, context) && context >= 1 && k < |ranges| && Numbered(ops, 0, 0)
    ensures var start := HunkOf(ops[ranges[k].lo..ranges[k].hi + 1]).oldStart;
            At(start) == |OldSide(ops[..ranges[k].lo])| && (start == 0 <==> OldSide(ops) == [])
  {
    var lo, hi := ranges[k].lo, ranges[k].hi;
    SliceNumbers(ops, lo, hi);
    if OldSide(ops[lo..hi + 1]) == [] {
      OneSidedHunk(ops, ranges, context, k, Add);
    } else {
      SomeSide(ops, lo, hi);
    }
  }

  // Both sides across a gap and the hunk after it.
  lemma OldAcross(ops: seq<DiffLine>, e: nat, lo: nat, hi: nat)
    requires e <= lo <= hi < |ops|
    ensures |OldSide(ops[..e])| <= |OldSide(ops[..lo])| <= |OldSide(ops)|
    ensures OldSide(ops)[|OldSide(ops[..e])|..|OldSide(ops[..lo])|] == OldSide(ops[e..lo])
    ensures |OldSide(ops[..hi + 1])| == |OldSide(ops[..lo])| + |OldSide(ops[lo..hi + 1])| <= |OldSide(ops)|
    ensures OldSide(ops)[|OldSide(ops[..lo])|..|OldSide(ops[..hi + 1])|] == OldSide(ops[lo..hi + 1])
  {
    SideBetween(ops, e, lo, Add);
    SideBetween(ops, lo, hi + 1, Add);
  }

  lemma NewAcross(ops: seq<DiffLine>, e: nat, lo: nat, hi: nat)
    requires e <= lo <= hi < |ops|
    ensures NewSide(ops[e..]) == NewSide(ops[e..lo]) + NewSide(ops[lo..hi + 1]) + NewSide(ops[hi + 1..])
  {
    assert ops[e..] == ops[e..lo] + ops[lo..hi + 1] + ops[hi + 1..];
    TextsConcat(ops[e..lo] + ops[lo..hi + 1], ops[hi + 1..], Remove);
    TextsConcat(ops[e..lo], ops[lo..hi + 1], Remove);
  }

  // One step of a patch: the first hunk finds its old lines, and the rest is patched.
  lemma PatchStep(lines: seq<string>, h: DiffHunk, hunks: seq<DiffHunk>, done: nat, rest: seq<string>)
    requires done <= At(h.oldStart) && At(h.oldStart) + h.oldLines <= |lines|
    requires lines[At(h.oldStart)..At(h.oldStart) + h.oldLines] == OldSide(h.lines)
    requires Patch(lines, hunks, At(h.oldStart) + h.oldLines) == Some(rest)
    ensures Patch(lines, [h] + hunks, done) == Some(lines[done..At(h.oldStart)] + NewSide(h.lines) + rest)
  {
    assert ([h] + hunks)[1..] == hunks && ([h] + hunks)[0] == h;
  }

  lemma PatchHunk(ops: seq<DiffLine>, e: nat, lo: nat, hi: nat, h: DiffHunk, hunks: seq<DiffHunk>)
    requires e <= lo <= hi < |ops| && h == HunkOf(ops[lo..hi + 1])
    requires At(h.oldStart) == |OldSide(ops[..lo])|
    requires OldSide(ops[e..lo]) == NewSide(ops[e..lo])
    requires |OldSide(ops[..hi + 1])| <= |OldSide(ops)|
    requires Patch(OldSide(ops), hunks, |OldSide(ops[..hi + 1])|) == Some(NewSide(ops[hi + 1..]))
    ensures |OldSide(ops[..e])| <= |OldSide(ops)|
    ensures Patch(OldSide(ops), [h] + hunks, |OldSide(ops[..e])|) == Some(NewSide(ops[e..]))
  {
    OldAcross(ops, e, lo, hi);
    NewAcross(ops, e, lo, hi);
    PatchStep(OldSide(ops), h, hunks, |OldSide(ops[..e])|, NewSide(ops[hi + 1..]));
  }

  lemma PatchEnd(ops: seq<DiffLine>, e: nat)
    requires e <= |ops| && OldSide(ops[e..]) == NewSide(ops[e..])
    ensures |OldSide(ops[..e])| <= |OldSide(ops)|
    ensures Patch(OldSide(ops), [], |OldSide(ops[..e])|) == Some(NewSide(ops[e..]))
  {
    SideBetween(ops, e, |ops|, Add);
    assert ops[e..|ops|] == ops[e..] && ops[..|ops|] == ops;
    var n := |OldSide(ops[..e])|;
    assert OldSide(ops)[n..] == OldSide(ops)[n..|OldSide(ops)|];
  }

  // Nothing changes in these lines.
  ghost predicate Still(ops: seq<DiffLine>) {
    OldSide(ops) == NewSide(ops) && CountKind(ops, Add) == 0 && CountKind(ops, Remove) == 0
  }

  // From position e on the diff is still up to the next range, whose recorded start points
  // at its first old line, and so on.
  ghost predicate Laid(ops: seq<DiffLine>, ranges: seq<Range>, e: nat)
    decreases |ranges|
  {
    if ranges == [] then e <= |ops| && Still(ops[e..]) else
      var lo, hi := ranges[0].lo, ranges[0].hi;
      && e <= lo <= hi < |ops|
      && Still(ops[e..lo])
      && At(HunkOf(ops[lo..hi + 1]).oldStart) == |OldSide(ops[..lo])|
      && Laid(ops, ranges[1..], hi + 1)
  }

  lemma {:induction false} RunsAreLaid(ops: seq<DiffLine>, ranges: seq<Range>, context: nat, k: nat)
    requires AreRuns(ranges, ops, context) && context >= 1 && k <= |ranges| && Numbered(ops, 0, 0)
    ensures Laid(ops, ranges[k..], Resume(ranges, k))
    decreases |ranges| - k
  {
    hide Texts, Covered, Near, Numbered;
    var e := Resume(ranges, k);
    var next := if k == |ranges| then |ops| else ranges[k].lo;
    GapUnchanged(ops, ranges, context, k, next);
    UnchangedSides(ops[e..next]);
    if k == |ranges| {
      assert ops[e..next] == ops[e..];
    } else {
      StartOfHunk(ops, ranges, context, k);
      RunsAreLaid(ops, ranges, context, k + 1);
      assert ranges[k..][0] == ranges[k] && ranges[k..][1..] == ranges[k + 1..];
    }
  }

  lemma FirstLaid(ops: seq<DiffLine>, ranges: seq<Range>, e: nat)
    requires ranges != [] && Laid(ops, ranges, e)
    ensures var lo, hi := ranges[0].lo, ranges[0].hi;
      && e <= lo <= hi < |ops|
      && OldSide(ops[e..lo]) == NewSide(ops[e..lo])
      && At(HunkOf(ops[lo..hi + 1]).oldStart) == |OldSide(ops[..lo])|
      && Laid(ops, ranges[1..], hi + 1)
  {
    hide HunkOf, Texts;
  }

  // Patching the hunks of the remaining ranges produces the new side from there on.
  lemma {:induction false} PatchFrom(ops: seq<DiffLine>, ranges: seq<Range>, e: nat)
    requires Laid(ops, ranges, e)
    requires forall k :: 0 <= k < |ranges| ==> ranges[k].lo <= ranges[k].hi < |ops|
    ensures e <= |ops| && |OldSide(ops[..e])| <= |OldSide(ops)|
    ensures Patch(OldSide(ops), HunksAt(ops, ranges), |OldSide(ops[..e])|) == Some(NewSide(ops[e..]))
    decreases |ranges|
  {
    hide HunkOf, OldSide, NewSide, Patch, At;
    if ranges == [] {
      assert HunksAt(ops, ranges) == [];
      PatchEnd(ops, e);
    } else {
      var r := ranges[0];
      FirstLaid(ops, ranges, e);
      hide Laid;
      PatchFrom(ops, ranges[1..], r.hi + 1);
      HunksAtCons(ops, ranges);
      hide HunksAt;
      PatchHunk(ops, e, r.lo, r.hi, HunkOf(ops[r.lo..r.hi + 1]), HunksAt(ops, ranges[1..]));
    }
  }

  /** Forward patch: the hunks turn the old side of a numbered diff into its new side. */
  lemma HunksPatch(ops: seq<DiffLine>, hunks: seq<DiffHunk>, context: nat)
    requires Numbered(ops, 0, 0) && context >= 1 && AreHunks(hunks, ops, context)
    ensures Patch(OldSide(ops), hunks, 0) == Some(NewSide(ops))
  {
    var ranges: seq<Range> :| AreRuns(ranges, ops, context) && hunks == HunksAt(ops, ranges);
    RunsAreLaid(ops, ranges, context, 0);
    assert ranges[0..] == ranges;
    PatchFrom(ops, ranges, 0);
    assert ops[..0] == [] && ops[0..] == ops;
  }

  // ----- the reverse patch

  function FlipKind(kind: DiffLineKind): DiffLineKind {
    match kind
    case Context => Context
    case Add => Remove
    case Remove => Add
  }

  // A diff line, a full diff and a hunk read from the new text to the old one.
  function FlipLine(l: DiffLine): DiffLine {
    DiffLine(FlipKind(l.kind), l.text, l.newLine, l.oldLine)
  }

  function Flip(ops: seq<DiffLine>): seq<DiffLine> {
    seq(|ops|, i requires 0 <= i < |ops| => FlipLine(ops[i]))
  }

  function FlipHunks(hunks: seq<DiffHunk>): seq<DiffHunk> {
    seq(|hunks|, k requires 0 <= k < |hunks| =>
      DiffHunk(hunks[k].newStart, hunks[k].newLines, hunks[k].oldStart, hunks[k].oldLines, Flip(hunks[k].lines)))
  }

  lemma {:induction false} FlipSides(ops: seq<DiffLine>, drop: DiffLineKind)
    ensures Texts(Flip(ops), FlipKind(drop)) == Texts(ops, drop)
  {
    if ops != [] {
      assert Flip(ops)[1..] == Flip(ops[1..]);
      FlipSides(ops[1..], drop);
    }
  }

  lemma {:induction false} FlipFirst(ops: seq<DiffLine>)
    ensures FirstOldLine(Flip(ops)) == FirstNewLine(ops) && FirstNewLine(Flip(ops)) == FirstOldLine(ops)
  {
    if ops != [] {
      assert Flip(ops)[1..] == Flip(ops[1..]);
      FlipFirst(ops[1..]);
    }
  }

  lemma {:induction false} FlipNumbered(ops: seq<DiffLine>, i: nat, j: nat)
    requires Numbered(ops, i, j)
    ensures Numbered(Flip(ops), j, i)
  {
    if ops != [] {
      assert Flip(ops)[1..] == Flip(ops[1..]);
      FlipNumbered(ops[1..], if ops[0].kind == Add then i else i + 1, if ops[0].kind == Remove then j else j + 1);
    }
  }

  lemma {:induction false} FlipChanges(ops: seq<DiffLine>, n: nat)
    requires n <= |ops|
    ensures ChangeIndices(Flip(ops), n) == ChangeIndices(ops, n)
  {
    if n > 0 {
      FlipChanges(ops, n - 1);
    }
  }

  lemma FlipRuns(ops: seq<DiffLine>, ranges: seq<Range>, context: nat)
    requires AreRuns(ranges, ops, context)
    ensures AreRuns(ranges, Flip(ops), context)
  {
    FlipChanges(ops, |ops|);
  }

  lemma FlipHunk(ops: seq<DiffLine>, lo: nat, hi: nat)
    requires lo <= hi < |ops|
    ensures FlipHunks([HunkOf(ops[lo..hi + 1])]) == [HunkOf(Flip(ops)[lo..hi + 1])]
  {
    var lines := ops[lo..hi + 1];
    assert Flip(ops)[lo..hi + 1] == Flip(lines);
    FlipFirst(lines);
    FlipSides(lines, Add);
    FlipSides(lines, Remove);
  }

  lemma FlipHunksAt(ops: seq<DiffLine>, ranges: seq<Range>)
    requires forall k :: 0 <= k < |ranges| ==> ranges[k].lo <= ranges[k].hi < |ops|
    ensures FlipHunks(HunksAt(ops, ranges)) == HunksAt(Flip(ops), ranges)
  {
    var hunks := HunksAt(ops, ranges);
    forall k | 0 <= k < |ranges|
      ensures FlipHunks(hunks)[k] == HunksAt(Flip(ops), ranges)[k]
    {
      FlipHunk(ops, ranges[k].lo, ranges[k].hi);
      assert FlipHunks(hunks)[k] == FlipHunks([hunks[k]])[0];
    }
  }

  // Flipping commutes with grouping.
  lemma FlipGrouping(ops: seq<DiffLine>, hunks: seq<DiffHunk>, context: nat)
    requires AreHunks(hunks, ops, context)
    ensures AreHunks(FlipHunks(hunks), Flip(ops), context)
  {
    var ranges: seq<Range> :| AreRuns(ranges, ops, context) && hunks == HunksAt(ops, ranges);
    FlipRuns(ops, ranges, context);
    FlipHunksAt(ops, ranges);
  }

  /** Reverse patch: the flipped hunks turn the new side back into the old side. */
  lemma HunksReverse(ops: seq<DiffLine>, hunks: seq<DiffHunk>, context: nat)
    requires Numbered(ops, 0, 0) && context >= 1 && AreHunks(hunks, ops, context)
    ensures Patch(NewSide(ops), FlipHunks(hunks), 0) == Some(OldSide(ops))
  {
    FlipGrouping(ops, hunks, context);
    FlipNumbered(ops, 0, 0);
    FlipSides(ops, Add);
    FlipSides(ops, Remove);
    HunksPatch(Flip(ops), FlipHunks(hunks), context);
  }

  // ----- totals

  // Lines of one kind over all hunks: the plan's `added` and `removed` figures.
  function Total(hunks: seq<DiffHunk>, kind: DiffLineKind): nat {
    if hunks == [] then 0 else CountKind(hunks[0].lines, kind) + Total(hunks[1..], kind)
  }

  lemma CountAcross(ops: seq<DiffLine>, e: nat, lo: nat, hi: nat, kind: DiffLineKind)
    requires e <= lo <= hi < |ops|
    ensures CountKind(ops[e..], kind) ==
            CountKind(ops[e..lo], kind) + CountKind(ops[lo..hi + 1], kind) + CountKind(ops[hi + 1..], kind)
  {
    assert ops[e..] == ops[e..lo] + ops[lo..hi + 1] + ops[hi + 1..];
    CountConcat(ops[e..lo] + ops[lo..hi + 1], ops[hi + 1..], kind);
    CountConcat(ops[e..lo], ops[lo..hi + 1], kind);
  }

  lemma TotalHunk(ops: seq<DiffLine>, e: nat, lo: nat, hi: nat, hunks: seq<DiffHunk>, kind: DiffLineKind)
    requires e <= lo <= hi < |ops| && CountKind(ops[e..lo], kind) == 0
    requires Total(hunks, kind) == CountKind(ops[hi + 1..], kind)
    ensures Total([HunkOf(ops[lo..hi + 1])] + hunks, kind) == CountKind(ops[e..], kind)
  {
    CountAcross(ops, e, lo, hi, kind);
    assert ([HunkOf(ops[lo..hi + 1])] + hunks)[1..] == hunks;
  }

  // The counts of the hunks of the remaining ranges agree with the diff from there on.
  lemma {:induction false} TotalFrom(ops: seq<DiffLine>, ranges: seq<Range>, e: nat, kind: DiffLineKind)
    requires Laid(ops, ranges, e) && kind != Context
    requires forall k :: 0 <= k < |ranges| ==> ranges[k].lo <= ranges[k].hi < |ops|
    ensures e <= |ops| && Total(HunksAt(ops, ranges), kind) == CountKind(ops[e..], kind)
    decreases |ranges|
  {
    if ranges != [] {
      var r := ranges[0];
      TotalFrom(ops, ranges[1..], r.hi + 1, kind);
      HunksAtCons(ops, ranges);
      TotalHunk(ops, e, r.lo, r.hi, HunksAt(ops, ranges[1..]), kind);
    }
  }

  lemma HunksTotal(ops: seq<DiffLine>, hunks: seq<DiffHunk>, context: nat, kind: DiffLineKind)
    requires AreHunks(hunks, ops, context) && context >= 1 && Numbered(ops, 0, 0) && kind != Context
    ensures Total(hunks, kind) == CountKind(ops, kind)
  {
    var ranges: seq<Range> :| AreRuns(ranges, ops, context) && hunks == HunksAt(ops, ranges);
    RunsAreLaid(ops, ranges, context, 0);
    assert ranges[0..] == ranges;
    TotalFrom(ops, ranges, 0, kind);
    assert ops[0..] == ops;
  }

  // ----- texts

  function PatchText(text: string, hunks: seq<DiffHunk>): Option<string> {
    match Patch(LinesOf(text), hunks, 0)
    case None => None
    case Some(lines) => Some(TextOf(lines))
  }

  // hunks is what diffing the two texts yields.
  ghost predicate IsDiff(hunks: seq<DiffHunk>, oldText: string, newText: string) {
    AreHunks(hunks, DiffOps(LinesOf(oldText), LinesOf(newText)), 3)
  }

  method DiffLines(oldText: string, newText: string) returns (hunks: seq<DiffHunk>)
    ensures IsDiff(hunks, oldText, newText)
  {
    var ops := LcsOps(LinesOf(oldText), LinesOf(newText));
    hunks := GroupHunks(ops, HUNK_CONTEXT);
  }

  /** A diff is a patch in both directions, on the table path and on the coarse path alike. */
  lemma DiffRoundTrip(oldText: string, newText: string, hunks: seq<DiffHunk>)
    requires IsDiff(hunks, oldText, newText)
    ensures PatchText(oldText, hunks) == Some(newText)
    ensures PatchText(newText, FlipHunks(hunks)) == Some(oldText)
  {
    var ops := DiffOps(LinesOf(oldText), LinesOf(newText));
    DiffOpsIsScript(LinesOf(oldText), LinesOf(newText));
    HunksPatch(ops, hunks, HUNK_CONTEXT);
    HunksReverse(ops, hunks, HUNK_CONTEXT);
    TextOfLinesOf(oldText);
    TextOfLinesOf(newText);
  }

  lemma OldStartZero(ops: seq<DiffLine>, hunks: seq<DiffHunk>, context: nat, k: nat)
    requires AreHunks(hunks, ops, context) && context >= 1 && k < |hunks| && Numbered(ops, 0, 0)
    ensures hunks[k].oldStart == 0 <==> OldSide(ops) == []
  {
    var ranges: seq<Range> :| AreRuns(ranges, ops, context) && hunks == HunksAt(ops, ranges);
    StartOfHunk(ops, ranges, context, k);
  }

  lemma NoLines(text: string)
    ensures LinesOf(text) == [] <==> text == ""
  {
  }

  /** A recorded start is 0 exactly when that side's text is empty. */
  lemma StartsAtZero(oldText: string, newText: string, hunks: seq<DiffHunk>, k: nat)
    requires IsDiff(hunks, oldText, newText) && k < |hunks|
    ensures hunks[k].oldStart == 0 <==> oldText == ""
    ensures hunks[k].newStart == 0 <==> newText == ""
  {
    var ops := DiffOps(LinesOf(oldText), LinesOf(newText));
    DiffOpsIsScript(LinesOf(oldText), LinesOf(newText));
    OldStartZero(ops, hunks, HUNK_CONTEXT, k);
    FlipGrouping(ops, hunks, HUNK_CONTEXT);
    FlipNumbered(ops, 0, 0);
    OldStartZero(Flip(ops), FlipHunks(hunks), HUNK_CONTEXT, k);
    FlipSides(ops, Remove);
    NoLines(oldText);
    NoLines(newText);
  }

  /** Every changed line of the full diff is in exactly one hunk, and hunks never touch. */
  lemma ChangeInOneHunk(ops: seq<DiffLine>, ranges: seq<Range>, context: nat, p: nat)
    requires AreRuns(ranges, ops, context) && p < |ops| && Changed(ops[p])
    ensures exists k :: 0 <= k < |ranges| && Inside(ranges[k], p) &&
                        forall l :: 0 <= l < |ranges| && Inside(ranges[l], p) ==> l == k
  {
    var k := ChangeCovers(ops, ranges, context, p, p);
    assert Inside(ranges[k], p);
  }

  /** The figures add up: what is added less what is removed is the difference in lines. */
  lemma TotalsBalance(oldText: string, newText: string, hunks: seq<DiffHunk>)
    requires IsDiff(hunks, oldText, newText)
    ensures Total(hunks, Add) + Total(hunks, Remove) == Cost(DiffOps(LinesOf(oldText), LinesOf(newText)))
    ensures Total(hunks, Add) - Total(hunks, Remove) == |LinesOf(newText)| - |LinesOf(oldText)|
  {
    var ops := DiffOps(LinesOf(oldText), LinesOf(newText));
    DiffOpsIsScript(LinesOf(oldText), LinesOf(newText));
    HunksTotal(ops, hunks, HUNK_CONTEXT, Add);
    HunksTotal(ops, hunks, HUNK_CONTEXT, Remove);
    KeptIsCommon(ops);
  }

  /** The contract of DiffLines leaves no choice: a pair of texts has one diff. */
  lemma DiffIsDetermined(oldText: string, newText: string, hunks: seq<DiffHunk>, others: seq<DiffHunk>)
    requires IsDiff(hunks, oldText, newText) && IsDiff(others, oldText, newText)
    ensures hunks == others
  {
    var ops := DiffOps(LinesOf(oldText), LinesOf(newText));
    var ranges: seq<Range> :| AreRuns(ranges, ops, HUNK_CONTEXT) && hunks == HunksAt(ops, ranges);
    var ranges': seq<Range> :| AreRuns(ranges', ops, HUNK_CONTEXT) && others == HunksAt(ops, ranges');
    RunsAreUnique(ranges, ranges', |ops|);
  }

  lemma {:induction false} KeepsItself(a: seq<string>)
    ensures IsScript(seq(|a|, i requires 0 <= i < |a| => DiffLine(Context, a[i], None, None)), a, a)
    ensures Cost(seq(|a|, i requires 0 <= i < |a| => DiffLine(Context, a[i], None, None))) == 0
  {
    if a != [] {
      KeepsItself(a[1..]);
      var ops := seq(|a|, i requires 0 <= i < |a| => DiffLine(Context, a[i], None, None));
      assert ops[1..] == seq(|a[1..]|, i requires 0 <= i < |a[1..]| => DiffLine(Context, a[1..][i], None, None));
    }
  }

  /** There are no hunks exactly when the texts are equal and small enough for the table. */
  lemma NoHunks(oldText: string, newText: string, hunks: seq<DiffHunk>)
    requires IsDiff(hunks, oldText, newText)
    ensures hunks == [] <==> oldText == newText && |LinesOf(oldText)| * |LinesOf(newText)| <= LCS_CELL_GUARD
  {
    var a, b := LinesOf(oldText), LinesOf(newText);
    var ops := DiffOps(a, b);
    TotalsBalance(oldText, newText, hunks);
    DiffRoundTrip(oldText, newText, hunks);
    if oldText == newText && |a| * |b| <= LCS_CELL_GUARD {
      KeepsItself(a);
      DiffOpsMinimal(a, b);
      NoCostNoHunks(ops, hunks);
    } else if oldText == newText {
      ReplaceIsScript(a, b, 0);
      assert Replace(a, b)[0..] == Replace(a, b);
      KeptIsCommon(ops);
      assert |a| > 0;
    } else {
      TextOfLinesOf(oldText);
      assert a[0..] == a;
    }
  }

  lemma {:induction false} NoCostUnchanged(ops: seq<DiffLine>)
    requires Cost(ops) == 0
    ensures forall op :: op in ops ==> !Changed(op)
  {
    if ops != [] {
      NoCostUnchanged(ops[1..]);
    }
  }

  lemma NoCostNoHunks(ops: seq<DiffLine>, hunks: seq<DiffHunk>)
    requires AreHunks(hunks, ops, HUNK_CONTEXT) && Cost(ops) == 0
    ensures hunks == []
  {
    NoCostUnchanged(ops);
    var ranges: seq<Range> :| AreRuns(ranges, ops, HUNK_CONTEXT) && hunks == HunksAt(ops, ranges);
    var changes := ChangeIndices(ops, |ops|);
    assert forall m :: 0 <= m < |changes| ==> ops[changes[m]] in ops;
    if ranges != [] {
      FirstCovered(ranges);
    }
  }
}
