/**
 The line diff of src/editing/atomic-edit-planner.ts: a table of common-subsequence
 lengths, and the walk over it that emits one diff line per step.
 */
module LineDiff {
  import opened Wrappers
  import opened TextLines
  import opened CommonSubsequence

  // Above this many table cells the whole file is replaced.
  const LCS_CELL_GUARD := 4_000_000

  datatype DiffLineKind = Context | Add | Remove

  datatype DiffLine = DiffLine(kind: DiffLineKind, text: string, oldLine: Option<nat>, newLine: Option<nat>)

  // Empty text has no lines at all.
  function LinesOf(text: string): seq<string> {
    if text == "" then [] else Split(text)
  }

  function TextOf(lines: seq<string>): string {
    if lines == [] then "" else Join(lines)
  }

  lemma TextOfLinesOf(text: string)
    ensures TextOf(LinesOf(text)) == text
  {
    JoinSplit(text);
  }

  /** Lines survive being joined and split exactly when none holds a newline and they are not one empty line. */
  lemma LinesOfTextOf(lines: seq<string>)
    ensures LinesOf(TextOf(lines)) == lines <==> AllLines(lines) && lines != [""]
  {
    if lines != [] {
      SplitYieldsLines(Join(lines));
      if AllLines(lines) {
        SplitJoin(lines);
      }
      hide Split, Join;
      JoinOfOne("");
    }
  }

  lemma JoinOfOne(line: string)
    ensures Join([line]) == line
  {
  }

  // ----- scripts: sequences of diff lines read as instructions

  // The texts of the lines that are not of kind `drop`.
  function Texts(ops: seq<DiffLine>, drop: DiffLineKind): seq<string> {
    if ops == [] then [] else
      (if ops[0].kind == drop then [] else [ops[0].text]) + Texts(ops[1..], drop)
  }

  function OldSide(ops: seq<DiffLine>): seq<string> {
    Texts(ops, Add)
  }

  function NewSide(ops: seq<DiffLine>): seq<string> {
    Texts(ops, Remove)
  }

  function CountKind(ops: seq<DiffLine>, kind: DiffLineKind): nat {
    if ops == [] then 0 else (if ops[0].kind == kind then 1 else 0) + CountKind(ops[1..], kind)
  }

  // Added plus removed lines.
  function Cost(ops: seq<DiffLine>): nat {
    CountKind(ops, Add) + CountKind(ops, Remove)
  }

  // ops turns the lines a into the lines b.
  ghost predicate IsScript(ops: seq<DiffLine>, a: seq<string>, b: seq<string>) {
    OldSide(ops) == a && NewSide(ops) == b
  }

  // Line numbers count, from 1, the lines of each side, of which i and j have gone before.
  ghost predicate Numbered(ops: seq<DiffLine>, i: nat, j: nat) {
    ops == [] ||
    match ops[0].kind
    case Context => ops[0].oldLine == Some(i + 1) && ops[0].newLine == Some(j + 1) && Numbered(ops[1..], i + 1, j + 1)
    case Remove => ops[0].oldLine == Some(i + 1) && ops[0].newLine == None && Numbered(ops[1..], i + 1, j)
    case Add => ops[0].oldLine == None && ops[0].newLine == Some(j + 1) && Numbered(ops[1..], i, j + 1)
  }

  lemma {:induction false} TextsConcat(x: seq<DiffLine>, y: seq<DiffLine>, drop: DiffLineKind)
    ensures Texts(x + y, drop) == Texts(x, drop) + Texts(y, drop)
  {
    if x == [] {
      assert x + y == y;
    } else {
      assert (x + y)[1..] == x[1..] + y;
      TextsConcat(x[1..], y, drop);
    }
  }

  lemma {:induction false} CountConcat(x: seq<DiffLine>, y: seq<DiffLine>, kind: DiffLineKind)
    ensures CountKind(x + y, kind) == CountKind(x, kind) + CountKind(y, kind)
  {
    if x == [] {
      assert x + y == y;
    } else {
      assert (x + y)[1..] == x[1..] + y;
      CountConcat(x[1..], y, kind);
    }
  }

  // The unchanged lines of a script.
  function Kept(ops: seq<DiffLine>): seq<string> {
    if ops == [] then [] else
      (if ops[0].kind == Context then [ops[0].text] else []) + Kept(ops[1..])
  }

  // What a script keeps is common to both sides; every other line of either side is paid for.
  lemma {:induction false} KeptIsCommon(ops: seq<DiffLine>)
    ensures IsCommon(Kept(ops), OldSide(ops), NewSide(ops))
    ensures CountKind(ops, Remove) + |Kept(ops)| == |OldSide(ops)|
    ensures CountKind(ops, Add) + |Kept(ops)| == |NewSide(ops)|
  {
    if ops != [] {
      KeptIsCommon(ops[1..]);
      match ops[0].kind
      case Context =>
        assert Kept(ops)[1..] == Kept(ops[1..]);
        assert OldSide(ops)[1..] == OldSide(ops[1..]) && NewSide(ops)[1..] == NewSide(ops[1..]);
      case Add =>
        assert Kept(ops) == Kept(ops[1..]) && OldSide(ops) == OldSide(ops[1..]);
        assert NewSide(ops)[1..] == NewSide(ops[1..]);
        DropHead(Kept(ops), NewSide(ops));
      case Remove =>
        assert Kept(ops) == Kept(ops[1..]) && NewSide(ops) == NewSide(ops[1..]);
        assert OldSide(ops)[1..] == OldSide(ops[1..]);
        DropHead(Kept(ops), OldSide(ops));
    }
  }

  // ----- the walk

  function KeepLine(text: string, i: nat, j: nat): DiffLine {
    DiffLine(Context, text, Some(i + 1), Some(j + 1))
  }

  function RemoveLine(text: string, i: nat): DiffLine {
    DiffLine(Remove, text, Some(i + 1), None)
  }

  function AddLine(text: string, j: nat): DiffLine {
    DiffLine(Add, text, None, Some(j + 1))
  }

  // The table entry for the suffixes from i and j.
  function Cell(a: seq<string>, b: seq<string>, i: nat, j: nat): nat
    requires i <= |a| && j <= |b|
    decreases |a| - i + |b| - j
  {
    if i == |a| || j == |b| then 0
    else if a[i] == b[j] then Cell(a, b, i + 1, j + 1) + 1
    else if Cell(a, b, i + 1, j) < Cell(a, b, i, j + 1) then Cell(a, b, i, j + 1)
    else Cell(a, b, i + 1, j)
  }

  lemma {:induction false} CellIsLcs(a: seq<string>, b: seq<string>, i: nat, j: nat)
    requires i <= |a| && j <= |b|
    ensures Cell(a, b, i, j) == Lcs(a[i..], b[j..])
    decreases |a| - i + |b| - j
  {
    if i < |a| && j < |b| {
      assert a[i..][1..] == a[i + 1..] && b[j..][1..] == b[j + 1..];
      CellIsLcs(a, b, i + 1, j + 1);
      CellIsLcs(a, b, i + 1, j);
      CellIsLcs(a, b, i, j + 1);
    }
  }

  // The diff lines from position i of a and j of b on; a tie removes before it adds.
  function Walk(a: seq<string>, b: seq<string>, i: nat, j: nat): seq<DiffLine>
    requires i <= |a| && j <= |b|
    decreases |a| - i + |b| - j
  {
    if i < |a| && (j == |b| || (a[i] != b[j] && Cell(a, b, i + 1, j) >= Cell(a, b, i, j + 1))) then
      [RemoveLine(a[i], i)] + Walk(a, b, i + 1, j)
    else if j < |b| && (i == |a| || a[i] != b[j]) then
      [AddLine(b[j], j)] + Walk(a, b, i, j + 1)
    else if i < |a| then
      [KeepLine(a[i], i, j)] + Walk(a, b, i + 1, j + 1)
    else
      []
  }

  function Replace(a: seq<string>, b: seq<string>): seq<DiffLine> {
    seq(|a|, i requires 0 <= i < |a| => RemoveLine(a[i], i)) + seq(|b|, j requires 0 <= j < |b| => AddLine(b[j], j))
  }

  function DiffOps(a: seq<string>, b: seq<string>): seq<DiffLine> {
    if |a| * |b| > LCS_CELL_GUARD then Replace(a, b) else Walk(a, b, 0, 0)
  }

  // The walk is a numbered script, and it keeps as many lines as the table promises.
  lemma {:induction false} WalkIsScript(a: seq<string>, b: seq<string>, i: nat, j: nat)
    requires i <= |a| && j <= |b|
    ensures IsScript(Walk(a, b, i, j), a[i..], b[j..])
    ensures Numbered(Walk(a, b, i, j), i, j)
    ensures |Kept(Walk(a, b, i, j))| == Cell(a, b, i, j)
    decreases |a| - i + |b| - j
  {
    var w := Walk(a, b, i, j);
    if i < |a| && (j == |b| || (a[i] != b[j] && Cell(a, b, i + 1, j) >= Cell(a, b, i, j + 1))) {
      WalkIsScript(a, b, i + 1, j);
      assert w[1..] == Walk(a, b, i + 1, j) && a[i..][1..] == a[i + 1..];
    } else if j < |b| && (i == |a| || a[i] != b[j]) {
      WalkIsScript(a, b, i, j + 1);
      assert w[1..] == Walk(a, b, i, j + 1) && b[j..][1..] == b[j + 1..];
    } else if i < |a| {
      WalkIsScript(a, b, i + 1, j + 1);
      assert w[1..] == Walk(a, b, i + 1, j + 1);
      assert a[i..][1..] == a[i + 1..] && b[j..][1..] == b[j + 1..];
    }
  }

  // A table entry is the length of the longest common subsequence of the two suffixes:
  // the walk's kept lines are one of that length, and there is no longer one.
  lemma CellIsLongest(a: seq<string>, b: seq<string>, i: nat, j: nat)
    requires i <= |a| && j <= |b|
    ensures exists c :: IsCommon(c, a[i..], b[j..]) && |c| == Cell(a, b, i, j)
    ensures forall c :: IsCommon(c, a[i..], b[j..]) ==> |c| <= Cell(a, b, i, j)
  {
    WalkIsScript(a, b, i, j);
    KeptIsCommon(Walk(a, b, i, j));
    CellIsLcs(a, b, i, j);
    forall c | IsCommon(c, a[i..], b[j..])
      ensures |c| <= Cell(a, b, i, j)
    {
      LcsBounds(c, a[i..], b[j..]);
    }
  }

  lemma {:induction false} AddsAre(b: seq<string>, j: nat, i: nat)
    requires j <= |b|
    ensures var ops := seq(|b|, k requires 0 <= k < |b| => AddLine(b[k], k))[j..];
            IsScript(ops, [], b[j..]) && Numbered(ops, i, j) && Kept(ops) == []
    decreases |b| - j
  {
    if j < |b| {
      AddsAre(b, j + 1, i);
      var ops := seq(|b|, k requires 0 <= k < |b| => AddLine(b[k], k));
      assert ops[j..][1..] == ops[j + 1..];
      assert b[j..] == [b[j]] + b[j + 1..];
    }
  }

  lemma {:induction false} ReplaceIsScript(a: seq<string>, b: seq<string>, i: nat)
    requires i <= |a|
    ensures var ops := Replace(a, b)[i..];
            IsScript(ops, a[i..], b) && Numbered(ops, i, 0) && Kept(ops) == []
    decreases |a| - i
  {
    var ops := Replace(a, b);
    if i < |a| {
      ReplaceIsScript(a, b, i + 1);
      assert ops[i..][1..] == ops[i + 1..];
      assert a[i..] == [a[i]] + a[i + 1..];
    } else {
      AddsAre(b, 0, i);
      assert ops[i..] == seq(|b|, k requires 0 <= k < |b| => AddLine(b[k], k))[0..];
    }
  }

  // On both paths the diff is a script from a to b with the right line numbers.
  lemma DiffOpsIsScript(a: seq<string>, b: seq<string>)
    ensures IsScript(DiffOps(a, b), a, b)
    ensures Numbered(DiffOps(a, b), 0, 0)
  {
    if |a| * |b| > LCS_CELL_GUARD {
      ReplaceIsScript(a, b, 0);
      assert Replace(a, b)[0..] == Replace(a, b);
    } else {
      WalkIsScript(a, b, 0, 0);
    }
    assert a[0..] == a && b[0..] == b;
  }

  // No script from a to b keeps more than the longest common subsequence.
  lemma ScriptCost(ops: seq<DiffLine>, a: seq<string>, b: seq<string>)
    requires IsScript(ops, a, b)
    ensures Cost(ops) >= |a| + |b| - 2 * Lcs(a, b)
  {
    KeptIsCommon(ops);
    LcsBounds(Kept(ops), a, b);
  }

  ghost predicate IsMinimal(ops: seq<DiffLine>, a: seq<string>, b: seq<string>) {
    forall other :: IsScript(other, a, b) ==> Cost(ops) <= Cost(other)
  }

  // The diff is minimal exactly when the table fits the guard or the texts share no line.
  lemma DiffOpsMinimal(a: seq<string>, b: seq<string>)
    ensures IsMinimal(DiffOps(a, b), a, b) <==> |a| * |b| <= LCS_CELL_GUARD || forall l :: l in a ==> l !in b
  {
    DiffOpsIsScript(a, b);
    KeptIsCommon(DiffOps(a, b));
    WalkIsScript(a, b, 0, 0);
    CellIsLcs(a, b, 0, 0);
    assert a[0..] == a && b[0..] == b;
    KeptIsCommon(Walk(a, b, 0, 0));
    if |a| * |b| > LCS_CELL_GUARD {
      ReplaceIsScript(a, b, 0);
      assert Replace(a, b)[0..] == Replace(a, b);
      if l :| l in a && l in b {
        SingletonSubsequence(l, a);
        SingletonSubsequence(l, b);
        LcsBounds([l], a, b);
        assert Cost(Walk(a, b, 0, 0)) < Cost(DiffOps(a, b));
      } else {
        NothingShared(a, b);
      }
    }
    forall other | IsScript(other, a, b)
      ensures Cost(other) >= |a| + |b| - 2 * Lcs(a, b)
    {
      ScriptCost(other, a, b);
    }
  }

  lemma {:induction false} NothingShared(a: seq<string>, b: seq<string>)
    requires forall l :: l in a ==> l !in b
    ensures Lcs(a, b) == 0
    decreases |a| + |b|
  {
    if a != [] && b != [] {
      assert a[0] in a;
      NothingShared(a[1..], b);
      NothingShared(a, b[1..]);
    }
  }

  /** Two copies of a text of 2001 lines are past the guard: every line is removed and added again. */
  lemma LargeCopyNotMinimal()
    ensures var a := seq(2001, _ => "x"); !IsMinimal(DiffOps(a, a), a, a)
  {
    var a := seq(2001, _ => "x");
    DiffOpsMinimal(a, a);
    assert |a| * |a| == 4_004_001 && a[0] in a;
  }

  // ----- which of the shortest scripts it is

  // The first place where two scripts do different things.
  predicate PartAt(x: seq<DiffLine>, y: seq<DiffLine>, k: nat) {
    && k < |x| && k < |y| && x[k].kind != y[k].kind
    && forall i :: 0 <= i < k ==> x[i].kind == y[i].kind
  }

  // There x keeps a line, or removes one where y adds one.
  ghost predicate Preferred(x: seq<DiffLine>, y: seq<DiffLine>) {
    forall k: nat :: PartAt(x, y, k) ==> x[k].kind == Context || (x[k].kind == Remove && y[k].kind == Add)
  }

  lemma PartLater(x: seq<DiffLine>, y: seq<DiffLine>, k: nat)
    requires x != [] && y != [] && x[0].kind == y[0].kind
    ensures PartAt(x, y, k) <==> k > 0 && PartAt(x[1..], y[1..], k - 1)
  {
    if k > 0 && PartAt(x[1..], y[1..], k - 1) {
      assert forall i :: 1 <= i < k ==> x[i].kind == x[1..][i - 1].kind && y[i].kind == y[1..][i - 1].kind;
    }
    if k > 0 && PartAt(x, y, k) {
      assert forall i :: 0 <= i < k - 1 ==> x[1..][i].kind == x[i + 1].kind && y[1..][i].kind == y[i + 1].kind;
    }
  }

  // A script of two sides begins with their first line, or with the first line of one of them.
  lemma ScriptHead(ops: seq<DiffLine>, a: seq<string>, b: seq<string>)
    requires ops != [] && IsScript(ops, a, b)
    ensures ops[0].kind != Add ==> a != [] && ops[0].text == a[0]
    ensures ops[0].kind != Remove ==> b != [] && ops[0].text == b[0]
    ensures IsScript(ops[1..], if ops[0].kind == Add then a else a[1..], if ops[0].kind == Remove then b else b[1..])
  {
  }

  lemma ScriptKeeps(ops: seq<DiffLine>, a: seq<string>, b: seq<string>)
    requires IsScript(ops, a, b)
    ensures |Kept(ops)| <= Lcs(a, b)
  {
    KeptIsCommon(ops);
    LcsBounds(Kept(ops), a, b);
  }

  lemma WalkHead(a: seq<string>, b: seq<string>, i: nat, j: nat)
    requires i <= |a| && j <= |b| && (i < |a| || j < |b|)
    ensures var w := Walk(a, b, i, j);
      && w != []
      && (w[0].kind == Context ==> i < |a| && j < |b| && w[1..] == Walk(a, b, i + 1, j + 1))
      && (w[0].kind == Remove ==> i < |a| && w[1..] == Walk(a, b, i + 1, j) && (j < |b| ==> a[i] != b[j]))
      && (w[0].kind == Add ==> j < |b| && w[1..] == Walk(a, b, i, j + 1))
      && (w[0].kind == Add && i < |a| ==> a[i] != b[j] && Cell(a, b, i + 1, j) < Cell(a, b, i, j))
  {
  }

  // Among the scripts that keep as much, the walk is preferred to each.
  lemma {:induction false} WalkIsPreferred(a: seq<string>, b: seq<string>, i: nat, j: nat, other: seq<DiffLine>)
    requires i <= |a| && j <= |b|
    requires IsScript(other, a[i..], b[j..]) && |Kept(other)| == Cell(a, b, i, j)
    ensures Preferred(Walk(a, b, i, j), other)
    decreases |other|
  {
    var w := Walk(a, b, i, j);
    if other != [] {
      ScriptHead(other, a[i..], b[j..]);
      assert i < |a| ==> a[i..][1..] == a[i + 1..];
      assert j < |b| ==> b[j..][1..] == b[j + 1..];
      WalkHead(a, b, i, j);
      KeptAndCell(a, b, i, j, other);
      hide Walk, Cell, Kept, IsScript, PartAt;
      if w[0].kind == other[0].kind {
        var i' := if w[0].kind == Add then i else i + 1;
        var j' := if w[0].kind == Remove then j else j + 1;
        WalkIsPreferred(a, b, i', j', other[1..]);
        forall k: nat | PartAt(w, other, k)
          ensures w[k].kind == Context || (w[k].kind == Remove && other[k].kind == Add)
        {
          PartLater(w, other, k);
        }
      } else {
        forall k: nat | PartAt(w, other, k)
          ensures k == 0
        {
          FirstPart(w, other, k);
        }
      }
    }
  }

  lemma FirstPart(x: seq<DiffLine>, y: seq<DiffLine>, k: nat)
    requires PartAt(x, y, k) && x[0].kind != y[0].kind
    ensures k == 0
  {
  }

  // What a script that keeps as much as the walk has left to keep after its first line.
  lemma KeptAndCell(a: seq<string>, b: seq<string>, i: nat, j: nat, other: seq<DiffLine>)
    requires i <= |a| && j <= |b| && other != []
    requires IsScript(other, a[i..], b[j..]) && |Kept(other)| == Cell(a, b, i, j)
    ensures Walk(a, b, i, j) != []
    ensures (other[0].kind != Add ==> i < |a|) && (other[0].kind != Remove ==> j < |b|)
    ensures other[0].kind == Walk(a, b, i, j)[0].kind ==>
      |Kept(other[1..])| == Cell(a, b, if other[0].kind == Add then i else i + 1, if other[0].kind == Remove then j else j + 1)
    ensures other[0].kind == Remove ==> i < |a| && Cell(a, b, i, j) <= Cell(a, b, i + 1, j)
  {
    ScriptHead(other, a[i..], b[j..]);
    WalkIsScript(a, b, i, j);
    if other[0].kind == Remove {
      assert a[i..][1..] == a[i + 1..];
      ScriptKeeps(other[1..], a[i + 1..], b[j..]);
      CellIsLcs(a, b, i + 1, j);
    }
  }

  // Scripts of the same sides, numbered alike, that never do different things are the same.
  lemma {:induction false} NeverPart(x: seq<DiffLine>, y: seq<DiffLine>, a: seq<string>, b: seq<string>, i: nat, j: nat)
    requires IsScript(x, a, b) && IsScript(y, a, b) && Numbered(x, i, j) && Numbered(y, i, j)
    requires forall k: nat :: !PartAt(x, y, k)
    ensures x == y
    decreases |x|
  {
    if x != [] && y != [] {
      ScriptHead(x, a, b);
      ScriptHead(y, a, b);
      assert !PartAt(x, y, 0);
      hide PartAt, IsScript;
      var kind := x[0].kind;
      forall k: nat
        ensures !PartAt(x[1..], y[1..], k)
      {
        PartLater(x, y, k + 1);
      }
      NeverPart(x[1..], y[1..], if kind == Add then a else a[1..], if kind == Remove then b else b[1..],
                if kind == Add then i else i + 1, if kind == Remove then j else j + 1);
      assert x == [x[0]] + x[1..] && y == [y[0]] + y[1..];
    } else {
      EmptySides(x, a, b);
      EmptySides(y, a, b);
    }
  }

  lemma EmptySides(ops: seq<DiffLine>, a: seq<string>, b: seq<string>)
    requires IsScript(ops, a, b)
    ensures ops == [] <==> a == [] && b == []
  {
    if ops != [] {
      ScriptHead(ops, a, b);
    }
  }

  // The minimal script that is preferred to every other.
  ghost predicate IsFirstScript(ops: seq<DiffLine>, a: seq<string>, b: seq<string>) {
    && IsScript(ops, a, b) && Numbered(ops, 0, 0) && IsMinimal(ops, a, b)
    && forall other :: IsScript(other, a, b) && IsMinimal(other, a, b) ==> Preferred(ops, other)
  }

  // Every line removed, then every line added.
  ghost predicate IsReplacement(ops: seq<DiffLine>, a: seq<string>, b: seq<string>) {
    && IsScript(ops, a, b) && Numbered(ops, 0, 0)
    && (forall k :: 0 <= k < |ops| ==> ops[k].kind == if k < |a| then Remove else Add)
  }

  ghost predicate IsLineDiff(ops: seq<DiffLine>, a: seq<string>, b: seq<string>) {
    if |a| * |b| <= 4_000_000 then IsFirstScript(ops, a, b) else IsReplacement(ops, a, b)
  }

  lemma WalkIsFirst(a: seq<string>, b: seq<string>)
    requires |a| * |b| <= LCS_CELL_GUARD
    ensures IsFirstScript(DiffOps(a, b), a, b)
  {
    DiffOpsIsScript(a, b);
    DiffOpsMinimal(a, b);
    WalkIsScript(a, b, 0, 0);
    CellIsLcs(a, b, 0, 0);
    assert a[0..] == a && b[0..] == b;
    KeptIsCommon(Walk(a, b, 0, 0));
    hide Walk, Cell, Kept, Numbered, Preferred, OldSide, NewSide;
    forall other | IsScript(other, a, b) && IsMinimal(other, a, b)
      ensures Preferred(DiffOps(a, b), other)
    {
      KeptIsCommon(other);
      ScriptKeeps(other, a, b);
      assert Cost(other) <= Cost(Walk(a, b, 0, 0));
      WalkIsPreferred(a, b, 0, 0, other);
    }
  }

  lemma ReplaceIsReplacement(a: seq<string>, b: seq<string>)
    ensures IsReplacement(Replace(a, b), a, b)
  {
    ReplaceIsScript(a, b, 0);
    assert Replace(a, b)[0..] == Replace(a, b) && a[0..] == a;
    hide IsScript, Numbered;
  }

  /**
   What the diff is, without saying how it is found: below the guard the minimal script that is
   preferred to all others, past it the replacement of the whole.
   */
  lemma DiffOpsIs(ops: seq<DiffLine>, a: seq<string>, b: seq<string>)
    ensures ops == DiffOps(a, b) <==> IsLineDiff(ops, a, b)
  {
    var diff := DiffOps(a, b);
    if |a| * |b| <= LCS_CELL_GUARD {
      WalkIsFirst(a, b);
    } else {
      ReplaceIsReplacement(a, b);
    }
    if IsLineDiff(ops, a, b) {
      hide DiffOps, IsScript, Numbered, IsMinimal;
      forall k: nat
        ensures !PartAt(ops, diff, k)
      {
      }
      NeverPart(ops, diff, a, b, 0, 0);
    }
  }

  // A suffix has no longer a common subsequence than the whole.
  lemma CellShrinks(a: seq<string>, b: seq<string>, i: nat, j: nat)
    requires i <= |a| && j < |b|
    ensures Cell(a, b, i, j + 1) <= Cell(a, b, i, j)
  {
    CellIsLongest(a, b, i, j + 1);
    CellIsLongest(a, b, i, j);
    var c :| IsCommon(c, a[i..], b[j + 1..]) && |c| == Cell(a, b, i, j + 1);
    assert b[j..][1..] == b[j + 1..];
    DropHead(c, b[j..]);
    hide Cell, IsSubsequence;
  }

  ghost predicate RemovesFirst(ops: seq<DiffLine>) {
    forall k :: 0 <= k < |ops| - 1 ==> !(ops[k].kind == Add && ops[k + 1].kind == Remove)
  }

  lemma {:induction false} WalkRemovesFirst(a: seq<string>, b: seq<string>, i: nat, j: nat)
    requires i <= |a| && j <= |b|
    ensures RemovesFirst(Walk(a, b, i, j))
    decreases |a| - i + |b| - j
  {
    var w := Walk(a, b, i, j);
    if i < |a| || j < |b| {
      WalkHead(a, b, i, j);
      var i' := if w[0].kind == Add then i else i + 1;
      var j' := if w[0].kind == Remove then j else j + 1;
      WalkRemovesFirst(a, b, i', j');
      if w[0].kind == Add {
        RemoveAfterAdd(a, b, i, j);
        assert |w| > 1 ==> w[1] == w[1..][0];
      }
      hide Walk, Cell;
      forall k | 0 <= k < |w| - 1
        ensures !(w[k].kind == Add && w[k + 1].kind == Remove)
      {
        if k > 0 {
          assert w[k] == w[1..][k - 1] && w[k + 1] == w[1..][k];
        }
      }
    }
  }

  lemma RemoveAfterAdd(a: seq<string>, b: seq<string>, i: nat, j: nat)
    requires i <= |a| && j < |b| && Walk(a, b, i, j) != [] && Walk(a, b, i, j)[0].kind == Add
    ensures Walk(a, b, i, j + 1) == [] || Walk(a, b, i, j + 1)[0].kind != Remove
  {
    if i < |a| {
      CellShrinks(a, b, i + 1, j);
    }
  }

  /** Where lines are replaced they are removed before others are added, on both paths. */
  lemma RemovesBeforeAdds(a: seq<string>, b: seq<string>)
    ensures RemovesFirst(DiffOps(a, b))
  {
    WalkRemovesFirst(a, b, 0, 0);
    ReplaceIsReplacement(a, b);
    hide Walk, IsScript, Numbered;
  }

  ghost predicate RowFilled(dp: array2<nat>, a: seq<string>, b: seq<string>, i: nat, from: nat)
    requires dp.Length0 == |a| + 1 && dp.Length1 == |b| + 1 && i <= |a|
    reads dp
  {
    forall y :: from <= y <= |b| ==> dp[i, y] == Cell(a, b, i, y)
  }

  // Fills one row, given the row below it.
  method FillRow(dp: array2<nat>, a: seq<string>, b: seq<string>, i: nat)
    requires dp.Length0 == |a| + 1 && dp.Length1 == |b| + 1 && i < |a|
    requires dp[i, |b|] == 0 && RowFilled(dp, a, b, i + 1, 0)
    modifies dp
    ensures RowFilled(dp, a, b, i, 0)
    ensures forall x, y :: 0 <= x <= |a| && x != i && 0 <= y <= |b| ==> dp[x, y] == old(dp[x, y])
  {
    var j: int := |b| - 1;
    while j >= 0
      invariant -1 <= j < |b|
      invariant RowFilled(dp, a, b, i, j + 1)
      invariant forall x, y :: 0 <= x <= |a| && x != i && 0 <= y <= |b| ==> dp[x, y] == old(dp[x, y])
    {
      dp[i, j] := if a[i] == b[j] then dp[i + 1, j + 1] + 1
                  else if dp[i + 1, j] < dp[i, j + 1] then dp[i, j + 1] else dp[i + 1, j];
      j := j - 1;
    }
  }

  /** Fills the table from the last row up: cell (i, j) is the length for the suffixes from i and j. */
  method FillTable(a: seq<string>, b: seq<string>) returns (dp: array2<nat>)
    ensures fresh(dp) && dp.Length0 == |a| + 1 && dp.Length1 == |b| + 1
    ensures forall x :: 0 <= x <= |a| ==> RowFilled(dp, a, b, x, 0)
  {
    dp := new nat[|a| + 1, |b| + 1]((_, _) => 0);
    var i: int := |a| - 1;
    while i >= 0
      invariant -1 <= i < |a|
      invariant forall x :: i < x <= |a| ==> RowFilled(dp, a, b, x, 0)
      invariant forall x :: 0 <= x <= i ==> dp[x, |b|] == 0
    {
      label before:
      FillRow(dp, a, b, i);
      forall x | i < x <= |a|
        ensures RowFilled(dp, a, b, x, 0)
      {
        assert old@before(RowFilled(dp, a, b, x, 0));
        assert forall y :: 0 <= y <= |b| ==> dp[x, y] == old@before(dp[x, y]);
      }
      i := i - 1;
    }
  }

  // Appending the first line of what the walk has left keeps the whole.
  lemma Push(ops: seq<DiffLine>, op: DiffLine, rest: seq<DiffLine>, left: seq<DiffLine>)
    requires left == [op] + rest
    ensures (ops + [op]) + rest == ops + left
  {
  }

  /** Walks the table from the near corner, then takes what is left of either side. */
  method WalkTable(a: seq<string>, b: seq<string>, dp: array2<nat>) returns (ops: seq<DiffLine>)
    requires dp.Length0 == |a| + 1 && dp.Length1 == |b| + 1
    requires forall x :: 0 <= x <= |a| ==> RowFilled(dp, a, b, x, 0)
    ensures ops == Walk(a, b, 0, 0)
  {
    var i: nat, j: nat := 0, 0;
    ops := [];
    while i < |a| && j < |b|
      invariant i <= |a| && j <= |b|
      invariant ops + Walk(a, b, i, j) == Walk(a, b, 0, 0)
      decreases |a| - i + |b| - j
    {
      ghost var left := Walk(a, b, i, j);
      var op;
      if a[i] == b[j] {
        op := KeepLine(a[i], i, j);
        i, j := i + 1, j + 1;
      } else {
        assert RowFilled(dp, a, b, i, 0) && RowFilled(dp, a, b, i + 1, 0);
        if dp[i + 1, j] >= dp[i, j + 1] {
          op := RemoveLine(a[i], i);
          i := i + 1;
        } else {
          op := AddLine(b[j], j);
          j := j + 1;
        }
      }
      Push(ops, op, Walk(a, b, i, j), left);
      ops := ops + [op];
    }
    while i < |a|
      invariant i <= |a| && j <= |b| && (i == |a| || j == |b|)
      invariant ops + Walk(a, b, i, j) == Walk(a, b, 0, 0)
    {
      Push(ops, RemoveLine(a[i], i), Walk(a, b, i + 1, j), Walk(a, b, i, j));
      ops := ops + [RemoveLine(a[i], i)];
      i := i + 1;
    }
    while j < |b|
      invariant i == |a| && j <= |b|
      invariant ops + Walk(a, b, i, j) == Walk(a, b, 0, 0)
    {
      Push(ops, AddLine(b[j], j), Walk(a, b, i, j + 1), Walk(a, b, i, j));
      ops := ops + [AddLine(b[j], j)];
      j := j + 1;
    }
  }

  /** The whole diff: guard, table and walk. */
  method LcsOps(a: seq<string>, b: seq<string>) returns (ops: seq<DiffLine>)
    ensures ops == DiffOps(a, b) && IsLineDiff(ops, a, b)
  {
    DiffOpsIs(DiffOps(a, b), a, b);
    hide IsLineDiff;
    if |a| * |b| > LCS_CELL_GUARD {
      return seq(|a|, i requires 0 <= i < |a| => RemoveLine(a[i], i)) +
             seq(|b|, j requires 0 <= j < |b| => AddLine(b[j], j));
    }
    var dp := FillTable(a, b);
    ops := WalkTable(a, b, dp);
  }
}
