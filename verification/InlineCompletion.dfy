/**
 The inline-completion session of src/completion/inline-completion.ts: a suggestion that is shown,
 accepted whole, by line or by word, or rejected. An update waits for the engine; its two halves,
 before and after the wait, are separate operations here.
 */
module InlineCompletion {
  import opened Wrappers
  import opened TextLines
  import opened Whitespace

  const MAX_RECENT_EDITS := 10

  datatype Suggestion = Suggestion(text: string, lines: seq<string>, model: string, fromCache: bool)

  // What the engine answers.
  datatype Completion = Completion(text: string, model: string, fromCache: bool)

  datatype Edit = Edit(path: string, summary: string)

  datatype Phase = Idle | Pending | Showing

  datatype Key = Tab | Escape | AcceptWord | AcceptLine

  datatype KeyResult = Accepted | Rejected | Ignored

  // What an update waits for: the engine may have settled its promise before the update goes on.
  datatype Awaited = Open | Given(answer: Option<Completion>)

  // waiting holds the updates that wait for the engine.
  datatype Session = Session(
    current: Option<Suggestion>, phase: Phase, updateSeq: nat, recentEdits: seq<Edit>, path: string, waiting: map<nat, Awaited>)

  const FRESH := Session(None, Idle, 0, [], "", map[])

  // ----- words

  function SpaceRun(t: string): (n: nat)
    ensures n <= |t| && AllSpace(t[..n], IsJsSpace) && (n < |t| ==> !IsJsSpace(t[n]))
  {
    if t == "" || !IsJsSpace(t[0]) then 0 else
      var n := 1 + SpaceRun(t[1..]);
      assert t[..n] == [t[0]] + t[1..][..n - 1];
      n
  }

  function WordRun(t: string): (n: nat)
    ensures n <= |t| && (forall i :: 0 <= i < n ==> !IsJsSpace(t[i])) && (n < |t| ==> IsJsSpace(t[n]))
  {
    if t == "" || IsJsSpace(t[0]) then 0 else 1 + WordRun(t[1..])
  }

  // White space and the word after it; None when there is no word.
  function FirstWord(t: string): (w: Option<string>)
    ensures w.None? <==> AllSpace(t, IsJsSpace)
    ensures w.Some? ==>
      && w.value <= t && |w.value| == SpaceRun(t) + WordRun(t[SpaceRun(t)..])
      && SpaceRun(t) < |w.value|
  {
    var n := SpaceRun(t);
    if n == |t| then
      assert t[..n] == t;
      None
    else
      assert t[n] in t;
      Some(t[..n + WordRun(t[n..])])
  }

  // First line only, cut to eighty characters.
  function Preview(text: string): string {
    var firstLine := Split(text)[0];
    if |firstLine| > 80 then firstLine[..77] + "..." else firstLine
  }

  // ----- the session as a value

  function LastTen(edits: seq<Edit>): seq<Edit> {
    if |edits| > MAX_RECENT_EDITS then edits[|edits| - MAX_RECENT_EDITS..] else edits
  }

  function WithEdit(s: Session, summary: string): Session {
    s.(recentEdits := LastTen(s.recentEdits + [Edit(s.path, summary)]))
  }

  function Show(text: string, model: string, fromCache: bool): Suggestion {
    Suggestion(text, Split(text), model, fromCache)
  }

  function Cleared(s: Session): Session {
    s.(current := None, phase := Idle)
  }

  // After part of the suggestion was inserted, the rest is shown unless it is blank.
  function Partial(s: Session, inserted: string, remaining: string): Session
    requires s.current.Some?
  {
    var s := WithEdit(s, "accepted partial completion: " + Preview(inserted));
    if JsTrim(remaining) == "" then Cleared(s)
    else s.(current := Some(Show(remaining, s.current.value.model, false)), phase := Showing)
  }

  // The first line, with its newline when more lines follow.
  function LineOf(lines: seq<string>): string {
    if lines == [] then "" else if |lines| > 1 then lines[0] + "\n" else lines[0]
  }

  function Below(lines: seq<string>): seq<string> {
    if lines == [] then [] else lines[1..]
  }

  // An accept: the session after it, and the text to insert.
  function Take(s: Session, key: Key): (Session, Option<string>) {
    if s.current.None? then (s, None) else
      var text, lines := s.current.value.text, s.current.value.lines;
      match key
      case Tab => TakeWhole(s)
      case AcceptLine =>
        var inserted := LineOf(lines);
        (Partial(s, inserted, Join(Below(lines))), Some(inserted))
      case AcceptWord =>
        (match FirstWord(text)
         case None => TakeWhole(s)
         case Some(w) => (Partial(s, w, text[|w|..]), Some(w)))
      case Escape => (Dismissed(s), None)
  }

  lemma LineParts(lines: seq<string>)
    ensures var line := if lines == [] then "" else lines[0];
      LineOf(lines) == if |Below(lines)| > 0 then line + "\n" else line
  {
  }

  function TakeWhole(s: Session): (Session, Option<string>)
    requires s.current.Some?
  {
    var text := s.current.value.text;
    (Cleared(WithEdit(s, "accepted completion: " + Preview(text))), Some(text))
  }

  lemma TakeLine(s: Session)
    requires s.current.Some?
    ensures var lines := s.current.value.lines;
      Take(s, Key.AcceptLine) == (Partial(s, LineOf(lines), Join(Below(lines))), Some(LineOf(lines)))
  {
    hide Partial, Join, LineOf, Below;
  }

  function Dismissed(s: Session): Session {
    var s := s.(updateSeq := s.updateSeq + 1);
    if s.phase == Idle && s.current.None? then s
    else
      var s := s.(waiting := Cancelled(s.waiting));
      if s.current.Some? then Cleared(WithEdit(s, "rejected completion: " + Preview(s.current.value.text))) else Cleared(s)
  }

  function Disposed(s: Session): Session {
    Cleared(s.(waiting := Cancelled(s.waiting)))
  }

  // The engine settles what is open with null when it is given a new request or told to cancel.
  function Cancelled(waiting: map<nat, Awaited>): map<nat, Awaited> {
    map n | n in waiting :: if waiting[n].Open? then Given(None) else waiting[n]
  }

  function Started(s: Session, path: string): Session {
    var seq' := s.updateSeq + 1;
    s.(path := path, updateSeq := seq', current := None, phase := Pending, waiting := Cancelled(s.waiting)[seq' := Open])
  }

  function Answered(s: Session, n: nat, answer: Option<Completion>): Session {
    var s := s.(waiting := s.waiting - {n});
    if n != s.updateSeq then s
    else if answer.None? then Cleared(s)
    else s.(current := Some(Show(answer.value.text, answer.value.model, answer.value.fromCache)), phase := Showing)
  }

  // An escape in an idle session is not taken, and then does not supersede anything either.
  function Pressed(s: Session, key: Key): Session {
    if key.Escape? then (if s.phase == Idle && s.current.None? then s else Dismissed(s)) else Take(s, key).0
  }

  // ----- the session

  class InlineCompletionSession {
    var current: Option<Suggestion>
    var phase: Phase
    var updateSeq: nat
    var recentEdits: seq<Edit>
    var lastPath: string
    ghost var waiting: map<nat, Awaited>

    constructor ()
      ensures State() == FRESH
    {
      current, phase, updateSeq, recentEdits, lastPath, waiting := None, Idle, 0, [], "", map[];
    }

    ghost function State(): Session
      reads this
    {
      Session(current, phase, updateSeq, recentEdits, lastPath, waiting)
    }

    method RecordEdit(path: string, summary: string)
      requires |recentEdits| <= MAX_RECENT_EDITS
      modifies this`recentEdits
      ensures recentEdits == LastTen(old(recentEdits) + [Edit(path, summary)])
    {
      recentEdits := recentEdits + [Edit(path, summary)];
      if |recentEdits| > MAX_RECENT_EDITS {
        recentEdits := recentEdits[1..];
      }
    }

    /** First half of an update: everything earlier is superseded. */
    method UpdateStart(path: string) returns (n: nat)
      modifies this
      ensures n == updateSeq && State() == Started(old(State()), path)
    {
      lastPath := path;
      updateSeq := updateSeq + 1;
      n := updateSeq;
      current, phase := None, Pending;
      waiting := Cancelled(waiting)[n := Open];
    }

    /** Second half of update n, when the engine answers it. */
    method UpdateAnswered(n: nat, answer: Option<Completion>)
      modifies this
      ensures State() == Answered(old(State()), n, answer)
    {
      waiting := waiting - {n};
      if n != updateSeq {
        return;
      }
      if answer.None? {
        current, phase := None, Idle;
        return;
      }
      current := Some(Suggestion(answer.value.text, Split(answer.value.text), answer.value.model, answer.value.fromCache));
      phase := Showing;
    }

    method Accept() returns (accepted: Option<string>)
      requires |recentEdits| <= MAX_RECENT_EDITS
      modifies this
      ensures (State(), accepted) == Take(old(State()), Tab)
    {
      if current.None? {
        return None;
      }
      var inserted := current.value.text;
      hide Preview, Split;
      RecordEdit(lastPath, "accepted completion: " + Preview(inserted));
      current, phase := None, Idle;
      return Some(inserted);
    }

    method AcceptLineOf() returns (accepted: Option<string>)
      requires |recentEdits| <= MAX_RECENT_EDITS
      modifies this
      ensures (State(), accepted) == Take(old(State()), Key.AcceptLine)
    {
      hide Preview, Split, Join, JsTrim, FirstWord, Partial, Take, LineOf, Below;
      if current.None? {
        TakeNothing(State(), Key.AcceptLine);
        return None;
      }
      TakeLine(State());
      var lines := current.value.lines;
      LineParts(lines);
      var line, rest := if lines == [] then "" else lines[0], Below(lines);
      var inserted := if |rest| > 0 then line + "\n" else line;
      ApplyPartial(inserted, Join(rest));
      return Some(inserted);
    }

    method AcceptWordOf() returns (accepted: Option<string>)
      requires |recentEdits| <= MAX_RECENT_EDITS
      modifies this
      ensures (State(), accepted) == Take(old(State()), Key.AcceptWord)
    {
      if current.None? {
        return None;
      }
      hide Preview, Split, Join, JsTrim, FirstWord;
      var word := FirstWord(current.value.text);
      if word.None? {
        accepted := Accept();
        return;
      }
      ApplyPartial(word.value, current.value.text[|word.value|..]);
      return word;
    }

    method ApplyPartial(inserted: string, remaining: string)
      requires current.Some? && |recentEdits| <= MAX_RECENT_EDITS
      modifies this
      ensures State() == Partial(old(State()), inserted, remaining)
    {
      hide Preview, Split, JsTrim;
      RecordEdit(lastPath, "accepted partial completion: " + Preview(inserted));
      if JsTrim(remaining) == "" {
        current, phase := None, Idle;
        return;
      }
      current := Some(Suggestion(remaining, Split(remaining), current.value.model, false));
      phase := Showing;
    }

    method Reject()
      requires |recentEdits| <= MAX_RECENT_EDITS
      modifies this
      ensures State() == Dismissed(old(State()))
    {
      updateSeq := updateSeq + 1;
      if phase == Idle && current.None? {
        return;
      }
      hide Preview, Split;
      if current.Some? {
        RecordEdit(lastPath, "rejected completion: " + Preview(current.value.text));
      }
      waiting := Cancelled(waiting);
      current, phase := None, Idle;
    }

    /** Hides what is shown and cancels what is open; an update that was answered before still goes on. */
    method Dispose()
      modifies this
      ensures State() == Disposed(old(State()))
    {
      waiting := Cancelled(waiting);
      current, phase := None, Idle;
    }

    method HandleKey(key: Key) returns (result: KeyResult)
      requires Inv(State())
      modifies this
      ensures State() == Pressed(old(State()), key)
      ensures result == if old(current.Some?) then (if key.Escape? then KeyResult.Rejected else Accepted)
                        else if key.Escape? && old(phase) == Pending then KeyResult.Rejected else Ignored
    {
      hide Take, Dismissed;
      if current.None? {
        TakeNothing(State(), key);
      } else if !key.Escape? {
        TakeSomething(State(), key);
      }
      var accepted: Option<string>;
      match key {
        case Tab => accepted := Accept();
        case AcceptLine => accepted := AcceptLineOf();
        case AcceptWord => accepted := AcceptWordOf();
        case Escape =>
          if phase == Idle && current.None? {
            return Ignored;
          }
          Reject();
          return KeyResult.Rejected;
      }
      return if accepted.Some? then Accepted else Ignored;
    }
  }

  // ----- every reachable session

  ghost predicate Inv(s: Session) {
    && (s.current.Some? <==> s.phase == Showing)
    && (s.current.Some? ==> s.current.value.lines == Split(s.current.value.text))
    && (forall n :: n in s.waiting ==> n <= s.updateSeq)
    && (s.phase == Pending ==> s.updateSeq in s.waiting)
    && (s.phase == Showing ==> s.updateSeq !in s.waiting)
    && (forall n :: n in s.waiting && s.waiting[n].Open? ==> s.phase == Pending && n == s.updateSeq)
    && |s.recentEdits| <= MAX_RECENT_EDITS
  }

  lemma TakeNothing(s: Session, key: Key)
    requires s.current.None?
    ensures Take(s, key) == (s, None)
  {
  }

  lemma TakeSomething(s: Session, key: Key)
    requires s.current.Some? && !key.Escape?
    ensures Take(s, key).1.Some?
  {
    hide Partial, FirstWord, Join;
  }

  datatype Event =
    | Update(path: string)
    | EngineSettles(n: nat, answer: Option<Completion>)
    | Answer(n: nat)
    | Press(key: Key)
    | Reject
    | Dispose
    | Record(edit: Edit)

  // The engine settles a promise once, and an update goes on once, after its promise is settled.
  function Step(s: Session, e: Event): Session {
    match e
    case Update(path) => Started(s, path)
    case EngineSettles(n, answer) =>
      if n in s.waiting && s.waiting[n].Open? then s.(waiting := s.waiting[n := Given(answer)]) else s
    case Answer(n) => if n in s.waiting && s.waiting[n].Given? then Answered(s, n, s.waiting[n].answer) else s
    case Press(key) => Pressed(s, key)
    case Reject => Dismissed(s)
    case Dispose => Disposed(s)
    case Record(edit) => s.(recentEdits := LastTen(s.recentEdits + [edit]))
  }

  function Run(es: seq<Event>): Session {
    if es == [] then FRESH else Step(Run(es[..|es| - 1]), es[|es| - 1])
  }

  // What a key does to everything but the list of edits.
  predicate Accepts(s: Session, s': Session) {
    && s'.updateSeq == s.updateSeq && s'.waiting == s.waiting && s'.path == s.path
    && |s'.recentEdits| <= MAX_RECENT_EDITS
    && if s'.current.None? then s'.phase == Idle
       else s'.phase == Showing && s'.current.value.lines == Split(s'.current.value.text)
  }

  lemma PartialAccepts(s: Session, inserted: string, remaining: string)
    requires s.current.Some?
    ensures Accepts(s, Partial(s, inserted, remaining))
  {
    hide Preview, Split, JsTrim;
  }

  lemma TakeAccepts(s: Session, key: Key)
    requires s.current.Some? && !key.Escape?
    ensures Accepts(s, Take(s, key).0)
  {
    hide Preview, Split, FirstWord, Join, Accepts, Partial;
    var text, lines := s.current.value.text, s.current.value.lines;
    PartialAccepts(s, LineOf(lines), Join(Below(lines)));
    if FirstWord(text).Some? {
      PartialAccepts(s, FirstWord(text).value, text[|FirstWord(text).value|..]);
    }
    WholeAccepts(s);
  }

  lemma WholeAccepts(s: Session)
    requires s.current.Some?
    ensures Accepts(s, TakeWhole(s).0)
  {
    hide Preview, Split;
  }

  lemma PressKeeps(s: Session, key: Key)
    requires Inv(s)
    ensures Inv(Pressed(s, key))
  {
    if key.Escape? {
      hide Preview, Split;
    } else if s.current.None? {
      TakeNothing(s, key);
    } else {
      TakeAccepts(s, key);
      hide Take, Split;
    }
  }

  lemma StepKeeps(s: Session, e: Event)
    requires Inv(s)
    ensures Inv(Step(s, e))
  {
    hide Pressed, Split, Preview;
    if e.Press? {
      PressKeeps(s, e.key);
    }
  }

  /**
   In every reachable session something is shown exactly in the showing phase, its lines are its
   text split on newlines, a pending session waits for its newest update, and at most ten edits are kept.
   */
  lemma {:induction false} RunKeeps(es: seq<Event>)
    ensures Inv(Run(es))
  {
    if es != [] {
      RunKeeps(es[..|es| - 1]);
      StepKeeps(Run(es[..|es| - 1]), es[|es| - 1]);
      hide Step, Inv;
    }
  }

  // ----- conservation

  // The text not inserted yet.
  function Left(s: Session): string {
    if s.current.Some? then s.current.value.text else ""
  }

  lemma LinesAre(text: string)
    ensures LineOf(Split(text)) + Join(Below(Split(text))) == text
    ensures text != "" ==> LineOf(Split(text)) != ""
  {
    JoinSplit(text);
    var lines := Split(text);
    hide Split;
    if |lines| == 1 {
      assert lines[1..] == [];
      assert LineOf(lines) + "" == lines[0];
    } else {
      JoinCons(lines[0], lines[1..]);
      assert lines == [lines[0]] + lines[1..];
    }
  }

  // What part of the text an accept leaves: the exact rest, exactly unless that is blank and dropped.
  predicate Leaves(text: string, inserted: string, s': Session) {
    && inserted <= text
    && (s'.current.Some? <==> !AllSpace(text[|inserted|..], IsJsSpace))
    && (s'.current.Some? ==> inserted != "" && Left(s') == text[|inserted|..])
  }

  lemma PartialLeaves(s: Session, inserted: string, remaining: string)
    requires s.current.Some? && inserted != ""
    ensures Leaves(inserted + remaining, inserted, Partial(s, inserted, remaining))
  {
    hide Preview, Split, JsTrim;
    assert (inserted + remaining)[|inserted|..] == remaining;
    BlankIs(remaining);
  }

  lemma BlankIs(t: string)
    ensures JsTrim(t) == "" <==> AllSpace(t, IsJsSpace)
  {
    hide Trim, AllSpace;
    BlankTrimsToNothing(t, IsJsSpace);
  }

  lemma TakeLeaves(s: Session, key: Key)
    requires Inv(s) && s.current.Some? && !key.Escape?
    ensures Take(s, key).1.Some? && Leaves(Left(s), Take(s, key).1.value, Take(s, key).0)
  {
    hide Take, TakeWhole, Leaves, Partial, Split, Join, FirstWord;
    var text := s.current.value.text;
    match key {
      case Tab =>
        TakeTab(s);
        WholeLeaves(s);
      case AcceptLine =>
        TakeLine(s);
        LinesAre(text);
        LineLeaves(s, LineOf(Split(text)), Join(Below(Split(text))));
      case AcceptWord =>
        TakeWord(s);
        if FirstWord(text).Some? {
          WordLeaves(s);
        } else {
          WholeLeaves(s);
        }
    }
  }

  lemma TakeTab(s: Session)
    requires s.current.Some?
    ensures Take(s, Tab) == TakeWhole(s)
  {
    hide TakeWhole;
  }

  lemma TakeWord(s: Session)
    requires s.current.Some?
    ensures var text := s.current.value.text; var w := FirstWord(text);
      Take(s, Key.AcceptWord) ==
        if w.None? then TakeWhole(s) else (Partial(s, w.value, text[|w.value|..]), w)
  {
    hide TakeWhole, Partial, FirstWord;
  }

  lemma WholeLeaves(s: Session)
    requires s.current.Some?
    ensures TakeWhole(s).1.Some? && Leaves(Left(s), TakeWhole(s).1.value, TakeWhole(s).0)
  {
    hide Preview;
  }

  lemma LineLeaves(s: Session, line: string, rest: string)
    requires s.current.Some? && line + rest == s.current.value.text && (s.current.value.text != "" ==> line != "")
    ensures Leaves(Left(s), line, Partial(s, line, rest))
  {
    if s.current.value.text == "" {
      BlankIs(rest);
      hide JsTrim, Preview, Split;
    } else {
      PartialLeaves(s, line, rest);
      hide Partial, Leaves;
    }
  }

  lemma WordLeaves(s: Session)
    requires s.current.Some? && FirstWord(s.current.value.text).Some?
    ensures |FirstWord(s.current.value.text).value| <= |s.current.value.text|
    ensures var text, w := s.current.value.text, FirstWord(s.current.value.text).value;
      Leaves(Left(s), w, Partial(s, w, text[|w|..]))
  {
    var text, w := s.current.value.text, FirstWord(s.current.value.text).value;
    assert w + text[|w|..] == text;
    PartialLeaves(s, w, text[|w|..]);
    hide Partial, Leaves, FirstWord;
  }

  // A first line is what stands before the first newline.
  ghost predicate IsFirstLine(line: string, text: string) {
    line <= text && '\n' !in line && (|line| < |text| ==> text[|line|] == '\n')
  }

  /** Accepting a line inserts the first line, with its newline when there is one. */
  lemma LineIsFirst(s: Session)
    requires Inv(s) && s.current.Some?
    ensures exists line :: IsFirstLine(line, Left(s)) && Take(s, Key.AcceptLine).1 == Some(if line == Left(s) then line else line + "\n")
  {
    var text := s.current.value.text;
    TakeLine(s);
    var line := text[..NewlineAt(text)];
    assert IsFirstLine(line, text);
    if NewlineAt(text) == |text| {
      assert line == text;
    }
    hide Partial, Join, Below;
  }

  // The edits after one more: the newest ten, with this one last.
  ghost predicate IsNewest(after: seq<Edit>, edits: seq<Edit>, e: Edit) {
    && |after| == (if |edits| < 10 then |edits| + 1 else 10)
    && after[|after| - 1] == e
    && after[..|after| - 1] == edits[|edits| + 1 - |after|..]
  }

  // A text is recorded by its first line, of which more than eighty characters are cut to seventy-seven and dots.
  ghost predicate IsPreview(p: string, text: string) {
    exists line :: IsFirstLine(line, text) && p == if |line| > 80 then line[..77] + "..." else line
  }

  lemma PreviewIs(text: string)
    ensures IsPreview(Preview(text), text)
  {
    var n := NewlineAt(text);
    assert IsFirstLine(text[..n], text) && text[..|text|] == text;
    assert Split(text)[0] == text[..n];
  }

  lemma NewestIs(edits: seq<Edit>, e: Edit)
    requires |edits| <= 10
    ensures IsNewest(LastTen(edits + [e]), edits, e)
  {
  }

  // The kind of edit that is recorded, and the text it speaks of.
  ghost predicate Records(s: Session, s': Session, kind: string, text: string) {
    exists p :: IsPreview(p, text) && IsNewest(s'.recentEdits, s.recentEdits, Edit(s.path, kind + p))
  }

  lemma WithEditRecords(s: Session, kind: string, text: string)
    requires |s.recentEdits| <= 10
    ensures Records(s, WithEdit(s, kind + Preview(text)), kind, text)
  {
    PreviewIs(text);
    NewestIs(s.recentEdits, Edit(s.path, kind + Preview(text)));
    hide IsPreview, IsNewest, LastTen, Preview;
  }

  lemma PartialRecords(s: Session, inserted: string, remaining: string)
    requires s.current.Some? && |s.recentEdits| <= 10
    ensures Records(s, Partial(s, inserted, remaining), "accepted partial completion: ", inserted)
    ensures var s' := Partial(s, inserted, remaining);
      s'.current.Some? ==> s'.current.value.model == s.current.value.model && !s'.current.value.fromCache
  {
    WithEditRecords(s, "accepted partial completion: ", inserted);
    hide IsPreview, IsNewest, LastTen, Preview, Split, JsTrim;
  }

  /**
   Every accept is recorded under the path of the session by what it inserts, as a partial one unless
   the whole was asked for or no word was left; what is still shown is from the same model.
   */
  lemma AcceptIsRecorded(s: Session, key: Key)
    requires Inv(s) && s.current.Some? && !key.Escape?
    ensures var (s', inserted) := Take(s, key);
      var whole := key.Tab? || (key.AcceptWord? && AllSpace(Left(s), IsJsSpace));
      && inserted.Some?
      && Records(s, s', if whole then "accepted completion: " else "accepted partial completion: ", inserted.value)
      && (whole ==> inserted == Some(Left(s)))
      && (s'.current.Some? ==> s'.current.value.model == s.current.value.model && !s'.current.value.fromCache)
  {
    hide Take, TakeWhole, Partial, Records, Split, Join, FirstWord, LineOf, Below, Preview;
    var text := s.current.value.text;
    WholeRecords(s);
    match key {
      case Tab => TakeTab(s);
      case AcceptLine =>
        TakeLine(s);
        PartialRecords(s, LineOf(Split(text)), Join(Below(Split(text))));
      case AcceptWord =>
        TakeWord(s);
        if FirstWord(text).Some? {
          PartialRecords(s, FirstWord(text).value, text[|FirstWord(text).value|..]);
        }
    }
  }

  lemma WholeRecords(s: Session)
    requires s.current.Some? && |s.recentEdits| <= 10
    ensures TakeWhole(s).1 == Some(Left(s)) && TakeWhole(s).0.current.None?
    ensures Records(s, TakeWhole(s).0, "accepted completion: ", Left(s))
  {
    WithEditRecords(s, "accepted completion: ", s.current.value.text);
    hide IsPreview, IsNewest, LastTen, Preview;
  }

  /** A reject of what is shown is recorded too; a reject of nothing records nothing. */
  lemma RejectIsRecorded(s: Session)
    requires Inv(s)
    ensures s.current.Some? ==> Records(s, Dismissed(s), "rejected completion: ", Left(s))
    ensures s.current.None? ==> Dismissed(s).recentEdits == s.recentEdits
  {
    if s.current.Some? {
      WithEditRecords(s, "rejected completion: ", s.current.value.text);
    }
    hide IsPreview, IsNewest, LastTen, Preview, Cancelled;
  }

  // A run of accepts: the session after it, and everything inserted.
  function TakeAll(s: Session, keys: seq<Key>): (Session, string) {
    if keys == [] then (s, "") else
      var (s', inserted) := TakeAll(s, keys[..|keys| - 1]);
      var (s'', more) := Take(s', keys[|keys| - 1]);
      (s'', inserted + more.GetOr(""))
  }

  predicate Conserves(text: string, inserted: string, s': Session, count: nat) {
    && inserted <= text
    && if s'.current.Some? then inserted + Left(s') == text && |Left(s')| + count <= |text|
       else AllSpace(text[|inserted|..], IsJsSpace)
  }

  lemma LeavesConserves(text: string, inserted: string, s': Session, more: string, s'': Session, count: nat)
    requires Conserves(text, inserted, s', count) && s'.current.Some? && Leaves(Left(s'), more, s'')
    ensures Conserves(text, inserted + more, s'', count + 1)
  {
    var left := Left(s');
    assert text[|inserted|..] == left;
    assert text[|inserted + more|..] == left[|more|..];
    assert inserted + more <= text by {
      assert left == more + left[|more|..];
    }
    if s''.current.Some? {
      assert inserted + more + left[|more|..] == text by {
        assert left == more + left[|more|..];
      }
    }
  }

  lemma IdleConserves(text: string, inserted: string, s': Session, count: nat)
    requires Conserves(text, inserted, s', count) && s'.current.None?
    ensures Conserves(text, inserted + "", s', count + 1)
  {
    assert inserted + "" == inserted;
  }

  /**
   Whatever mix of accepts is used, the inserted text is the suggestion from its start on: together
   with what is still shown it is the whole of it, every accept shortens what is shown, and once
   nothing is shown only white space was left out.
   */
  lemma {:induction false} AcceptsConserve(s: Session, keys: seq<Key>)
    requires Inv(s) && s.current.Some? && Escape !in keys
    ensures Inv(TakeAll(s, keys).0)
    ensures Conserves(Left(s), TakeAll(s, keys).1, TakeAll(s, keys).0, |keys|)
  {
    if keys == [] {
      assert Left(s) == "" + Left(s);
    } else {
      var n := |keys| - 1;
      AcceptsConserve(s, keys[..n]);
      var (s', inserted) := TakeAll(s, keys[..n]);
      PressKeeps(s', keys[n]);
      if s'.current.Some? {
        TakeLeaves(s', keys[n]);
        LeavesConserves(Left(s), inserted, s', Take(s', keys[n]).1.value, Take(s', keys[n]).0, n);
      } else {
        TakeNothing(s', keys[n]);
        IdleConserves(Left(s), inserted, s', n);
      }
      hide Inv, Take, Conserves, Leaves, Left;
    }
  }

  // ----- supersession

  predicate IsSuffix(t: string, whole: string) {
    |t| <= |whole| && whole[|whole| - |t|..] == t
  }

  // At event i the engine settled the newest update with a completion that ends in what is shown.
  predicate AnswersShown(es: seq<Event>, i: nat, s: Session)
    requires i < |es|
  {
    && Settles(Run(es[..i]), es[i]) && es[i].answer.Some?
    && es[i].n == s.updateSeq
    && IsSuffix(Left(s), es[i].answer.value.text)
  }

  // The event settles an open promise.
  predicate Settles(s: Session, e: Event) {
    e.EngineSettles? && e.n in s.waiting && s.waiting[e.n].Open?
  }

  lemma SuffixOfSuffix(t: string, k: nat, whole: string)
    requires IsSuffix(t, whole) && k <= |t|
    ensures IsSuffix(t[k..], whole)
  {
    assert whole[|whole| - |t| + k..] == whole[|whole| - |t|..][k..];
  }

  // The event lets an update go on that was given a completion, and that is the newest.
  predicate ShowsAnswer(s: Session, e: Event) {
    && e.Answer? && e.n in s.waiting && s.waiting[e.n].Given? && s.waiting[e.n].answer.Some?
    && e.n == s.updateSeq
  }

  // A step that leaves something shown either shows such an answer, or keeps a tail of what was shown.
  lemma StillShown(s: Session, e: Event)
    requires Inv(s) && Step(s, e).current.Some?
    ensures Step(s, e).updateSeq == s.updateSeq
    ensures
      || (ShowsAnswer(s, e) && Left(Step(s, e)) == s.waiting[e.n].answer.value.text)
      || (s.current.Some? && exists k: nat :: k <= |Left(s)| && Left(Step(s, e)) == Left(s)[k..])
  {
    if e.Press? {
      PressShown(s, e.key);
      TakeLeaves(s, e.key);
      TakeAccepts(s, e.key);
      hide Take, Split;
      assert Left(Step(s, e)) == Left(s)[|Take(s, e.key).1.value|..];
    } else {
      hide Split, Preview, Cancelled;
      assert Left(s)[0..] == Left(s);
    }
  }

  // A key shows nothing that was not shown before.
  lemma PressShown(s: Session, key: Key)
    requires Inv(s) && Pressed(s, key).current.Some?
    ensures s.current.Some? && !key.Escape?
  {
    hide Preview, Split;
    if s.current.None? {
      TakeNothing(s, key);
    }
  }

  // Event i settled the promise of update n with this completion.
  predicate GaveAnswer(es: seq<Event>, i: nat, n: nat, answer: Completion)
    requires i < |es|
  {
    Settles(Run(es[..i]), es[i]) && es[i].n == n && es[i].answer == Some(answer)
  }

  // A completion that an update was given, and was not given before the last step, comes from it.
  lemma GivenByStep(s: Session, e: Event, n: nat)
    requires n in Step(s, e).waiting && Step(s, e).waiting[n].Given? && Step(s, e).waiting[n].answer.Some?
    ensures
      || (n in s.waiting && s.waiting[n] == Step(s, e).waiting[n])
      || (Settles(s, e) && e.n == n && e.answer == Step(s, e).waiting[n].answer)
  {
    hide Split, Preview;
    if e.Press? && !e.key.Escape? {
      TakeWaits(s, e.key);
      hide Take;
    }
  }

  lemma TakeWaits(s: Session, key: Key)
    requires !key.Escape?
    ensures Take(s, key).0.waiting == s.waiting && Take(s, key).0.updateSeq == s.updateSeq
  {
    hide Preview, Split, Join, JsTrim, FirstWord;
  }

  lemma {:induction false} GivenCameFrom(es: seq<Event>, n: nat)
    requires n in Run(es).waiting && Run(es).waiting[n].Given? && Run(es).waiting[n].answer.Some?
    ensures exists i: nat :: i < |es| && GaveAnswer(es, i, n, Run(es).waiting[n].answer.value)
  {
    if es != [] {
      var m := |es| - 1;
      var before, e := es[..m], es[m];
      GivenByStep(Run(before), e, n);
      var answer := Run(es).waiting[n].answer.value;
      hide Step;
      if Settles(Run(before), e) && e.n == n && e.answer == Some(answer) {
        hide Run, Settles;
        assert GaveAnswer(es, m, n, answer);
      } else {
        GivenCameFrom(before, n);
        var i: nat :| i < m && GaveAnswer(before, i, n, answer);
        assert before[..i] == es[..i];
        hide Run, Settles;
        assert GaveAnswer(es, i, n, answer);
      }
    }
  }

  /**
   What is shown is always a tail of a completion with which the engine settled the newest update,
   while its promise was open: no update, reject or disposal had come since it began.
   */
  lemma {:induction false} ShownAnswersNewest(es: seq<Event>)
    requires Run(es).current.Some?
    ensures exists i: nat :: i < |es| && AnswersShown(es, i, Run(es))
  {
    if es != [] {
      var n := |es| - 1;
      var before, e := es[..n], es[n];
      var s := Run(before);
      RunKeeps(before);
      StillShown(s, e);
      hide Step, Inv;
      if ShowsAnswer(s, e) && Left(Run(es)) == s.waiting[e.n].answer.value.text {
        GivenCameFrom(before, e.n);
        var i: nat :| i < n && GaveAnswer(before, i, e.n, s.waiting[e.n].answer.value);
        FreshAnswer(es, i);
      } else {
        ShownAnswersNewest(before);
        var i: nat :| i < n && AnswersShown(before, i, s);
        var k: nat :| k <= |Left(s)| && Left(Run(es)) == Left(s)[k..];
        OlderAnswer(es, i, k);
      }
      hide Run, AnswersShown, GaveAnswer;
    }
  }

  lemma FreshAnswer(es: seq<Event>, i: nat)
    requires i < |es| - 1
    requires var s, e := Run(es[..|es| - 1]), es[|es| - 1];
      && ShowsAnswer(s, e) && Run(es).updateSeq == s.updateSeq
      && Left(Run(es)) == s.waiting[e.n].answer.value.text
      && GaveAnswer(es[..|es| - 1], i, e.n, s.waiting[e.n].answer.value)
    ensures AnswersShown(es, i, Run(es))
  {
    hide Run, Left, Settles;
    assert es[..|es| - 1][..i] == es[..i];
  }

  lemma OlderAnswer(es: seq<Event>, i: nat, k: nat)
    requires i < |es| - 1 && AnswersShown(es[..|es| - 1], i, Run(es[..|es| - 1]))
    requires Run(es).updateSeq == Run(es[..|es| - 1]).updateSeq
    requires k <= |Left(Run(es[..|es| - 1]))| && Left(Run(es)) == Left(Run(es[..|es| - 1]))[k..]
    ensures AnswersShown(es, i, Run(es))
  {
    hide Run, Left, IsSuffix;
    SuffixOfSuffix(Left(Run(es[..|es| - 1])), k, es[i].answer.value.text);
    assert es[..|es| - 1][..i] == es[..i];
  }

  // ----- after a disposal or a reject

  // From state d on, in which every promise is settled, without a new update: nothing is open, and
  // only the answer that the newest update was given by then can be shown.
  ghost predicate Winding(d: Session, t: Session) {
    && (forall n :: n in t.waiting ==> n in d.waiting && t.waiting[n] == d.waiting[n] && t.waiting[n].Given?)
    && t.updateSeq >= d.updateSeq
    && (t.current.Some? ==> t.updateSeq == d.updateSeq && WasGiven(d, Left(t)))
  }

  // The newest update was given a completion with this tail.
  predicate WasGiven(s: Session, shown: string) {
    && s.updateSeq in s.waiting && s.waiting[s.updateSeq].Given? && s.waiting[s.updateSeq].answer.Some?
    && IsSuffix(shown, s.waiting[s.updateSeq].answer.value.text)
  }

  lemma StepKeepsWinding(d: Session, t: Session, e: Event)
    requires Inv(d) && Inv(t) && Winding(d, t) && !e.Update?
    ensures Winding(d, Step(t, e))
  {
    StepWaits(t, e);
    if Step(t, e).current.Some? {
      StillShown(t, e);
      hide Step, Left, IsSuffix;
      if ShowsAnswer(t, e) && Left(Step(t, e)) == t.waiting[e.n].answer.value.text {
        WholeIsSuffix(Left(Step(t, e)));
      } else {
        var k: nat :| k <= |Left(t)| && Left(Step(t, e)) == Left(t)[k..];
        TailWasGiven(d, Left(t), k);
      }
    }
    hide Step, Inv, WasGiven;
  }

  lemma TailWasGiven(s: Session, shown: string, k: nat)
    requires WasGiven(s, shown) && k <= |shown|
    ensures WasGiven(s, shown[k..])
  {
    SuffixOfSuffix(shown, k, s.waiting[s.updateSeq].answer.value.text);
    hide IsSuffix;
  }

  lemma WholeIsSuffix(t: string)
    ensures IsSuffix(t, t)
  {
  }

  // Without a new update, what waits was waiting before, and what was given stays.
  lemma StepWaits(s: Session, e: Event)
    requires !e.Update? && forall n :: n in s.waiting ==> s.waiting[n].Given?
    ensures Step(s, e).updateSeq >= s.updateSeq
    ensures forall n :: n in Step(s, e).waiting ==> n in s.waiting && Step(s, e).waiting[n] == s.waiting[n]
  {
    hide Split, Preview;
    if e.Press? && !e.key.Escape? {
      TakeWaits(s, e.key);
      hide Take;
    }
  }

  lemma {:induction false} RunKeepsWinding(es: seq<Event>, more: seq<Event>, d: Session)
    requires forall e :: e in more ==> !e.Update?
    requires Inv(d) && Winding(d, Run(es))
    ensures Winding(d, Run(es + more))
    decreases |more|
  {
    hide Winding, Step, Inv, Run;
    if more == [] {
      assert es + more == es;
    } else {
      var n := |more| - 1;
      RunKeepsWinding(es, more[..n], d);
      RunKeeps(es + more[..n]);
      assert more[n] in more;
      StepKeepsWinding(d, Run(es + more[..n]), more[n]);
      EndsIn(es + more[..n], more[n]);
      assert es + more == es + more[..n] + [more[n]];
    }
  }

  lemma EndsIn(es: seq<Event>, e: Event)
    ensures Run(es + [e]) == Step(Run(es), e)
  {
    assert (es + [e])[..|es|] == es;
    hide Step;
  }

  /** After a disposal, and until the next update, nothing is shown but an answer the engine gave before it. */
  lemma OnlyEarlierAnswersAfterDispose(es: seq<Event>, more: seq<Event>)
    requires forall e :: e in more ==> !e.Update?
    requires Run(es + [Dispose] + more).current.Some?
    ensures WasGiven(Run(es), Left(Run(es + [Dispose] + more)))
  {
    EndsIn(es, Dispose);
    RunKeeps(es);
    StepKeeps(Run(es), Dispose);
    RunKeepsWinding(es + [Dispose], more, Run(es + [Dispose]));
    hide Left, IsSuffix, Run;
  }

  /** After a reject, and until the next update, nothing is shown at all. */
  lemma NothingAfterReject(es: seq<Event>, more: seq<Event>)
    requires forall e :: e in more ==> !e.Update?
    ensures Run(es + [Reject] + more).current.None?
  {
    EndsIn(es, Reject);
    RunKeeps(es);
    StepKeeps(Run(es), Reject);
    var d := Run(es + [Reject]);
    AllGiven(Run(es));
    RunKeepsWinding(es + [Reject], more, d);
    hide Left, IsSuffix, Run, Preview, Split;
  }

  lemma AllGiven(s: Session)
    requires Inv(s)
    ensures var d := Dismissed(s);
      d.current.None? && d.updateSeq !in d.waiting && forall n :: n in d.waiting ==> d.waiting[n].Given?
  {
    hide Preview, Split;
  }

  /** An answer given just before a disposal is shown after it. */
  lemma DisposedMayShow(answer: Completion)
    ensures Run([Update("f"), EngineSettles(1, Some(answer)), Dispose] + [Answer(1)]).current.Some?
  {
    var e0, e1, e2 := Update("f"), EngineSettles(1, Some(answer)), Dispose;
    EndsIn([], e0);
    EndsIn([e0], e1);
    EndsIn([e0, e1], e2);
    EndsIn([e0, e1, e2], Answer(1));
    assert [] + [e0] == [e0] && [e0] + [e1] == [e0, e1] && [e0, e1] + [e2] == [e0, e1, e2];
    assert Run([]) == FRESH;
    hide Run;
    GivenThenDisposed("f", answer);
    GivenIsShown(Run([e0, e1, e2]), 1, answer);
    hide Step;
  }

  lemma GivenThenDisposed(path: string, answer: Completion)
    ensures var s := Step(Step(Step(FRESH, Update(path)), EngineSettles(1, Some(answer))), Dispose);
      s.updateSeq == 1 && 1 in s.waiting && s.waiting[1] == Given(Some(answer))
  {
    assert Step(FRESH, Update(path)).waiting == map[1 := Open];
  }

  lemma GivenIsShown(s: Session, n: nat, answer: Completion)
    requires s.updateSeq == n && n in s.waiting && s.waiting[n] == Given(Some(answer))
    ensures Step(s, Answer(n)).current.Some?
    ensures var shown := Step(s, Answer(n)).current.value;
      Join(shown.lines) == shown.text == answer.text && shown.model == answer.model && shown.fromCache == answer.fromCache
  {
    JoinSplit(answer.text);
    hide Split, Join;
  }

  // The session shows the whole answer, or nothing when that is null.
  ghost predicate Shows(s: Session, path: string, answer: Option<Completion>) {
    && s.path == path && (s.current.Some? <==> answer.Some?)
    && (answer.Some? ==> Join(s.current.value.lines) == Left(s) == answer.value.text && s.current.value.model == answer.value.model)
    && (answer.None? ==> s.phase == Idle)
  }

  /** An update that nothing supersedes shows what the engine answers. */
  lemma UpdateIsAnswered(es: seq<Event>, path: string, answer: Option<Completion>)
    ensures var n := Run(es).updateSeq + 1;
      Shows(Run(es + [Update(path)] + [EngineSettles(n, answer)] + [Answer(n)]), path, answer)
  {
    hide Run, Step, Shows;
    var n := Run(es).updateSeq + 1;
    EndsIn(es, Update(path));
    EndsIn(es + [Update(path)], EngineSettles(n, answer));
    EndsIn(es + [Update(path)] + [EngineSettles(n, answer)], Answer(n));
    AnsweredThen(Run(es), path, answer);
  }

  lemma AnsweredThen(s: Session, path: string, answer: Option<Completion>)
    ensures var n := s.updateSeq + 1;
      Shows(Step(Step(Step(s, Update(path)), EngineSettles(n, answer)), Answer(n)), path, answer)
  {
    var n := s.updateSeq + 1;
    var u := Step(Step(s, Update(path)), EngineSettles(n, answer));
    hide Cancelled, Split, Join;
    assert u.waiting[n] == Given(answer) && u.updateSeq == n;
    if answer.Some? {
      GivenIsShown(u, n, answer.value);
    }
  }
}
