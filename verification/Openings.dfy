/** With what the adapter of src/ai-sdk-provider.ts opens text and tool inputs: the receipt of the last route, and the first name. */
module Openings {
  import opened Wrappers
  import opened ProviderTypes
  import opened ModelStream

  // The receipt of the last response metadata.
  function LastMetadata(parts: seq<Part>): Option<string> {
    if parts == [] then None
    else if parts[|parts| - 1].ResponseMetadata? then Some(parts[|parts| - 1].id)
    else LastMetadata(parts[..|parts| - 1])
  }

  // Text is opened with the receipt of the metadata that came last before it.
  ghost predicate OpensUnderReceipt(parts: seq<Part>) {
    forall i :: 0 <= i < |parts| && parts[i].TextStart? ==> parts[i].receiptId == LastMetadata(parts[..i])
  }

  // The tool inputs that are opened, with their names.
  function Opened(parts: seq<Part>): seq<(string, string)> {
    if parts == [] then [] else
      var p := parts[|parts| - 1];
      Opened(parts[..|parts| - 1]) + if p.ToolInputStart? then [(p.toolId, p.toolName)] else []
  }

  predicate Named(names: seq<(string, string)>, id: string) {
    exists i :: 0 <= i < |names| && names[i].0 == id
  }

  // The tool call ids of the chunks, in order of first appearance, each with the name it first came with.
  function FirstNames(chunks: seq<ProviderChunk>): seq<(string, string)> {
    if chunks == [] then [] else
      var before, c := FirstNames(chunks[..|chunks| - 1]), chunks[|chunks| - 1];
      if c.ToolDelta? && !Named(before, c.toolCallId)
      then before + [(c.toolCallId, if c.fn.Some? then c.fn.value.name.GetOr("unknown") else "unknown")]
      else before
  }

  lemma AddPart(parts: seq<Part>, p: Part)
    requires OpensUnderReceipt(parts) && (p.TextStart? ==> p.receiptId == LastMetadata(parts))
    ensures OpensUnderReceipt(parts + [p])
    ensures LastMetadata(parts + [p]) == if p.ResponseMetadata? then Some(p.id) else LastMetadata(parts)
    ensures Opened(parts + [p]) == Opened(parts) + if p.ToolInputStart? then [(p.toolId, p.toolName)] else []
  {
    var all := parts + [p];
    assert all[..|parts|] == parts;
    forall i | 0 <= i < |all| && all[i].TextStart?
      ensures all[i].receiptId == LastMetadata(all[..i])
    {
      if i < |parts| {
        assert all[..i] == parts[..i];
      }
    }
  }

  // What was opened up to chunk n, and what the parts so far say of it.
  ghost predicate OpenedUpTo(parts: seq<Part>, cs: seq<ProviderChunk>, n: nat)
    requires n <= |cs|
  {
    && OpensUnderReceipt(parts) && LastMetadata(parts) == LastReceipt(cs, n)
    && Opened(parts) == FirstNames(cs[..n])
    && forall id :: id in ToolIds(cs, n) <==> Named(FirstNames(cs[..n]), id)
  }

  lemma NextFirstNames(cs: seq<ProviderChunk>, i: nat)
    requires i < |cs|
    ensures FirstNames(cs[..i + 1]) ==
      var before, c := FirstNames(cs[..i]), cs[i];
      if c.ToolDelta? && !Named(before, c.toolCallId) then before + [(c.toolCallId, GivenName(c).GetOr("unknown"))] else before
  {
    assert cs[..i + 1][..i] == cs[..i];
  }

  lemma FirstName(cs: seq<ProviderChunk>, i: nat)
    requires i < |cs| && cs[i].ToolDelta? && cs[i].toolCallId !in ToolIds(cs, i)
    ensures ToolNameOf(cs, i + 1, cs[i].toolCallId) == GivenName(cs[i]).GetOr("unknown")
  {
    NeverSeen(cs, i, cs[i].toolCallId);
  }

  lemma NextIdsIn(cs: seq<ProviderChunk>, i: nat)
    requires i < |cs|
    ensures forall id :: id in ToolIds(cs, i + 1) <==> id in ToolIds(cs, i) || (cs[i].ToolDelta? && id == cs[i].toolCallId)
  {
  }

  lemma NextReceipt(cs: seq<ProviderChunk>, i: nat)
    requires i < |cs|
    ensures LastReceipt(cs, i + 1) == if cs[i].Route? then Some(cs[i].receiptId) else LastReceipt(cs, i)
  {
  }

  lemma NextNamed(names: seq<(string, string)>, id: string, name: string)
    ensures forall x :: Named(names + [(id, name)], x) <==> x == id || Named(names, x)
  {
    var all := names + [(id, name)];
    forall x
      ensures Named(all, x) <==> x == id || Named(names, x)
    {
      assert all[|names|].0 == id;
      if i :| 0 <= i < |names| && names[i].0 == x {
        assert all[i].0 == x;
      }
    }
  }

  lemma NextOpened(parts: seq<Part>, cs: seq<ProviderChunk>, i: nat)
    requires i < |cs| && OpenedUpTo(parts, cs, i)
    ensures OpenedUpTo(parts + PartsOf(cs, i), cs, i + 1)
  {
    hide HasText, HasReasoning, ToolIds, ToolNameOf, LastReceipt, GivenName, Arguments, FirstNames, Opened, LastMetadata,
      OpensUnderReceipt, Named;
    NextFirstNames(cs, i);
    NextIdsIn(cs, i);
    NextReceipt(cs, i);
    var more := PartsOf(cs, i);
    if cs[i].ToolDelta? && cs[i].toolCallId !in ToolIds(cs, i) {
      FirstName(cs, i);
      NextNamed(FirstNames(cs[..i]), cs[i].toolCallId, GivenName(cs[i]).GetOr("unknown"));
    }
    if |more| == 0 {
      assert parts + more == parts;
    } else {
      AddPart(parts, more[0]);
      if |more| == 1 {
        assert parts + more == parts + [more[0]];
      } else {
        AddPart(parts + [more[0]], more[1]);
        assert parts + more == parts + [more[0]] + [more[1]];
      }
    }
  }

  lemma {:induction false} BodyOpened(cs: seq<ProviderChunk>, n: nat)
    requires n <= |cs|
    ensures OpenedUpTo([StreamStart] + BodyParts(cs, n), cs, n)
  {
    hide OpenedUpTo, PartsOf, BodyParts;
    if n > 0 {
      BodyOpened(cs, n - 1);
      NextOpened([StreamStart] + BodyParts(cs, n - 1), cs, n - 1);
      BodyNext(cs, n - 1);
      assert [StreamStart] + BodyParts(cs, n) == [StreamStart] + BodyParts(cs, n - 1) + PartsOf(cs, n - 1);
    } else {
      NothingOpened(cs);
    }
  }

  lemma NothingOpened(cs: seq<ProviderChunk>)
    ensures OpenedUpTo([StreamStart] + BodyParts(cs, 0), cs, 0)
  {
    AddPart([], StreamStart);
    assert [] + [StreamStart] == [StreamStart] == [StreamStart] + BodyParts(cs, 0);
  }

  // Parts that open nothing.
  lemma {:induction false} AddClosing(parts: seq<Part>, more: seq<Part>)
    requires OpensUnderReceipt(parts) && forall p :: p in more ==> !p.TextStart? && !p.ToolInputStart?
    ensures OpensUnderReceipt(parts + more) && Opened(parts + more) == Opened(parts)
    decreases |more|
  {
    hide OpensUnderReceipt, Opened, LastMetadata;
    if more == [] {
      assert parts + more == parts;
    } else {
      var n := |more| - 1;
      AddClosing(parts, more[..n]);
      AddPart(parts + more[..n], more[n]);
      assert parts + more == parts + more[..n] + [more[n]];
    }
  }

  lemma {:induction false} CallsOpenNothing(cs: seq<ProviderChunk>, n: nat, k: nat)
    requires n <= |cs| && k <= |ToolIds(cs, n)|
    ensures forall p :: p in CallParts(cs, n, k) ==> p.ToolInputEnd? || p.ToolCall?
    decreases k
  {
    hide ToolIds, ToolNameOf, ToolInputOf;
    if k > 0 {
      CallsOpenNothing(cs, n, k - 1);
    }
  }

  lemma ClosingOpensNothing(cs: seq<ProviderChunk>, ending: Ending)
    ensures forall p :: p in ClosingParts(cs, StopAt(cs), ending) ==> !p.TextStart? && !p.ToolInputStart?
  {
    hide StopAt, CallParts, EndParts, ToolIds;
    var n := StopAt(cs);
    CallsOpenNothing(cs, n, |ToolIds(cs, n)|);
    EndsOpenNothing(cs, n);
  }

  lemma EndsOpenNothing(cs: seq<ProviderChunk>, n: nat)
    requires n <= |cs|
    ensures forall p :: p in EndParts(cs, n) ==> p.ReasoningEnd? || p.TextEnd?
  {
    hide HasText, HasReasoning;
  }

  /**
   Text is opened under the receipt of the route announced last, and each tool input under the
   first name given for its id, or as unknown, in the order in which the ids first appeared.
   */
  lemma StreamOpens(cs: seq<ProviderChunk>, ending: Ending)
    ensures OpensUnderReceipt(StreamParts(cs, ending))
    ensures Opened(StreamParts(cs, ending)) == FirstNames(cs[..StopAt(cs)])
  {
    var n := StopAt(cs);
    BodyOpened(cs, n);
    ClosingOpensNothing(cs, ending);
    assert OpenedUpTo([StreamStart] + BodyParts(cs, n), cs, n);
    hide StopAt, BodyParts, ClosingParts, Opened, FirstNames, OpensUnderReceipt;
    AddClosing([StreamStart] + BodyParts(cs, n), ClosingParts(cs, n, ending));
  }

  // ----- in which order everything is closed

  // How late a part may come: what carries or opens something, then the ends of reasoning and of
  // text, then the calls, then the end of the stream.
  function Turn(p: Part): nat {
    if p.ReasoningEnd? then 1
    else if p.TextEnd? then 2
    else if p.ToolInputEnd? || p.ToolCall? then 3
    else if p.FinishPart? || p.ErrorPart? then 4
    else 0
  }

  // Turns never go back, and each tool input that ends is called at once.
  ghost predicate InTurn(parts: seq<Part>) {
    && (forall i :: 0 <= i < |parts| - 1 ==> Turn(parts[i]) <= Turn(parts[i + 1]))
    && (forall i :: 0 <= i < |parts| && parts[i].ToolInputEnd? ==>
          i + 1 < |parts| && parts[i + 1].ToolCall? && parts[i + 1].toolId == parts[i].toolId)
  }

  lemma InTurnConcat(x: seq<Part>, y: seq<Part>)
    requires InTurn(x) && InTurn(y) && (x != [] && y != [] ==> Turn(x[|x| - 1]) <= Turn(y[0]))
    ensures InTurn(x + y)
  {
    hide Turn;
    var all := x + y;
    forall i | 0 <= i < |all| - 1
      ensures Turn(all[i]) <= Turn(all[i + 1])
    {
      if i < |x| - 1 {
        assert all[i] == x[i] && all[i + 1] == x[i + 1];
      } else if i >= |x| {
        assert all[i] == y[i - |x|] && all[i + 1] == y[i - |x| + 1];
      }
    }
    forall i | 0 <= i < |all| && all[i].ToolInputEnd?
      ensures i + 1 < |all| && all[i + 1].ToolCall? && all[i + 1].toolId == all[i].toolId
    {
      if i < |x| {
        assert x[i].ToolInputEnd? && all[i + 1] == x[i + 1];
      } else {
        assert y[i - |x|].ToolInputEnd? && all[i + 1] == y[i - |x| + 1];
      }
    }
  }

  lemma {:induction false} BodyInTurn(cs: seq<ProviderChunk>, n: nat)
    requires n <= |cs|
    ensures forall i :: 0 <= i < |BodyParts(cs, n)| ==> Turn(BodyParts(cs, n)[i]) == 0
  {
    hide PartsOf, Turn, BodyParts;
    if n > 0 {
      BodyInTurn(cs, n - 1);
      BodyNext(cs, n - 1);
      ChunkInTurn(cs, n - 1);
    } else {
      NoBody(cs);
    }
  }

  lemma NoBody(cs: seq<ProviderChunk>)
    ensures BodyParts(cs, 0) == []
  {
  }

  lemma ChunkInTurn(cs: seq<ProviderChunk>, i: nat)
    requires i < |cs|
    ensures forall k :: 0 <= k < |PartsOf(cs, i)| ==> Turn(PartsOf(cs, i)[k]) == 0
  {
    hide HasText, HasReasoning, ToolIds, ToolNameOf, LastReceipt, Arguments;
  }

  lemma {:induction false} CallsInTurn(cs: seq<ProviderChunk>, n: nat, k: nat)
    requires n <= |cs| && k <= |ToolIds(cs, n)|
    ensures InTurn(CallParts(cs, n, k))
    ensures forall i :: 0 <= i < |CallParts(cs, n, k)| ==> Turn(CallParts(cs, n, k)[i]) == 3
    decreases k
  {
    hide ToolIds, ToolNameOf, ToolInputOf;
    if k > 0 {
      CallsInTurn(cs, n, k - 1);
      var id := ToolIds(cs, n)[k - 1];
      var call := [ToolInputEnd(id), ToolCall(id, ToolNameOf(cs, n, id), ToolInputOf(cs, n, id))];
      hide CallParts;
      CallPartsNext(cs, n, k - 1);
      InTurnConcat(CallParts(cs, n, k - 1), call);
    }
  }

  lemma CallPartsNext(cs: seq<ProviderChunk>, n: nat, k: nat)
    requires n <= |cs| && k < |ToolIds(cs, n)|
    ensures var id := ToolIds(cs, n)[k];
      CallParts(cs, n, k + 1) == CallParts(cs, n, k) + [ToolInputEnd(id), ToolCall(id, ToolNameOf(cs, n, id), ToolInputOf(cs, n, id))]
  {
  }

  lemma EndsInTurn(cs: seq<ProviderChunk>, n: nat)
    requires n <= |cs|
    ensures InTurn(EndParts(cs, n)) && forall i :: 0 <= i < |EndParts(cs, n)| ==> 1 <= Turn(EndParts(cs, n)[i]) <= 2
  {
    hide HasText, HasReasoning;
  }

  lemma ClosingInTurn(cs: seq<ProviderChunk>, ending: Ending)
    ensures InTurn(ClosingParts(cs, StopAt(cs), ending))
  {
    var n := StopAt(cs);
    hide StopAt, CallParts, EndParts, Turn, InTurn, ToolIds;
    EndsInTurn(cs, n);
    var calls := CallParts(cs, n, |ToolIds(cs, n)|);
    CallsInTurn(cs, n, |ToolIds(cs, n)|);
    if n < |cs| && cs[n].Finish? {
      InTurnConcat(EndParts(cs, n), calls);
      OnePart(Finished(cs, n));
      if calls != [] {
        assert (EndParts(cs, n) + calls)[|EndParts(cs, n) + calls| - 1] == calls[|calls| - 1];
      } else {
        assert EndParts(cs, n) + calls == EndParts(cs, n);
      }
      InTurnConcat(EndParts(cs, n) + calls, [Finished(cs, n)]);
    } else if n < |cs| {
      OnePart(ErrorPart(cs[n].error));
    } else if ending.Failed? {
      OnePart(ErrorPart(ending.error));
    }
  }

  lemma OnePart(p: Part)
    requires !p.ToolInputEnd?
    ensures InTurn([p])
    ensures p.FinishPart? || p.ErrorPart? ==> Turn(p) == 4
  {
  }

  /** Whatever is open is closed in one order: reasoning, text, then tool inputs, each with its call at once. */
  lemma StreamInTurn(cs: seq<ProviderChunk>, ending: Ending)
    ensures InTurn(StreamParts(cs, ending))
  {
    hide StopAt, BodyParts, ClosingParts, Turn, InTurn;
    var n := StopAt(cs);
    BodyInTurn(cs, n);
    FirstInTurn(BodyParts(cs, n));
    ClosingInTurn(cs, ending);
    InTurnConcat([StreamStart] + BodyParts(cs, n), ClosingParts(cs, n, ending));
  }

  lemma FirstInTurn(parts: seq<Part>)
    requires forall i :: 0 <= i < |parts| ==> Turn(parts[i]) == 0
    ensures InTurn([StreamStart] + parts)
    ensures var all := [StreamStart] + parts; Turn(all[|all| - 1]) == 0
  {
    var all := [StreamStart] + parts;
    assert forall i :: 1 <= i < |all| ==> all[i] == parts[i - 1];
    assert Turn(StreamStart) == 0;
    assert forall i :: 0 <= i < |all| ==> Turn(all[i]) == 0;
  }
}
