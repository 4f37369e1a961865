/**
 The model adapter of src/ai-sdk-provider.ts: provider chunks become the parts of a language
 model stream, which opens and closes text, reasoning and tool inputs.
 */
module ModelStream {
  import opened Wrappers
  import opened ProviderTypes

  datatype UnifiedReason = StopReason | LengthReason | ContentFilterReason | ToolCallsReason | ErrorReason | OtherReason

  datatype UsageTotals = UsageTotals(input: int, output: int, cacheRead: Option<int>, cacheWrite: Option<int>)

  datatype Part =
    | StreamStart
    | ResponseMetadata(id: string, modelId: string)
    | TextStart(receiptId: Option<string>)
    | Text(delta: string)
    | TextEnd
    | ReasoningStart
    | Reasoning(delta: string)
    | ReasoningEnd
    | ToolInputStart(toolId: string, toolName: string)
    | ToolInput(toolId: string, delta: string)
    | ToolInputEnd(toolId: string)
    | ToolCall(toolId: string, toolName: string, input: string)
    | FinishPart(reason: UnifiedReason, raw: string, usage: Option<UsageTotals>, receiptId: Option<string>, retryCount: int,
                 cost: Option<Cost>)
    | ErrorPart(error: StreamError)

  function Unified(reason: string): UnifiedReason {
    if reason == "tool_calls" || reason == "tool-calls" then ToolCallsReason
    else if reason == "content_filter" || reason == "content-filter" then ContentFilterReason
    else if reason == "stop" then StopReason
    else if reason == "length" then LengthReason
    else if reason == "error" then ErrorReason
    else OtherReason
  }

  const UNKNOWN_TOOL := "unknown"

  function Arguments(c: ProviderChunk): string
    requires c.ToolDelta?
  {
    if c.fn.Some? then c.fn.value.arguments.GetOr("") else ""
  }

  function GivenName(c: ProviderChunk): Option<string>
    requires c.ToolDelta?
  {
    if c.fn.Some? then c.fn.value.name else None
  }

  // ----- what the first n chunks amount to

  predicate HasText(cs: seq<ProviderChunk>, n: nat)
    requires n <= |cs|
  {
    exists i :: 0 <= i < n && cs[i].TextDelta?
  }

  predicate HasReasoning(cs: seq<ProviderChunk>, n: nat)
    requires n <= |cs|
  {
    exists i :: 0 <= i < n && cs[i].ReasoningDelta?
  }

  // The tool call ids, in the order of their first appearance.
  function ToolIds(cs: seq<ProviderChunk>, n: nat): (ids: seq<string>)
    requires n <= |cs|
    ensures forall i, j :: 0 <= i < j < |ids| ==> ids[i] != ids[j]
  {
    if n == 0 then [] else
      var ids := ToolIds(cs, n - 1);
      if cs[n - 1].ToolDelta? && cs[n - 1].toolCallId !in ids then ids + [cs[n - 1].toolCallId] else ids
  }

  // Everything one tool call was given as arguments.
  function ToolInputOf(cs: seq<ProviderChunk>, n: nat, id: string): string
    requires n <= |cs|
  {
    if n == 0 then "" else
      ToolInputOf(cs, n - 1, id) +
      if cs[n - 1].ToolDelta? && cs[n - 1].toolCallId == id then Arguments(cs[n - 1]) else ""
  }

  // The last name one tool call was given.
  function ToolNameOf(cs: seq<ProviderChunk>, n: nat, id: string): string
    requires n <= |cs|
  {
    if n == 0 then UNKNOWN_TOOL
    else if cs[n - 1].ToolDelta? && cs[n - 1].toolCallId == id && GivenName(cs[n - 1]).Some? then GivenName(cs[n - 1]).value
    else ToolNameOf(cs, n - 1, id)
  }

  function TextSoFar(cs: seq<ProviderChunk>, n: nat): string
    requires n <= |cs|
  {
    if n == 0 then "" else TextSoFar(cs, n - 1) + if cs[n - 1].TextDelta? then cs[n - 1].delta else ""
  }

  function LastReceipt(cs: seq<ProviderChunk>, n: nat): Option<string>
    requires n <= |cs|
  {
    if n == 0 then None else if cs[n - 1].Route? then Some(cs[n - 1].receiptId) else LastReceipt(cs, n - 1)
  }

  function LastUsage(cs: seq<ProviderChunk>, n: nat): Option<UsageTotals>
    requires n <= |cs|
  {
    if n == 0 then None
    else if cs[n - 1].Usage? then Some(UsageTotals(cs[n - 1].input, cs[n - 1].output, cs[n - 1].cacheRead, cs[n - 1].cacheWrite))
    else LastUsage(cs, n - 1)
  }

  function LastCost(cs: seq<ProviderChunk>, n: nat): Option<Cost>
    requires n <= |cs|
  {
    if n == 0 then None else if cs[n - 1].Usage? && cs[n - 1].cost.Some? then cs[n - 1].cost else LastCost(cs, n - 1)
  }

  // ----- the parts that stand for them

  // The parts for chunk number i.
  function PartsOf(cs: seq<ProviderChunk>, i: nat): seq<Part>
    requires i < |cs|
  {
    match cs[i]
    case Route(receiptId, model, _, _) => [ResponseMetadata(receiptId, model)]
    case TextDelta(delta) => (if HasText(cs, i) then [] else [TextStart(LastReceipt(cs, i))]) + [Text(delta)]
    case ReasoningDelta(delta) => (if HasReasoning(cs, i) then [] else [ReasoningStart]) + [Reasoning(delta)]
    case ToolDelta(id, _, _) =>
      (if id in ToolIds(cs, i) then [] else [ToolInputStart(id, ToolNameOf(cs, i + 1, id))])
      + (if Arguments(cs[i]) == "" then [] else [ToolInput(id, Arguments(cs[i]))])
    case _ => []
  }

  function BodyParts(cs: seq<ProviderChunk>, n: nat): seq<Part>
    requires n <= |cs|
  {
    if n == 0 then [] else BodyParts(cs, n - 1) + PartsOf(cs, n - 1)
  }

  // Ending the open reasoning and the open text.
  function EndParts(cs: seq<ProviderChunk>, n: nat): seq<Part>
    requires n <= |cs|
  {
    (if HasReasoning(cs, n) then [ReasoningEnd] else []) + (if HasText(cs, n) then [TextEnd] else [])
  }

  // Ending the first k tool inputs and issuing their calls.
  function CallParts(cs: seq<ProviderChunk>, n: nat, k: nat): seq<Part>
    requires n <= |cs| && k <= |ToolIds(cs, n)|
  {
    if k == 0 then [] else
      var id := ToolIds(cs, n)[k - 1];
      CallParts(cs, n, k - 1) + [ToolInputEnd(id), ToolCall(id, ToolNameOf(cs, n, id), ToolInputOf(cs, n, id))]
  }

  function Finished(cs: seq<ProviderChunk>, n: nat): (p: Part)
    requires n < |cs| && cs[n].Finish?
    ensures p.FinishPart?
  {
    FinishPart(Unified(cs[n].finishReason), cs[n].finishReason, LastUsage(cs, n),
               if cs[n].receiptId != "" then Some(cs[n].receiptId) else LastReceipt(cs, n),
               cs[n].retryCount.GetOr(0), LastCost(cs, n))
  }

  // Where the stream stops: at the first finish or error chunk, or after the last chunk.
  function StopAt(cs: seq<ProviderChunk>): (n: nat)
    ensures n <= |cs| && (forall i :: 0 <= i < n ==> !IsTerminal(cs[i]))
    ensures n < |cs| ==> IsTerminal(cs[n])
  {
    if cs == [] || IsTerminal(cs[0]) then 0 else StopAt(cs[1..]) + 1
  }

  function ClosingParts(cs: seq<ProviderChunk>, n: nat, ending: Ending): seq<Part>
    requires n <= |cs| && (n < |cs| ==> IsTerminal(cs[n]))
  {
    if n < |cs| then
      match cs[n]
      case Finish(_, _, _) => EndParts(cs, n) + CallParts(cs, n, |ToolIds(cs, n)|) + [Finished(cs, n)]
      case ErrorChunk(error) => [ErrorPart(error)]
    else
      match ending
      case Completed => EndParts(cs, n)
      case Failed(error) => [ErrorPart(error)]
  }

  function StreamParts(cs: seq<ProviderChunk>, ending: Ending): seq<Part> {
    [StreamStart] + BodyParts(cs, StopAt(cs)) + ClosingParts(cs, StopAt(cs), ending)
  }

  // ----- the transducer

  datatype ToolEntry = ToolEntry(id: string, name: string, input: string)

  function EntryOf(cs: seq<ProviderChunk>, n: nat, id: string): ToolEntry
    requires n <= |cs|
  {
    ToolEntry(id, ToolNameOf(cs, n, id), ToolInputOf(cs, n, id))
  }

  // The tool map after n chunks, in insertion order.
  function ToolTable(cs: seq<ProviderChunk>, n: nat): seq<ToolEntry>
    requires n <= |cs|
  {
    var ids := ToolIds(cs, n);
    seq(|ids|, k requires 0 <= k < |ids| => EntryOf(cs, n, ids[k]))
  }

  function FindTool(tools: seq<ToolEntry>, id: string): (k: Option<nat>)
    ensures k.Some? ==> k.value < |tools| && tools[k.value].id == id
    ensures k.None? ==> forall i :: 0 <= i < |tools| ==> tools[i].id != id
  {
    if tools == [] then None else if tools[0].id == id then Some(0) else
      match FindTool(tools[1..], id) case None => None case Some(k) => Some(k + 1)
  }

  // One tool chunk: a new entry at the end, or a longer input and possibly a new name.
  method UpdateTool(tools: seq<ToolEntry>, chunk: ProviderChunk) returns (after: seq<ToolEntry>, parts: seq<Part>)
    requires chunk.ToolDelta?
    ensures var k, args := FindTool(tools, chunk.toolCallId), Arguments(chunk);
      var name := GivenName(chunk).GetOr(if k.Some? then tools[k.value].name else UNKNOWN_TOOL);
      && after == (if k.Some? then tools[k.value := ToolEntry(chunk.toolCallId, name, tools[k.value].input + args)]
                   else tools + [ToolEntry(chunk.toolCallId, name, args)])
      && parts == (if k.Some? then [] else [ToolInputStart(chunk.toolCallId, name)])
                  + (if args == "" then [] else [ToolInput(chunk.toolCallId, args)])
  {
    var prior := FindTool(tools, chunk.toolCallId);
    var name := GivenName(chunk).GetOr(if prior.Some? then tools[prior.value].name else UNKNOWN_TOOL);
    var delta := Arguments(chunk);
    parts := [];
    if prior.None? {
      after := tools + [ToolEntry(chunk.toolCallId, name, delta)];
      parts := parts + [ToolInputStart(chunk.toolCallId, name)];
    } else {
      var entry := tools[prior.value];
      after := tools[prior.value := ToolEntry(entry.id, name, entry.input + delta)];
    }
    if delta != "" {
      parts := parts + [ToolInput(chunk.toolCallId, delta)];
    }
  }

  // A chunk for one tool leaves the entries of the others as they are.
  lemma OtherTool(cs: seq<ProviderChunk>, i: nat, other: string)
    requires i < |cs| && (cs[i].ToolDelta? ==> cs[i].toolCallId != other)
    ensures ToolInputOf(cs, i + 1, other) == ToolInputOf(cs, i, other)
    ensures ToolNameOf(cs, i + 1, other) == ToolNameOf(cs, i, other)
  {
    assert ToolInputOf(cs, i, other) + "" == ToolInputOf(cs, i, other);
  }

  lemma ThisTool(cs: seq<ProviderChunk>, i: nat)
    requires i < |cs| && cs[i].ToolDelta?
    ensures var id := cs[i].toolCallId;
      EntryOf(cs, i + 1, id) ==
      ToolEntry(id, GivenName(cs[i]).GetOr(ToolNameOf(cs, i, id)), ToolInputOf(cs, i, id) + Arguments(cs[i]))
  {
  }

  // The table keeps up with the chunks.
  lemma TableStep(cs: seq<ProviderChunk>, i: nat, tools: seq<ToolEntry>)
    requires i < |cs| && cs[i].ToolDelta? && tools == ToolTable(cs, i)
    ensures var k, id := FindTool(tools, cs[i].toolCallId), cs[i].toolCallId;
      var name := GivenName(cs[i]).GetOr(if k.Some? then tools[k.value].name else UNKNOWN_TOOL);
      && (k.Some? <==> id in ToolIds(cs, i))
      && name == ToolNameOf(cs, i + 1, id)
      && ToolTable(cs, i + 1) ==
         if k.Some? then tools[k.value := ToolEntry(id, name, tools[k.value].input + Arguments(cs[i]))]
         else tools + [ToolEntry(id, name, Arguments(cs[i]))]
  {
    hide ToolNameOf, ToolInputOf, ToolIds, Arguments, GivenName;
    var id := cs[i].toolCallId;
    var ids := ToolIds(cs, i);
    var after := ToolTable(cs, i + 1);
    assert forall k :: 0 <= k < |ids| ==> tools[k].id == ids[k];
    ThisTool(cs, i);
    NextIds(cs, i);
    forall l | 0 <= l < |ids| && ids[l] != id
      ensures after[l] == tools[l]
    {
      OtherTool(cs, i, ids[l]);
    }
    if id !in ids {
      NeverSeen(cs, i, id);
      assert "" + Arguments(cs[i]) == Arguments(cs[i]);
      assert after[|ids|] == EntryOf(cs, i + 1, id);
    } else {
      var k := FindTool(tools, id).value;
      assert after[k] == EntryOf(cs, i + 1, id);
    }
  }

  lemma NextIds(cs: seq<ProviderChunk>, i: nat)
    requires i < |cs| && cs[i].ToolDelta?
    ensures var ids, id := ToolIds(cs, i), cs[i].toolCallId;
      ToolIds(cs, i + 1) == if id in ids then ids else ids + [id]
  {
  }

  lemma {:induction false} NeverSeen(cs: seq<ProviderChunk>, n: nat, id: string)
    requires n <= |cs| && id !in ToolIds(cs, n)
    ensures ToolInputOf(cs, n, id) == "" && ToolNameOf(cs, n, id) == UNKNOWN_TOOL
  {
    if n > 0 {
      NeverSeen(cs, n - 1, id);
    }
  }

  lemma OtherChunk(cs: seq<ProviderChunk>, i: nat)
    requires i < |cs| && !cs[i].ToolDelta?
    ensures ToolTable(cs, i + 1) == ToolTable(cs, i)
  {
    forall id
      ensures EntryOf(cs, i + 1, id) == EntryOf(cs, i, id)
    {
      OtherTool(cs, i, id);
    }
    hide EntryOf;
  }

  // The variables the adapter keeps between chunks.
  datatype Open = Open(receiptId: Option<string>, usage: Option<UsageTotals>, cost: Option<Cost>,
                       textOpen: bool, reasoningOpen: bool, tools: seq<ToolEntry>)

  function OpenAt(cs: seq<ProviderChunk>, n: nat): Open
    requires n <= |cs|
  {
    Open(LastReceipt(cs, n), LastUsage(cs, n), LastCost(cs, n), HasText(cs, n), HasReasoning(cs, n), ToolTable(cs, n))
  }

  // One pass through the loop body, for a chunk that does not end the stream.
  method HandleChunk(ghost cs: seq<ProviderChunk>, ghost i: nat, chunk: ProviderChunk, o: Open) returns (o': Open, parts: seq<Part>)
    requires i < |cs| && chunk == cs[i] && !IsTerminal(chunk) && o == OpenAt(cs, i)
    ensures o' == OpenAt(cs, i + 1) && parts == PartsOf(cs, i)
  {
    SeenSoFar(cs, i);
    if chunk.ToolDelta? {
      TableStep(cs, i, o.tools);
    } else {
      OtherChunk(cs, i);
    }
    hide HasText, HasReasoning, ToolIds, ToolNameOf, ToolTable, FindTool;
    o', parts := o, [];
    match chunk {
      case Route(id, model, _, _) =>
        o' := o'.(receiptId := Some(id));
        parts := parts + [ResponseMetadata(id, model)];
      case TextDelta(delta) =>
        if !o.textOpen {
          o' := o'.(textOpen := true);
          parts := parts + [TextStart(o.receiptId)];
        }
        parts := parts + [Text(delta)];
      case ReasoningDelta(delta) =>
        if !o.reasoningOpen {
          o' := o'.(reasoningOpen := true);
          parts := parts + [ReasoningStart];
        }
        parts := parts + [Reasoning(delta)];
      case ToolDelta(_, _, _) =>
        var tools;
        tools, parts := UpdateTool(o.tools, chunk);
        o' := o'.(tools := tools);
      case Usage(input, output, cacheRead, cacheWrite, cost) =>
        o' := o'.(usage := Some(UsageTotals(input, output, cacheRead, cacheWrite)));
        if cost.Some? {
          o' := o'.(cost := cost);
        }
    }
  }

  /** The transducer: one pass over the chunks. */
  method DoStream(cs: seq<ProviderChunk>, ending: Ending) returns (parts: seq<Part>)
    ensures parts == StreamParts(cs, ending)
  {
    NothingYet(cs);
    hide HasText, HasReasoning, ToolIds, ToolNameOf, ToolInputOf, ToolTable, Unified, CallParts, EndParts, StopAt, PartsOf;
    parts := [StreamStart];
    var o := Open(None, None, None, false, false, []);
    for i := 0 to |cs|
      invariant i <= StopAt(cs) && o == OpenAt(cs, i)
      invariant parts == [StreamStart] + BodyParts(cs, i)
    {
      var chunk := cs[i];
      if chunk.Finish? {
        var closing := Close(cs, i, o.reasoningOpen, o.textOpen);
        var calls := CloseTools(cs, i, o.tools);
        var receiptId := if chunk.receiptId != "" then Some(chunk.receiptId) else o.receiptId;
        parts := parts + (closing + calls + [FinishPart(Unified(chunk.finishReason), chunk.finishReason, o.usage, receiptId,
                                                        chunk.retryCount.GetOr(0), o.cost)]);
        return;
      }
      if chunk.ErrorChunk? {
        parts := parts + [ErrorPart(chunk.error)];
        return;
      }
      var more;
      o, more := HandleChunk(cs, i, chunk, o);
      parts := parts + more;
      assert parts == [StreamStart] + (BodyParts(cs, i) + PartsOf(cs, i));
    }
    match ending {
      case Completed =>
        var closing := Close(cs, |cs|, o.reasoningOpen, o.textOpen);
        parts := parts + closing;
      case Failed(error) =>
        parts := parts + [ErrorPart(error)];
    }
  }

  lemma NothingYet(cs: seq<ProviderChunk>)
    ensures OpenAt(cs, 0) == Open(None, None, None, false, false, []) && BodyParts(cs, 0) == []
  {
  }

  lemma SeenSoFar(cs: seq<ProviderChunk>, i: nat)
    requires i < |cs|
    ensures HasText(cs, i + 1) <==> HasText(cs, i) || cs[i].TextDelta?
    ensures HasReasoning(cs, i + 1) <==> HasReasoning(cs, i) || cs[i].ReasoningDelta?
  {
  }

  method Close(ghost cs: seq<ProviderChunk>, ghost n: nat, reasoningOpen: bool, textOpen: bool) returns (parts: seq<Part>)
    requires n <= |cs| && reasoningOpen == HasReasoning(cs, n) && textOpen == HasText(cs, n)
    ensures parts == EndParts(cs, n)
  {
    parts := [];
    if reasoningOpen {
      parts := parts + [ReasoningEnd];
    }
    if textOpen {
      parts := parts + [TextEnd];
    }
  }

  method CloseTools(ghost cs: seq<ProviderChunk>, ghost n: nat, tools: seq<ToolEntry>) returns (parts: seq<Part>)
    requires n <= |cs| && tools == ToolTable(cs, n)
    ensures parts == CallParts(cs, n, |ToolIds(cs, n)|)
  {
    parts := [];
    for k := 0 to |tools|
      invariant parts == CallParts(cs, n, k)
    {
      parts := parts + [ToolInputEnd(tools[k].id), ToolCall(tools[k].id, tools[k].name, tools[k].input)];
    }
  }

  // ----- the grammar of part streams

  datatype Phase = Fresh | Opened | Closed

  // What has been opened and closed so far.
  datatype Grammar = Grammar(begun: bool, text: Phase, reasoning: Phase,
                             open: set<string>, closed: set<string>, called: set<string>, over: bool)

  const NOTHING := Grammar(false, Fresh, Fresh, {}, {}, {}, false)

  // Everything opened is closed, and every closed tool input has been called.
  predicate Settled(g: Grammar) {
    g.text != Opened && g.reasoning != Opened && g.open == {} && g.called == g.closed
  }

  // One more part; None when it is out of place.
  function Accept(g: Grammar, p: Part): Option<Grammar> {
    if g.over || g.begun == p.StreamStart? then None else
      match p
      case StreamStart => Some(g.(begun := true))
      case ResponseMetadata(_, _) => Some(g)
      case TextStart(_) => if g.text == Fresh then Some(g.(text := Opened)) else None
      case Text(_) => if g.text == Opened then Some(g) else None
      case TextEnd => if g.text == Opened then Some(g.(text := Closed)) else None
      case ReasoningStart => if g.reasoning == Fresh then Some(g.(reasoning := Opened)) else None
      case Reasoning(_) => if g.reasoning == Opened then Some(g) else None
      case ReasoningEnd => if g.reasoning == Opened then Some(g.(reasoning := Closed)) else None
      case ToolInputStart(id, _) => if id in g.open || id in g.closed then None else Some(g.(open := g.open + {id}))
      case ToolInput(id, _) => if id in g.open then Some(g) else None
      case ToolInputEnd(id) =>
        if id in g.open then Some(g.(open := g.open - {id}, closed := g.closed + {id})) else None
      case ToolCall(id, _, _) =>
        if id in g.closed && id !in g.called then Some(g.(called := g.called + {id})) else None
      case FinishPart(_, _, _, _, _, _) => if Settled(g) then Some(g.(over := true)) else None
      case ErrorPart(_) => Some(g.(over := true))
  }

  function AcceptAll(g: Grammar, parts: seq<Part>): Option<Grammar>
    decreases |parts|
  {
    if parts == [] then Some(g) else
      match Accept(g, parts[0]) case None => None case Some(g') => AcceptAll(g', parts[1..])
  }

  lemma {:induction false} AcceptConcat(g: Grammar, x: seq<Part>, y: seq<Part>)
    ensures AcceptAll(g, x + y) == (match AcceptAll(g, x) case None => None case Some(g') => AcceptAll(g', y))
    decreases |x|
  {
    if x == [] {
      assert x + y == y;
    } else {
      assert (x + y)[1..] == x[1..] + y;
      if Accept(g, x[0]).Some? {
        AcceptConcat(Accept(g, x[0]).value, x[1..], y);
      }
    }
  }

  lemma AcceptOne(g: Grammar, p: Part)
    ensures AcceptAll(g, [p]) == Accept(g, p)
  {
    assert [p][1..] == [];
  }

  lemma AcceptTwo(g: Grammar, p: Part, q: Part)
    requires Accept(g, p).Some?
    ensures AcceptAll(g, [p, q]) == Accept(Accept(g, p).value, q)
  {
    assert [p, q][1..] == [q];
    AcceptOne(Accept(g, p).value, q);
  }

  function SetOf(ids: seq<string>, k: nat): set<string>
    requires k <= |ids|
  {
    set i | 0 <= i < k :: ids[i]
  }

  // What is open after n chunks.
  function OpenGrammar(cs: seq<ProviderChunk>, n: nat): Grammar
    requires n <= |cs|
  {
    Grammar(true, if HasText(cs, n) then Opened else Fresh, if HasReasoning(cs, n) then Opened else Fresh,
            SetOf(ToolIds(cs, n), |ToolIds(cs, n)|), {}, {}, false)
  }

  lemma OpenIds(cs: seq<ProviderChunk>, i: nat)
    requires i < |cs|
    ensures SetOf(ToolIds(cs, i + 1), |ToolIds(cs, i + 1)|) ==
            SetOf(ToolIds(cs, i), |ToolIds(cs, i)|) + if cs[i].ToolDelta? then {cs[i].toolCallId} else {}
    ensures forall id :: id in SetOf(ToolIds(cs, i), |ToolIds(cs, i)|) <==> id in ToolIds(cs, i)
  {
    var ids, more := ToolIds(cs, i), ToolIds(cs, i + 1);
    assert forall k :: 0 <= k < |ids| ==> more[k] == ids[k];
    assert |more| > |ids| ==> more[|ids|] == cs[i].toolCallId;
  }

  lemma PartsAccepted(cs: seq<ProviderChunk>, i: nat)
    requires i < |cs| && !IsTerminal(cs[i])
    ensures AcceptAll(OpenGrammar(cs, i), PartsOf(cs, i)) == Some(OpenGrammar(cs, i + 1))
  {
    SeenSoFar(cs, i);
    OpenIds(cs, i);
    if cs[i].ToolDelta? {
      ToolAccepted(cs, i);
    } else {
      var g, parts := OpenGrammar(cs, i), PartsOf(cs, i);
      hide HasText, HasReasoning, ToolIds, SetOf, ToolNameOf, AcceptAll;
      ShortParts(g, parts);
    }
  }

  // Accepting at most two parts, spelt out.
  lemma ShortParts(g: Grammar, parts: seq<Part>)
    requires |parts| <= 2
    ensures AcceptAll(g, parts) ==
      if |parts| == 0 then Some(g)
      else if |parts| == 1 then Accept(g, parts[0])
      else match Accept(g, parts[0]) case None => None case Some(g') => Accept(g', parts[1])
  {
    hide Accept;
    if |parts| == 1 {
      AcceptOne(g, parts[0]);
      assert parts == [parts[0]];
    } else if |parts| == 2 {
      assert parts[1..] == [parts[1]];
      if Accept(g, parts[0]).Some? {
        AcceptOne(Accept(g, parts[0]).value, parts[1]);
      }
    }
  }

  lemma ToolAccepted(cs: seq<ProviderChunk>, i: nat)
    requires i < |cs| && cs[i].ToolDelta?
    ensures AcceptAll(OpenGrammar(cs, i), PartsOf(cs, i)) == Some(OpenGrammar(cs, i + 1))
  {
    SeenSoFar(cs, i);
    OpenIds(cs, i);
    hide HasText, HasReasoning, ToolIds, SetOf, ToolNameOf, AcceptAll;
    var g, parts, id := OpenGrammar(cs, i), PartsOf(cs, i), cs[i].toolCallId;
    ShortParts(g, parts);
    if id in ToolIds(cs, i) {
      assert g.open + {id} == g.open;
    }
  }

  lemma AcceptNone(g: Grammar)
    ensures AcceptAll(g, []) == Some(g)
  {
  }

  lemma {:induction false} BodyAccepted(cs: seq<ProviderChunk>, n: nat)
    requires n <= |cs| && forall i :: 0 <= i < n ==> !IsTerminal(cs[i])
    ensures AcceptAll(NOTHING.(begun := true), BodyParts(cs, n)) == Some(OpenGrammar(cs, n))
  {
    if n == 0 {
      NothingYet(cs);
      assert SetOf(ToolIds(cs, 0), 0) == {};
      AcceptNone(NOTHING.(begun := true));
    } else {
      hide OpenGrammar, PartsOf, AcceptAll;
      BodyAccepted(cs, n - 1);
      PartsAccepted(cs, n - 1);
      AcceptConcat(NOTHING.(begun := true), BodyParts(cs, n - 1), PartsOf(cs, n - 1));
    }
  }

  // The grammar after the open text and reasoning are ended, and k tool inputs called.
  function CalledGrammar(cs: seq<ProviderChunk>, n: nat, k: nat): Grammar
    requires n <= |cs| && k <= |ToolIds(cs, n)|
  {
    var ids := ToolIds(cs, n);
    Grammar(true, if HasText(cs, n) then Closed else Fresh, if HasReasoning(cs, n) then Closed else Fresh,
            SetOf(ids, |ids|) - SetOf(ids, k), SetOf(ids, k), SetOf(ids, k), false)
  }

  lemma EndsAccepted(cs: seq<ProviderChunk>, n: nat)
    requires n <= |cs|
    ensures AcceptAll(OpenGrammar(cs, n), EndParts(cs, n)) == Some(CalledGrammar(cs, n, 0))
  {
    var g, parts := OpenGrammar(cs, n), EndParts(cs, n);
    assert SetOf(ToolIds(cs, n), 0) == {};
    hide HasText, HasReasoning, ToolIds, SetOf, AcceptAll;
    assert g.open - {} == g.open;
    ShortParts(g, parts);
  }

  lemma NextId(ids: seq<string>, k: nat)
    requires k < |ids| && forall i, j :: 0 <= i < j < |ids| ==> ids[i] != ids[j]
    ensures SetOf(ids, k + 1) == SetOf(ids, k) + {ids[k]} && ids[k] !in SetOf(ids, k) && ids[k] in SetOf(ids, |ids|)
  {
  }

  lemma {:induction false} CallsAccepted(cs: seq<ProviderChunk>, n: nat, k: nat)
    requires n <= |cs| && k <= |ToolIds(cs, n)|
    ensures AcceptAll(CalledGrammar(cs, n, 0), CallParts(cs, n, k)) == Some(CalledGrammar(cs, n, k))
    decreases k
  {
    if k == 0 {
      AcceptNone(CalledGrammar(cs, n, 0));
    } else {
      var ids := ToolIds(cs, n);
      NextId(ids, k - 1);
      CallsAccepted(cs, n, k - 1);
      hide HasText, HasReasoning, ToolIds, SetOf, AcceptAll, ToolNameOf, ToolInputOf;
      var id, g := ids[k - 1], CalledGrammar(cs, n, k - 1);
      AcceptTwo(g, ToolInputEnd(id), ToolCall(id, ToolNameOf(cs, n, id), ToolInputOf(cs, n, id)));
      AcceptConcat(CalledGrammar(cs, n, 0), CallParts(cs, n, k - 1),
                   [ToolInputEnd(id), ToolCall(id, ToolNameOf(cs, n, id), ToolInputOf(cs, n, id))]);
      assert g.open - {id} == CalledGrammar(cs, n, k).open;
    }
  }

  // The grammar that a whole stream leaves behind.
  function FinalGrammar(cs: seq<ProviderChunk>, ending: Ending): Grammar {
    var n := StopAt(cs);
    if n < |cs| && cs[n].Finish? then CalledGrammar(cs, n, |ToolIds(cs, n)|).(over := true)
    else if n == |cs| && ending.Completed? then CalledGrammar(cs, n, 0)
    else OpenGrammar(cs, n).(over := true)
  }

  lemma AllCalled(cs: seq<ProviderChunk>, n: nat)
    requires n <= |cs|
    ensures Settled(CalledGrammar(cs, n, |ToolIds(cs, n)|))
  {
    hide ToolIds, SetOf, HasText, HasReasoning;
  }

  lemma FinishAccepted(cs: seq<ProviderChunk>, n: nat)
    requires n < |cs| && cs[n].Finish?
    ensures var all := |ToolIds(cs, n)|;
      AcceptAll(OpenGrammar(cs, n), EndParts(cs, n) + CallParts(cs, n, all) + [Finished(cs, n)]) ==
      Some(CalledGrammar(cs, n, all).(over := true))
  {
    hide AcceptAll, CallParts, EndParts, OpenGrammar, CalledGrammar, Settled, Finished, ToolIds;
    var g, all := OpenGrammar(cs, n), |ToolIds(cs, n)|;
    EndsAccepted(cs, n);
    CallsAccepted(cs, n, all);
    AllCalled(cs, n);
    AcceptConcat(g, EndParts(cs, n), CallParts(cs, n, all));
    AcceptConcat(g, EndParts(cs, n) + CallParts(cs, n, all), [Finished(cs, n)]);
    NotOver(cs, n, all);
    AcceptOne(CalledGrammar(cs, n, all), Finished(cs, n));
  }

  lemma ClosingAccepted(cs: seq<ProviderChunk>, ending: Ending)
    ensures AcceptAll(OpenGrammar(cs, StopAt(cs)), ClosingParts(cs, StopAt(cs), ending)) == Some(FinalGrammar(cs, ending))
  {
    var n := StopAt(cs);
    var g := OpenGrammar(cs, n);
    hide StopAt, AcceptAll, CalledGrammar, CallParts, EndParts, Finished, ToolIds, HasText, HasReasoning, SetOf;
    EndsAccepted(cs, n);
    if n < |cs| && cs[n].Finish? {
      FinishAccepted(cs, n);
    } else if n < |cs| {
      AcceptOne(g, ErrorPart(cs[n].error));
    } else if ending.Failed? {
      AcceptOne(g, ErrorPart(ending.error));
    }
  }

  lemma NotOver(cs: seq<ProviderChunk>, n: nat, k: nat)
    requires n <= |cs| && k <= |ToolIds(cs, n)|
    ensures !CalledGrammar(cs, n, k).over && CalledGrammar(cs, n, k).begun
  {
  }

  /**
   Every stream of parts is well formed: text, reasoning and each tool input are opened at most
   once and before they are used, ended at most once, and each call follows the end of its input.
   */
  lemma StreamAccepted(cs: seq<ProviderChunk>, ending: Ending)
    ensures AcceptAll(NOTHING, StreamParts(cs, ending)) == Some(FinalGrammar(cs, ending))
  {
    var n := StopAt(cs);
    BodyAccepted(cs, n);
    ClosingAccepted(cs, ending);
    hide AcceptAll, BodyParts, ClosingParts, OpenGrammar, FinalGrammar;
    AcceptOne(NOTHING, StreamStart);
    AcceptConcat(NOTHING, [StreamStart], BodyParts(cs, n));
    AcceptConcat(NOTHING, [StreamStart] + BodyParts(cs, n), ClosingParts(cs, n, ending));
  }

  /**
   Everything opened is also closed exactly when the stream ends in a finish, or ends without one
   before any tool call, or ends in an error before any content.
   */
  lemma StreamSettles(cs: seq<ProviderChunk>, ending: Ending)
    ensures var n := StopAt(cs);
      Settled(FinalGrammar(cs, ending)) <==>
        || (n < |cs| && cs[n].Finish?)
        || (n == |cs| && ending.Completed? && ToolIds(cs, n) == [])
        || (!HasText(cs, n) && !HasReasoning(cs, n) && ToolIds(cs, n) == [])
  {
    var n := StopAt(cs);
    IdsEmpty(ToolIds(cs, n));
    hide HasText, HasReasoning, ToolIds, SetOf, StopAt;
  }

  lemma IdsEmpty(ids: seq<string>)
    ensures SetOf(ids, |ids|) == {} <==> ids == []
    ensures SetOf(ids, 0) == {}
    ensures SetOf(ids, |ids|) - SetOf(ids, |ids|) == {}
    ensures SetOf(ids, |ids|) - SetOf(ids, 0) == SetOf(ids, |ids|)
  {
    if ids != [] {
      assert ids[0] in SetOf(ids, |ids|);
    }
  }

  // ----- conservation

  // What a stream of parts has delivered: the input deltas for one id, the text, the calls.
  datatype Delivered = Delivered(input: string, text: string, calls: seq<ToolEntry>)

  const NOTHING_DELIVERED := Delivered("", "", [])

  function Plus(a: Delivered, b: Delivered): Delivered {
    Delivered(a.input + b.input, a.text + b.text, a.calls + b.calls)
  }

  lemma PlusAssociates(a: Delivered, b: Delivered, c: Delivered)
    ensures Plus(Plus(a, b), c) == Plus(a, Plus(b, c))
  {
    assert (a.input + b.input) + c.input == a.input + (b.input + c.input);
    assert (a.text + b.text) + c.text == a.text + (b.text + c.text);
    assert (a.calls + b.calls) + c.calls == a.calls + (b.calls + c.calls);
  }

  lemma PlusNothing(a: Delivered)
    ensures Plus(a, NOTHING_DELIVERED) == a == Plus(NOTHING_DELIVERED, a)
  {
    assert a.input + "" == a.input && a.text + "" == a.text && a.calls + [] == a.calls;
    assert "" + a.input == a.input && "" + a.text == a.text && [] + a.calls == a.calls;
  }

  function DeliveredBy(p: Part, id: string): Delivered {
    Delivered(if p.ToolInput? && p.toolId == id then p.delta else "",
              if p.Text? then p.delta else "",
              if p.ToolCall? then [ToolEntry(p.toolId, p.toolName, p.input)] else [])
  }

  function Emits(parts: seq<Part>, id: string): Delivered {
    if parts == [] then NOTHING_DELIVERED else Plus(DeliveredBy(parts[0], id), Emits(parts[1..], id))
  }

  function EmittedInput(parts: seq<Part>, id: string): string {
    Emits(parts, id).input
  }

  function EmittedText(parts: seq<Part>): string {
    Emits(parts, "").text
  }

  function EmittedCalls(parts: seq<Part>): seq<ToolEntry> {
    Emits(parts, "").calls
  }

  lemma {:induction false} EmitsConcat(x: seq<Part>, y: seq<Part>, id: string)
    ensures Emits(x + y, id) == Plus(Emits(x, id), Emits(y, id))
  {
    hide DeliveredBy, Plus;
    if x == [] {
      assert x + y == y;
      PlusNothing(Emits(y, id));
    } else {
      assert (x + y)[1..] == x[1..] + y && (x + y)[0] == x[0];
      EmitsConcat(x[1..], y, id);
      PlusAssociates(DeliveredBy(x[0], id), Emits(x[1..], id), Emits(y, id));
    }
  }

  lemma EmitsOne(p: Part, id: string)
    ensures Emits([p], id) == DeliveredBy(p, id)
  {
    assert [p][1..] == [];
    PlusNothing(DeliveredBy(p, id));
  }

  // At most two parts, spelt out.
  lemma EmitsFew(parts: seq<Part>, id: string)
    requires |parts| <= 2
    ensures Emits(parts, id) ==
      if |parts| == 0 then NOTHING_DELIVERED
      else if |parts| == 1 then DeliveredBy(parts[0], id)
      else Plus(DeliveredBy(parts[0], id), DeliveredBy(parts[1], id))
  {
    hide DeliveredBy, Plus;
    if |parts| == 1 {
      assert parts == [parts[0]];
      EmitsOne(parts[0], id);
    } else if |parts| == 2 {
      assert parts[1..] == [parts[1]];
      EmitsOne(parts[1], id);
    }
  }

  // What one chunk is worth, and what the first n are.
  function Received(c: ProviderChunk, id: string): Delivered {
    Delivered(if c.ToolDelta? && c.toolCallId == id then Arguments(c) else "",
              if c.TextDelta? then c.delta else "", [])
  }

  lemma ChunkEmits(cs: seq<ProviderChunk>, i: nat, id: string)
    requires i < |cs|
    ensures Emits(PartsOf(cs, i), id) == Received(cs[i], id)
  {
    hide HasText, HasReasoning, ToolIds, ToolNameOf, LastReceipt, Emits;
    EmitsFew(PartsOf(cs, i), id);
  }

  lemma {:induction false} BodyEmits(cs: seq<ProviderChunk>, n: nat, id: string)
    requires n <= |cs|
    ensures Emits(BodyParts(cs, n), id) == Delivered(ToolInputOf(cs, n, id), TextSoFar(cs, n), [])
  {
    hide BodyParts, Emits, ToolInputOf, TextSoFar;
    if n == 0 {
      NothingEmits(cs, id);
    } else {
      BodyEmits(cs, n - 1, id);
      BodyEmitsNext(cs, n - 1, id);
    }
  }

  lemma NothingEmits(cs: seq<ProviderChunk>, id: string)
    ensures Emits(BodyParts(cs, 0), id) == Delivered(ToolInputOf(cs, 0, id), TextSoFar(cs, 0), [])
  {
  }

  lemma BodyNext(cs: seq<ProviderChunk>, i: nat)
    requires i < |cs|
    ensures BodyParts(cs, i + 1) == BodyParts(cs, i) + PartsOf(cs, i)
  {
  }

  lemma BodyEmitsNext(cs: seq<ProviderChunk>, i: nat, id: string)
    requires i < |cs| && Emits(BodyParts(cs, i), id) == Delivered(ToolInputOf(cs, i, id), TextSoFar(cs, i), [])
    ensures Emits(BodyParts(cs, i + 1), id) == Delivered(ToolInputOf(cs, i + 1, id), TextSoFar(cs, i + 1), [])
  {
    hide BodyParts, PartsOf, Emits, Plus, Received, ToolInputOf, TextSoFar;
    BodyNext(cs, i);
    ReceivedAdds(cs, i, id);
    ChunkEmits(cs, i, id);
    EmitsConcat(BodyParts(cs, i), PartsOf(cs, i), id);
    assert Emits(BodyParts(cs, i + 1), id) == Plus(Emits(BodyParts(cs, i), id), Received(cs[i], id));
  }

  lemma ReceivedAdds(cs: seq<ProviderChunk>, i: nat, id: string)
    requires i < |cs|
    ensures Plus(Delivered(ToolInputOf(cs, i, id), TextSoFar(cs, i), []), Received(cs[i], id)) ==
            Delivered(ToolInputOf(cs, i + 1, id), TextSoFar(cs, i + 1), [])
  {
  }

  lemma CallEmits(e: ToolEntry, id: string)
    ensures Emits([ToolInputEnd(e.id), ToolCall(e.id, e.name, e.input)], id) == Delivered("", "", [e])
  {
    hide Emits;
    EmitsFew([ToolInputEnd(e.id), ToolCall(e.id, e.name, e.input)], id);
  }

  lemma {:induction false} CallsEmit(cs: seq<ProviderChunk>, n: nat, k: nat, id: string)
    requires n <= |cs| && k <= |ToolIds(cs, n)|
    ensures Emits(CallParts(cs, n, k), id) == Delivered("", "", ToolTable(cs, n)[..k])
    decreases k
  {
    hide Emits, CallParts, ToolIds, EntryOf;
    if k == 0 {
      NoCallsEmit(cs, n, id);
      assert ToolTable(cs, n)[..0] == [];
    } else {
      CallsEmit(cs, n, k - 1, id);
      CallsEmitNext(cs, n, k - 1, id);
    }
  }

  lemma NoCallsEmit(cs: seq<ProviderChunk>, n: nat, id: string)
    requires n <= |cs|
    ensures Emits(CallParts(cs, n, 0), id) == NOTHING_DELIVERED
  {
  }

  lemma CallsNext(cs: seq<ProviderChunk>, n: nat, k: nat)
    requires n <= |cs| && k < |ToolIds(cs, n)|
    ensures var e := EntryOf(cs, n, ToolIds(cs, n)[k]);
      && CallParts(cs, n, k + 1) == CallParts(cs, n, k) + [ToolInputEnd(e.id), ToolCall(e.id, e.name, e.input)]
      && ToolTable(cs, n)[..k + 1] == ToolTable(cs, n)[..k] + [e]
  {
  }

  lemma CallsEmitNext(cs: seq<ProviderChunk>, n: nat, k: nat, id: string)
    requires n <= |cs| && k < |ToolIds(cs, n)|
    requires |ToolTable(cs, n)| == |ToolIds(cs, n)|
    requires Emits(CallParts(cs, n, k), id) == Delivered("", "", ToolTable(cs, n)[..k])
    ensures Emits(CallParts(cs, n, k + 1), id) == Delivered("", "", ToolTable(cs, n)[..k + 1])
  {
    hide Emits, CallParts, Plus, ToolTable, ToolIds, EntryOf;
    var e := EntryOf(cs, n, ToolIds(cs, n)[k]);
    CallsNext(cs, n, k);
    CallEmits(e, id);
    EmitsConcat(CallParts(cs, n, k), [ToolInputEnd(e.id), ToolCall(e.id, e.name, e.input)], id);
    PlusCall(ToolTable(cs, n)[..k], e);
  }

  lemma PlusCall(calls: seq<ToolEntry>, e: ToolEntry)
    ensures Plus(Delivered("", "", calls), Delivered("", "", [e])) == Delivered("", "", calls + [e])
  {
    assert "" + "" == "";
  }

  lemma EndsEmit(cs: seq<ProviderChunk>, n: nat, id: string)
    requires n <= |cs|
    ensures Emits(EndParts(cs, n), id) == NOTHING_DELIVERED
  {
    hide HasText, HasReasoning, Emits;
    EmitsFew(EndParts(cs, n), id);
  }

  lemma ClosingEmits(cs: seq<ProviderChunk>, ending: Ending, id: string)
    ensures var n := StopAt(cs);
      Emits(ClosingParts(cs, n, ending), id) ==
      Delivered("", "", if n < |cs| && cs[n].Finish? then ToolTable(cs, n) else [])
  {
    var n := StopAt(cs);
    hide StopAt, ToolIds, ToolTable, CallParts, EndParts, Emits;
    EndsEmit(cs, n, id);
    if n < |cs| && cs[n].Finish? {
      var calls := CallParts(cs, n, |ToolIds(cs, n)|);
      CallsEmit(cs, n, |ToolIds(cs, n)|, id);
      TableLength(cs, n);
      EmitsOne(Finished(cs, n), id);
      EmitsConcat(EndParts(cs, n), calls, id);
      EmitsConcat(EndParts(cs, n) + calls, [Finished(cs, n)], id);
    } else if n < |cs| {
      EmitsOne(ErrorPart(cs[n].error), id);
    } else if ending.Failed? {
      EmitsOne(ErrorPart(ending.error), id);
    }
  }

  lemma TableLength(cs: seq<ProviderChunk>, n: nat)
    requires n <= |cs|
    ensures |ToolTable(cs, n)| == |ToolIds(cs, n)| && ToolTable(cs, n)[..|ToolIds(cs, n)|] == ToolTable(cs, n)
    ensures forall k :: 0 <= k < |ToolIds(cs, n)| ==>
      ToolTable(cs, n)[k].id == ToolIds(cs, n)[k] && ToolTable(cs, n)[k].input == ToolInputOf(cs, n, ToolIds(cs, n)[k])
  {
  }

  lemma StreamEmits(cs: seq<ProviderChunk>, ending: Ending, id: string)
    ensures var n := StopAt(cs);
      Emits(StreamParts(cs, ending), id) ==
      Delivered(ToolInputOf(cs, n, id), TextSoFar(cs, n), if n < |cs| && cs[n].Finish? then ToolTable(cs, n) else [])
  {
    var n := StopAt(cs);
    hide Emits, StopAt, ToolTable, ClosingParts, BodyParts;
    BodyEmits(cs, n, id);
    ClosingEmits(cs, ending, id);
    EmitsOne(StreamStart, id);
    EmitsConcat([StreamStart], BodyParts(cs, n), id);
    EmitsConcat([StreamStart] + BodyParts(cs, n), ClosingParts(cs, n, ending), id);
  }

  /**
   Conservation: in every stream the emitted text is exactly the text received, and when it ends in
   a finish, and only then, there is one call for each tool call id, in the order the ids first
   appeared, whose input is exactly the deltas emitted for that id.
   */
  lemma CallsCarryTheirDeltas(cs: seq<ProviderChunk>, ending: Ending)
    ensures var parts, n := StreamParts(cs, ending), StopAt(cs);
      && EmittedText(parts) == TextSoFar(cs, n)
      && |EmittedCalls(parts)| == (if n < |cs| && cs[n].Finish? then |ToolIds(cs, n)| else 0)
      && (forall k :: 0 <= k < |EmittedCalls(parts)| ==>
            EmittedCalls(parts)[k].id == ToolIds(cs, n)[k] &&
            EmittedCalls(parts)[k].input == EmittedInput(parts, ToolIds(cs, n)[k]))
  {
    var n, parts := StopAt(cs), StreamParts(cs, ending);
    hide StreamParts, Emits, ToolTable, StopAt;
    TableLength(cs, n);
    StreamEmits(cs, ending, "");
    forall k | 0 <= k < |EmittedCalls(parts)|
      ensures EmittedCalls(parts)[k].input == EmittedInput(parts, ToolIds(cs, n)[k])
    {
      StreamEmits(cs, ending, ToolIds(cs, n)[k]);
    }
  }

  // ----- the non-streaming call

  datatype Content = TextContent(text: string) | CallContent(call: ToolEntry)

  function CallContents(calls: seq<ToolEntry>): seq<Content> {
    seq(|calls|, k requires 0 <= k < |calls| => CallContent(calls[k]))
  }

  // The error that ends a stream, if one does.
  function StreamFailure(cs: seq<ProviderChunk>, ending: Ending): Option<StreamError> {
    var n := StopAt(cs);
    if n < |cs| then if cs[n].ErrorChunk? then Some(cs[n].error) else None
    else if ending.Failed? then Some(ending.error) else None
  }

  // No part that ends a stream.
  predicate NoEnd(parts: seq<Part>) {
    forall p :: p in parts ==> !p.ErrorPart? && !p.FinishPart?
  }

  lemma NoEndInParts(cs: seq<ProviderChunk>, i: nat)
    requires i < |cs|
    ensures NoEnd(PartsOf(cs, i))
  {
    hide ToolNameOf, HasText, HasReasoning, ToolIds, LastReceipt, Arguments;
  }

  lemma {:induction false} NoEndInBody(cs: seq<ProviderChunk>, n: nat)
    requires n <= |cs|
    ensures NoEnd(BodyParts(cs, n))
  {
    hide PartsOf;
    if n > 0 {
      NoEndInBody(cs, n - 1);
      NoEndInParts(cs, n - 1);
    }
  }

  lemma {:induction false} NoEndInCalls(cs: seq<ProviderChunk>, n: nat, k: nat)
    requires n <= |cs| && k <= |ToolIds(cs, n)|
    ensures NoEnd(CallParts(cs, n, k))
    decreases k
  {
    if k > 0 {
      hide ToolNameOf, ToolInputOf, ToolIds;
      NoEndInCalls(cs, n, k - 1);
    }
  }

  // Only the last part may end a stream.
  predicate OnlyLastEnds(parts: seq<Part>) {
    forall i :: 0 <= i < |parts| - 1 ==> !parts[i].ErrorPart? && !parts[i].FinishPart?
  }

  lemma EndsJoin(x: seq<Part>, y: seq<Part>)
    requires NoEnd(x) && OnlyLastEnds(y)
    ensures OnlyLastEnds(x + y)
  {
    assert forall i :: 0 <= i < |x| ==> x[i] in x;
  }

  lemma NoEndIsOnlyLast(parts: seq<Part>)
    requires NoEnd(parts)
    ensures OnlyLastEnds(parts)
    ensures parts != [] ==> !parts[|parts| - 1].ErrorPart? && !parts[|parts| - 1].FinishPart?
  {
    assert forall i :: 0 <= i < |parts| ==> parts[i] in parts;
  }

  lemma ClosingEnds(cs: seq<ProviderChunk>, ending: Ending)
    ensures var parts, failure, n := ClosingParts(cs, StopAt(cs), ending), StreamFailure(cs, ending), StopAt(cs);
      && OnlyLastEnds(parts)
      && (if failure.Some? then parts == [ErrorPart(failure.value)]
          else if n < |cs| then parts != [] && parts[|parts| - 1] == Finished(cs, n)
          else NoEnd(parts))
  {
    var n := StopAt(cs);
    NoEndInCalls(cs, n, |ToolIds(cs, n)|);
    hide CallParts, ToolIds, StopAt, HasText, HasReasoning;
    assert NoEnd(EndParts(cs, n));
    if n < |cs| && cs[n].Finish? {
      hide EndParts, Finished;
      EndsJoin(EndParts(cs, n) + CallParts(cs, n, |ToolIds(cs, n)|), [Finished(cs, n)]);
    } else {
      NoEndIsOnlyLast(EndParts(cs, n));
    }
  }

  /** An error part, or a finish part, is the last part: the one when the stream fails, the other when it finishes. */
  lemma EndIsLast(cs: seq<ProviderChunk>, ending: Ending)
    ensures var parts, failure, n := StreamParts(cs, ending), StreamFailure(cs, ending), StopAt(cs);
      && parts != [] && OnlyLastEnds(parts)
      && var last := parts[|parts| - 1];
         if failure.Some? then last == ErrorPart(failure.value)
         else if n < |cs| then last == Finished(cs, n)
         else !last.ErrorPart? && !last.FinishPart?
  {
    var n := StopAt(cs);
    NoEndInBody(cs, n);
    ClosingEnds(cs, ending);
    hide BodyParts, ClosingParts, StopAt, Finished, StreamFailure;
    var body, closing := [StreamStart] + BodyParts(cs, n), ClosingParts(cs, n, ending);
    EndsJoin(body, closing);
    NoEndIsOnlyLast(body);
    if closing != [] {
      assert (body + closing)[|body + closing| - 1] == closing[|closing| - 1];
      if NoEnd(closing) {
        NoEndIsOnlyLast(closing);
      }
    } else {
      assert body + closing == body;
    }
    hide NoEnd, OnlyLastEnds;
  }

  // What the finish part carries beside the reason and the usage.
  datatype Metadata = Metadata(receiptId: Option<string>, retryCount: int, cost: Option<Cost>)

  // The answer as a whole. Without a finish part the reason is `other`, and the rest is absent.
  datatype Generated = Generated(
    content: seq<Content>, reason: UnifiedReason, raw: Option<string>, usage: Option<UsageTotals>, metadata: Option<Metadata>)

  function AnswerWith(content: seq<Content>, finish: Option<Part>): Generated
    requires finish.Some? ==> finish.value.FinishPart?
  {
    match finish
    case None => Generated(content, OtherReason, None, None, None)
    case Some(p) => Generated(content, p.reason, Some(p.raw), p.usage, Some(Metadata(p.receiptId, p.retryCount, p.cost)))
  }

  // The text, if there is any, and the calls.
  function ContentOfAnswer(text: string, calls: seq<ToolEntry>): seq<Content> {
    (if text == "" then [] else [TextContent(text)]) + CallContents(calls)
  }

  /** Reads the stream to its end and collects text, calls and the figures of the finish; an error part is thrown. */
  method DoGenerate(cs: seq<ProviderChunk>, ending: Ending) returns (r: Result<Generated, StreamError>)
    ensures StreamFailure(cs, ending).Some? ==> r == Err(StreamFailure(cs, ending).value)
    ensures StreamFailure(cs, ending).None? ==>
      var n := StopAt(cs);
      r == Ok(if n < |cs| then AnswerWith(ContentOfAnswer(TextSoFar(cs, n), ToolTable(cs, n)), Some(Finished(cs, n)))
              else AnswerWith(ContentOfAnswer(TextSoFar(cs, n), []), None))
  {
    hide StreamParts, Emits, StopAt, ToolTable, TextSoFar, Finished, EmittedText, EmittedCalls;
    var parts := DoStream(cs, ending);
    EndIsLast(cs, ending);
    NoCallsWithoutFinish(cs, ending);
    var text := "";
    var calls: seq<ToolEntry> := [];
    var usage: Option<UsageTotals> := None;
    var reason, raw := OtherReason, None;
    var metadata: Option<Metadata> := None;
    NothingEmitted(parts);
    for i := 0 to |parts|
      invariant text == EmittedText(parts[..i]) && calls == EmittedCalls(parts[..i])
      invariant forall j :: 0 <= j < i ==> !parts[j].ErrorPart?
      invariant Generated([], reason, raw, usage, metadata) ==
        AnswerWith([], if i == |parts| && parts[i - 1].FinishPart? then Some(parts[i - 1]) else None)
    {
      var value := parts[i];
      EmittedSnoc(parts, i);
      assert text + "" == text && calls + [] == calls;
      if value.Text? {
        text := text + value.delta;
      }
      if value.ToolCall? {
        calls := calls + [ToolEntry(value.toolId, value.toolName, value.input)];
      }
      if value.FinishPart? {
        usage := value.usage;
        reason, raw := value.reason, Some(value.raw);
        metadata := Some(Metadata(value.receiptId, value.retryCount, value.cost));
      }
      if value.ErrorPart? {
        return Err(value.error);
      }
    }
    assert parts[..|parts|] == parts;
    var content := CallContents(calls);
    assert [] + content == content;
    if text != "" {
      content := [TextContent(text)] + content;
    }
    return Ok(Generated(content, reason, raw, usage, metadata));
  }

  lemma NothingEmitted(parts: seq<Part>)
    ensures EmittedText(parts[..0]) == "" && EmittedCalls(parts[..0]) == []
  {
  }

  lemma EmittedSnoc(parts: seq<Part>, i: nat)
    requires i < |parts|
    ensures EmittedText(parts[..i + 1]) == EmittedText(parts[..i]) + if parts[i].Text? then parts[i].delta else ""
    ensures EmittedCalls(parts[..i + 1]) == EmittedCalls(parts[..i]) +
      if parts[i].ToolCall? then [ToolEntry(parts[i].toolId, parts[i].toolName, parts[i].input)] else []
  {
    assert parts[..i + 1] == parts[..i] + [parts[i]];
    EmitsConcat(parts[..i], [parts[i]], "");
    EmitsOne(parts[i], "");
    hide Emits;
  }

  lemma NoCallsWithoutFinish(cs: seq<ProviderChunk>, ending: Ending)
    ensures EmittedText(StreamParts(cs, ending)) == TextSoFar(cs, StopAt(cs))
    ensures StreamFailure(cs, ending).None? ==>
      EmittedCalls(StreamParts(cs, ending)) == if StopAt(cs) < |cs| then ToolTable(cs, StopAt(cs)) else []
  {
    StreamEmits(cs, ending, "");
    hide Emits, StreamParts, ToolTable, TextSoFar;
  }
}
