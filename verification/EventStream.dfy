/**
 The event parser of src/capix-provider.ts: a line buffer fed with chunks of decoded text, and
 the translation of gateway events into provider chunks. Parsing JSON is a parameter.
 */
module EventStream {
  import opened Wrappers
  import opened TextLines
  import opened Whitespace
  import opened ProviderTypes

  // The usage figures under the names the gateway has used for them.
  datatype UsagePayload = UsagePayload(
    inputUnits: Option<int>, outputUnits: Option<int>, cacheUnits: Option<int>,
    inputTokens: Option<int>, outputTokens: Option<int>, cacheReadTokens: Option<int>,
    nestedInputTokens: Option<int>, nestedOutputTokens: Option<int>, nestedCacheReadTokens: Option<int>,
    provisionalCost: Option<Cost>)

  // The members of an event object that are ever read.
  datatype Payload = Payload(
    receiptId: string, modelCapability: string, region: string, privacyClass: string,
    content: string, toolCallId: string, index: int, fn: Option<ToolFunction>,
    usage: UsagePayload, finishReason: string, finalUsage: Option<UsagePayload>, retryCount: Option<int>,
    error: StreamError)

  // A data line read as JSON. `kind` is the `type` member when that is a string.
  datatype Json = Invalid | Falsy | Primitive | Object(kind: Option<string>, payload: Payload)

  type JsonParser = string -> Json

  // What a data line means: nothing, a value no event type fits, or an event.
  datatype Parsed = Skip | Unhandled | Event(kind: string, payload: Payload)

  function ParseSseChunk(parse: JsonParser, data: string, eventType: Option<string>): Parsed {
    if data == "" || data[0] == ':' then Skip else
      match parse(data)
      case Invalid => Skip
      case Falsy => Skip
      case Primitive => Unhandled
      case Object(Some(kind), payload) => Event(kind, payload)
      case Object(None, payload) =>
        if eventType.Some? && eventType.value != "" then Event(eventType.value, payload) else Unhandled
  }

  function MapUsageEvent(u: UsagePayload): ProviderChunk {
    Usage(u.inputUnits.OrElse(u.inputTokens).OrElse(u.nestedInputTokens).GetOr(0),
          u.outputUnits.OrElse(u.outputTokens).OrElse(u.nestedOutputTokens).GetOr(0),
          u.cacheUnits.OrElse(u.cacheReadTokens).OrElse(u.nestedCacheReadTokens),
          None, u.provisionalCost)
  }

  const FINAL := "capix.final"
  const USAGE := "capix.usage"

  // None where the original throws.
  function MapChunk(kind: string, p: Payload): Option<ProviderChunk> {
    if kind == "capix.route" then Some(Route(p.receiptId, p.modelCapability, p.region, p.privacyClass))
    else if kind == "content.delta" then Some(TextDelta(p.content))
    else if kind == "tool.delta" then Some(ToolDelta(p.toolCallId, p.index, p.fn))
    else if kind == USAGE then Some(MapUsageEvent(p.usage))
    else if kind == FINAL then Some(Finish(p.finishReason, p.receiptId, p.retryCount))
    else if kind == "capix.error" then Some(ErrorChunk(p.error))
    else None
  }

  // The error thrown for an event of unknown type; what has no type is called undefined.
  function UnhandledError(e: Parsed): StreamError {
    StreamError("", "capix-provider: unhandled stream event " + (if e.Event? then e.kind else "undefined"), None, None, None)
  }

  // ----- lines

  // The lines of a text that are ended by a newline.
  function Lines(text: string): (lines: seq<string>)
    decreases |text|
  {
    var n := NewlineAt(text);
    if n == |text| then [] else [text[..n]] + Lines(text[n + 1..])
  }

  // A line without the carriage return that may precede its newline.
  function Chomp(line: string): string {
    if line != "" && line[|line| - 1] == '\r' then line[..|line| - 1] else line
  }

  // A line is an event type, a data item, or of no interest.
  datatype LineKind = EventLine(eventType: string) | DataLine(data: string) | OtherLine

  function Classify(rawLine: string): LineKind {
    var line := Chomp(rawLine);
    if "event:" <= line then EventLine(JsTrim(line[6..]))
    else if "data:" <= line then DataLine(JsTrim(line[5..]))
    else OtherLine
  }

  // ----- the one-pass parser: from the whole text to the events, and on to the chunks

  // The events of the lines up to the end mark, each data line under the last event type before it.
  function Events(parse: JsonParser, lines: seq<string>, eventType: Option<string>): seq<Parsed> {
    if lines == [] then [] else
      match Classify(lines[0])
      case EventLine(t) => Events(parse, lines[1..], Some(t))
      case OtherLine => Events(parse, lines[1..], eventType)
      case DataLine(data) =>
        if data == "[DONE]" then [] else
          var rest := Events(parse, lines[1..], eventType);
          match ParseSseChunk(parse, data, eventType)
          case Skip => rest
          case e => [e] + rest
  }

  predicate HasDoneMark(lines: seq<string>) {
    lines != [] && (Classify(lines[0]) == DataLine("[DONE]") || HasDoneMark(lines[1..]))
  }

  predicate Stops(e: Parsed) {
    match e
    case Event(kind, payload) =>
      (match MapChunk(kind, payload) case None => true case Some(c) => IsTerminal(c))
    case _ => true
  }

  // The events up to and including the first that stops the stream.
  function Live(events: seq<Parsed>): seq<Parsed> {
    if events == [] then [] else if Stops(events[0]) then [events[0]] else [events[0]] + Live(events[1..])
  }

  predicate IsUsage(e: Parsed) {
    e.Event? && e.kind == USAGE
  }

  // Everything the stream delivers.
  datatype Output = Output(chunks: seq<ProviderChunk>, costs: seq<Cost>, ending: Ending)

  predicate UsageBefore(events: seq<Parsed>, n: nat)
    requires n <= |events|
  {
    exists j :: 0 <= j < n && IsUsage(events[j])
  }

  // The chunks an event stands for, given whether usage came before it.
  function EventChunks(e: Parsed, usageSeen: bool): seq<ProviderChunk> {
    match e
    case Event(kind, payload) =>
      (match MapChunk(kind, payload)
       case None => []
       case Some(c) =>
         if kind == FINAL && payload.finalUsage.Some? && !usageSeen
         then [MapUsageEvent(payload.finalUsage.value), c] else [c])
    case _ => []
  }

  function EventCosts(e: Parsed): seq<Cost> {
    if IsUsage(e) && e.payload.usage.provisionalCost.Some? then [e.payload.usage.provisionalCost.value] else []
  }

  // The chunks for event number i: a final event also stands for the usage it carries, when no
  // usage event came before it.
  function ChunksOf(events: seq<Parsed>, i: nat): seq<ProviderChunk>
    requires i < |events|
  {
    EventChunks(events[i], UsageBefore(events, i))
  }

  function AllChunks(events: seq<Parsed>, n: nat): seq<ProviderChunk>
    requires n <= |events|
  {
    if n == 0 then [] else AllChunks(events, n - 1) + ChunksOf(events, n - 1)
  }

  // The costs that are entered in the spend ledger: those of the usage events alone.
  function LedgerCosts(events: seq<Parsed>): seq<Cost> {
    if events == [] then [] else EventCosts(events[0]) + LedgerCosts(events[1..])
  }

  // How a stopping event ends the stream.
  function StopEnding(e: Parsed): Ending {
    if e.Event? && MapChunk(e.kind, e.payload).Some? then Completed else Failed(UnhandledError(e))
  }

  // How the stream ends, given how reading ends.
  function EndingOf(live: seq<Parsed>, done: bool, closing: Option<StreamError>): Ending {
    if live != [] && Stops(live[|live| - 1]) then StopEnding(live[|live| - 1])
    else if done || closing.None? then Completed
    else Failed(closing.value)
  }

  function StreamOutput(parse: JsonParser, text: string, closing: Option<StreamError>): Output {
    var lines := Lines(text);
    var live := Live(Events(parse, lines, None));
    Output(AllChunks(live, |live|), LedgerCosts(live), EndingOf(live, HasDoneMark(lines), closing))
  }

  // ----- the same as a run over lines, one line at a time

  function Prepend(chunks: seq<ProviderChunk>, costs: seq<Cost>, o: Output): Output {
    Output(chunks + o.chunks, costs + o.costs, o.ending)
  }

  // What handling one line does: the state it leaves, what it delivers, and whether it stops.
  datatype Handled = Handled(eventType: Option<string>, usageSeen: bool, chunks: seq<ProviderChunk>, costs: seq<Cost>,
                             stop: Option<Ending>)

  function Handle(parse: JsonParser, rawLine: string, eventType: Option<string>, usageSeen: bool): Handled {
    match Classify(rawLine)
    case EventLine(t) => Handled(Some(t), usageSeen, [], [], None)
    case OtherLine => Handled(eventType, usageSeen, [], [], None)
    case DataLine(data) =>
      if data == "[DONE]" then Handled(eventType, usageSeen, [], [], Some(Completed)) else
        var e := ParseSseChunk(parse, data, eventType);
        if e == Skip then Handled(eventType, usageSeen, [], [], None)
        else if Stops(e) then Handled(eventType, usageSeen, EventChunks(e, usageSeen), EventCosts(e), Some(StopEnding(e)))
        else Handled(eventType, usageSeen || IsUsage(e), EventChunks(e, usageSeen), EventCosts(e), None)
  }

  // Handling the remaining lines, given the last event type and whether usage was seen.
  function Run(parse: JsonParser, lines: seq<string>, eventType: Option<string>, usageSeen: bool,
               closing: Option<StreamError>): Output
    decreases |lines|
  {
    if lines == [] then Output([], [], if closing.None? then Completed else Failed(closing.value)) else
      var h := Handle(parse, lines[0], eventType, usageSeen);
      if h.stop.Some? then Output(h.chunks, h.costs, h.stop.value)
      else Prepend(h.chunks, h.costs, Run(parse, lines[1..], h.eventType, h.usageSeen, closing))
  }

  lemma RunNothing(parse: JsonParser, eventType: Option<string>, usageSeen: bool, closing: Option<StreamError>)
    ensures Run(parse, [], eventType, usageSeen, closing) ==
            Output([], [], if closing.None? then Completed else Failed(closing.value))
  {
  }

  lemma RunStep(parse: JsonParser, line: string, lines: seq<string>, eventType: Option<string>, usageSeen: bool,
                closing: Option<StreamError>)
    ensures var h := Handle(parse, line, eventType, usageSeen);
      Run(parse, [line] + lines, eventType, usageSeen, closing) ==
      if h.stop.Some? then Output(h.chunks, h.costs, h.stop.value)
      else Prepend(h.chunks, h.costs, Run(parse, lines, h.eventType, h.usageSeen, closing))
  {
    assert ([line] + lines)[1..] == lines && ([line] + lines)[0] == line;
  }

  // The chunks of the events that are left, given whether usage came before them.
  function Emitted(events: seq<Parsed>, usageSeen: bool): seq<ProviderChunk> {
    if events == [] then [] else
      EventChunks(events[0], usageSeen) + Emitted(events[1..], usageSeen || IsUsage(events[0]))
  }

  lemma UsageBeforeNext(events: seq<Parsed>, n: nat)
    requires n < |events|
    ensures UsageBefore(events, n + 1) <==> UsageBefore(events, n) || IsUsage(events[n])
  {
  }

  lemma {:induction false} EmittedIsAll(events: seq<Parsed>, n: nat)
    requires n <= |events|
    ensures AllChunks(events, n) + Emitted(events[n..], UsageBefore(events, n)) == AllChunks(events, |events|)
    decreases |events| - n
  {
    if n < |events| {
      UsageBeforeNext(events, n);
      hide UsageBefore, EventChunks, IsUsage;
      EmittedIsAll(events, n + 1);
      assert events[n..][0] == events[n] && events[n..][1..] == events[n + 1..];
      assert AllChunks(events, n + 1) == AllChunks(events, n) + ChunksOf(events, n);
      assert Emitted(events[n..], UsageBefore(events, n)) == ChunksOf(events, n) + Emitted(events[n + 1..], UsageBefore(events, n + 1));
    }
  }

  lemma LiveCons(e: Parsed, rest: seq<Parsed>)
    ensures Live([e] + rest) == if Stops(e) then [e] else [e] + Live(rest)
  {
    assert ([e] + rest)[1..] == rest;
  }

  // What the events of the remaining lines deliver.
  function OutputOf(live: seq<Parsed>, usageSeen: bool, done: bool, closing: Option<StreamError>): Output {
    Output(Emitted(live, usageSeen), LedgerCosts(live), EndingOf(live, done, closing))
  }

  lemma OutputCons(e: Parsed, rest: seq<Parsed>, usageSeen: bool, done: bool, closing: Option<StreamError>)
    ensures OutputOf(Live([e] + rest), usageSeen, done, closing) ==
      if Stops(e) then Output(EventChunks(e, usageSeen), EventCosts(e), StopEnding(e))
      else Prepend(EventChunks(e, usageSeen), EventCosts(e),
                   OutputOf(Live(rest), usageSeen || IsUsage(e), done, closing))
  {
    hide EventChunks, EventCosts, StopEnding, IsUsage, Stops;
    LiveCons(e, rest);
    hide Live;
    if Stops(e) {
      assert [e] + [] == [e];
      OneEvent(e, [], usageSeen);
      assert EventChunks(e, usageSeen) + [] == EventChunks(e, usageSeen) && EventCosts(e) + [] == EventCosts(e);
    } else {
      var live := Live(rest);
      OneEvent(e, live, usageSeen);
      assert live != [] ==> ([e] + live)[|live|] == live[|live| - 1];
    }
  }

  lemma OneEvent(e: Parsed, rest: seq<Parsed>, usageSeen: bool)
    ensures Emitted([e] + rest, usageSeen) == EventChunks(e, usageSeen) + Emitted(rest, usageSeen || IsUsage(e))
    ensures LedgerCosts([e] + rest) == EventCosts(e) + LedgerCosts(rest)
  {
    assert ([e] + rest)[1..] == rest && ([e] + rest)[0] == e;
  }

  // The line-by-line run delivers what the events of the lines stand for.
  lemma {:induction false} RunIsEvents(parse: JsonParser, lines: seq<string>, eventType: Option<string>, usageSeen: bool,
                                       closing: Option<StreamError>)
    ensures Run(parse, lines, eventType, usageSeen, closing) ==
            OutputOf(Live(Events(parse, lines, eventType)), usageSeen, HasDoneMark(lines), closing)
    decreases |lines|
  {
    hide Classify, ParseSseChunk, EventChunks, EventCosts, StopEnding, IsUsage, Stops, Run, OutputOf, Live;
    if lines == [] {
      RunNothing(parse, eventType, usageSeen, closing);
      NoEvents(usageSeen, false, closing);
    } else {
      var line, rest := lines[0], lines[1..];
      assert lines == [line] + rest;
      RunStep(parse, line, rest, eventType, usageSeen, closing);
      match Classify(line)
      case EventLine(t) =>
        RunIsEvents(parse, rest, Some(t), usageSeen, closing);
        PrependNothing(Run(parse, rest, Some(t), usageSeen, closing));
      case OtherLine =>
        RunIsEvents(parse, rest, eventType, usageSeen, closing);
        PrependNothing(Run(parse, rest, eventType, usageSeen, closing));
      case DataLine(data) =>
        if data == "[DONE]" {
          NoEvents(usageSeen, true, closing);
        } else {
          var e := ParseSseChunk(parse, data, eventType);
          assert HasDoneMark(lines) == HasDoneMark(rest);
          if e == Skip {
            RunIsEvents(parse, rest, eventType, usageSeen, closing);
            PrependNothing(Run(parse, rest, eventType, usageSeen, closing));
          } else {
            OutputCons(e, Events(parse, rest, eventType), usageSeen, HasDoneMark(rest), closing);
            RunIsEvents(parse, rest, eventType, usageSeen || IsUsage(e), closing);
          }
        }
    }
  }

  lemma PrependNothing(o: Output)
    ensures Prepend([], [], o) == o
  {
    assert [] + o.chunks == o.chunks && [] + o.costs == o.costs;
  }

  lemma NoEvents(usageSeen: bool, done: bool, closing: Option<StreamError>)
    ensures OutputOf(Live([]), usageSeen, done, closing) ==
            Output([], [], if done || closing.None? then Completed else Failed(closing.value))
  {
  }

  lemma RunIsStreamOutput(parse: JsonParser, text: string, closing: Option<StreamError>)
    ensures Run(parse, Lines(text), None, false, closing) == StreamOutput(parse, text, closing)
  {
    var live := Live(Events(parse, Lines(text), None));
    RunIsEvents(parse, Lines(text), None, false, closing);
    EmittedIsAll(live, 0);
    assert live[0..] == live;
  }

  // ----- the buffering loop

  function Concat(pieces: seq<string>): string {
    if pieces == [] then "" else pieces[0] + Concat(pieces[1..])
  }

  lemma NextPiece(buffer: string, pieces: seq<string>, i: nat)
    requires i < |pieces|
    ensures buffer + Concat(pieces[i..]) == (buffer + pieces[i]) + Concat(pieces[i + 1..])
  {
    assert pieces[i..][0] == pieces[i] && pieces[i..][1..] == pieces[i + 1..];
  }

  lemma NoPiece(buffer: string, pieces: seq<string>)
    ensures buffer + Concat(pieces[|pieces|..]) == buffer
  {
  }

  // A line that is complete in the buffer is the first line of the buffer and all that follows.
  lemma LineInBuffer(buffer: string, rest: string)
    requires NewlineAt(buffer) < |buffer|
    ensures var n := NewlineAt(buffer); Lines(buffer + rest) == [buffer[..n]] + Lines(buffer[n + 1..] + rest)
  {
    var n := NewlineAt(buffer);
    var all := buffer + rest;
    assert all[..n] == buffer[..n] && all[n] == '\n' && all[n + 1..] == buffer[n + 1..] + rest;
    NewlineAtIs(all, n);
  }

  // The two kinds of event whose chunks are looked at again.
  lemma SpecialKinds(kind: string, p: Payload)
    ensures kind == FINAL ==> MapChunk(kind, p).Some? && MapChunk(kind, p).value.Finish?
    ensures kind == USAGE <==> MapChunk(kind, p).Some? && MapChunk(kind, p).value.Usage?
    ensures kind == USAGE ==> MapChunk(kind, p).value.cost == p.usage.provisionalCost
  {
    assert FINAL[6] == 'f' && USAGE[6] == 'u';
  }

  // The part of the loop body that deals with an event.
  method HandleEvent(kind: string, payload: Payload, lastEventType: Option<string>, usageSeen: bool) returns (h: Handled)
    ensures var e := Event(kind, payload);
      h == if Stops(e) then Handled(lastEventType, usageSeen, EventChunks(e, usageSeen), EventCosts(e), Some(StopEnding(e)))
           else Handled(lastEventType, usageSeen || IsUsage(e), EventChunks(e, usageSeen), EventCosts(e), None)
  {
    SpecialKinds(kind, payload);
    hide MapChunk, MapUsageEvent;
    var chunks: seq<ProviderChunk>, costs: seq<Cost> := [], [];
    var seen := usageSeen;
    if kind == FINAL && !usageSeen && payload.finalUsage.Some? {
      seen := true;
      chunks := [MapUsageEvent(payload.finalUsage.value)];
    }
    var mapped := MapChunk(kind, payload);
    if mapped.None? {
      return Handled(lastEventType, usageSeen, chunks, [], Some(Failed(UnhandledError(Event(kind, payload)))));
    }
    if mapped.value.Usage? {
      seen := true;
      if mapped.value.cost.Some? {
        costs := [mapped.value.cost.value];
      }
    }
    chunks := chunks + [mapped.value];
    if IsTerminal(mapped.value) {
      return Handled(lastEventType, usageSeen, chunks, costs, Some(Completed));
    }
    return Handled(lastEventType, seen, chunks, costs, None);
  }

  /** One pass through the loop body: one complete line, without its newline. */
  method HandleLine(parse: JsonParser, rawLine: string, lastEventType: Option<string>, usageSeen: bool) returns (h: Handled)
    ensures h == Handle(parse, rawLine, lastEventType, usageSeen)
  {
    hide EventChunks, EventCosts, StopEnding, MapChunk, JsTrim, Chomp;
    var line := Chomp(rawLine);
    if "event:" <= line {
      return Handled(Some(JsTrim(line[6..])), usageSeen, [], [], None);
    }
    if !("data:" <= line) {
      return Handled(lastEventType, usageSeen, [], [], None);
    }
    var data := JsTrim(line[5..]);
    if data == "[DONE]" {
      return Handled(lastEventType, usageSeen, [], [], Some(Completed));
    }
    var parsed := ParseSseChunk(parse, data, lastEventType);
    if parsed.Skip? {
      return Handled(lastEventType, usageSeen, [], [], None);
    }
    if parsed.Unhandled? {
      UnhandledStops(usageSeen);
      return Handled(lastEventType, usageSeen, [], [], Some(Failed(UnhandledError(parsed))));
    }
    h := HandleEvent(parsed.kind, parsed.payload, lastEventType, usageSeen);
  }

  lemma UnhandledStops(usageSeen: bool)
    ensures Stops(Unhandled) && EventChunks(Unhandled, usageSeen) == [] && EventCosts(Unhandled) == []
    ensures StopEnding(Unhandled) == Failed(UnhandledError(Unhandled))
  {
  }

  lemma NoLine(buffer: string)
    requires NewlineAt(buffer) == |buffer|
    ensures Lines(buffer) == []
  {
  }

  /**
   Reads arrive in arbitrary pieces; what is delivered depends only on their concatenation.
   `closing` is the error reading ends with, if it does not end normally.
   */
  method Stream(parse: JsonParser, pieces: seq<string>, closing: Option<StreamError>) returns (out: Output)
    ensures out == StreamOutput(parse, Concat(pieces), closing)
  {
    hide Handle, StreamOutput, Lines, Run, Concat;
    var buffer := "";
    var lastEventType: Option<string> := None;
    var usageSeen := false;
    var chunks: seq<ProviderChunk>, costs: seq<Cost> := [], [];
    ghost var goal := StreamOutput(parse, Concat(pieces), closing);
    RunIsStreamOutput(parse, Concat(pieces), closing);
    assert pieces[0..] == pieces && "" + Concat(pieces) == Concat(pieces);
    PrependNothing(goal);
    for i := 0 to |pieces|
      invariant NewlineAt(buffer) == |buffer|
      invariant goal == Prepend(chunks, costs, Run(parse, Lines(buffer + Concat(pieces[i..])), lastEventType, usageSeen, closing))
    {
      ghost var rest := Concat(pieces[i + 1..]);
      NextPiece(buffer, pieces, i);
      buffer := buffer + pieces[i];
      while NewlineAt(buffer) < |buffer|
        invariant goal == Prepend(chunks, costs, Run(parse, Lines(buffer + rest), lastEventType, usageSeen, closing))
        decreases |buffer|
      {
        var nlIndex := NewlineAt(buffer);
        LineInBuffer(buffer, rest);
        RunStep(parse, buffer[..nlIndex], Lines(buffer[nlIndex + 1..] + rest), lastEventType, usageSeen, closing);
        var h := HandleLine(parse, buffer[..nlIndex], lastEventType, usageSeen);
        buffer := buffer[nlIndex + 1..];
        chunks, costs := chunks + h.chunks, costs + h.costs;
        if h.stop.Some? {
          return Output(chunks, costs, h.stop.value);
        }
        lastEventType, usageSeen := h.eventType, h.usageSeen;
      }
    }
    NoPiece(buffer, pieces);
    NoLine(buffer);
    RunNothing(parse, lastEventType, usageSeen, closing);
    return Output(chunks, costs, if closing.None? then Completed else Failed(closing.value));
  }

  // ----- what the stream promises

  lemma {:induction false} LiveStopsLast(events: seq<Parsed>)
    ensures forall i :: 0 <= i < |Live(events)| - 1 ==> !Stops(Live(events)[i])
  {
    if events != [] && !Stops(events[0]) {
      LiveStopsLast(events[1..]);
    }
  }

  lemma {:induction false} NothingTerminal(events: seq<Parsed>, n: nat)
    requires n <= |events| && forall i :: 0 <= i < n ==> !Stops(events[i])
    ensures forall c :: c in AllChunks(events, n) ==> !IsTerminal(c)
  {
    if n > 0 {
      NothingTerminal(events, n - 1);
    }
  }

  lemma OneTerminal(events: seq<Parsed>, i: nat)
    requires i < |events|
    ensures var c := ChunksOf(events, i); |c| <= 2 && (|c| == 2 ==> !IsTerminal(c[0]))
  {
    hide MapChunk;
  }

  lemma TerminalOnlyLast(before: seq<ProviderChunk>, last: seq<ProviderChunk>)
    requires forall c :: c in before ==> !IsTerminal(c)
    requires |last| <= 2 && (|last| == 2 ==> !IsTerminal(last[0]))
    ensures forall i :: 0 <= i < |before + last| - 1 ==> !IsTerminal((before + last)[i])
  {
    hide IsTerminal;
    assert forall i :: 0 <= i < |before| ==> (before + last)[i] == before[i] && before[i] in before;
  }

  /** At most one finish or error is delivered, and nothing comes after it. */
  lemma TerminalIsLast(parse: JsonParser, text: string, closing: Option<StreamError>)
    ensures var chunks := StreamOutput(parse, text, closing).chunks;
            forall i :: 0 <= i < |chunks| - 1 ==> !IsTerminal(chunks[i])
  {
    hide IsTerminal, Stops, Events, Lines, Live, EventChunks, UsageBefore;
    var live := Live(Events(parse, Lines(text), None));
    LiveStopsLast(Events(parse, Lines(text), None));
    if live != [] {
      NothingTerminal(live, |live| - 1);
      OneTerminal(live, |live| - 1);
      TerminalOnlyLast(AllChunks(live, |live| - 1), ChunksOf(live, |live| - 1));
    }
  }

  function CountUsage(chunks: seq<ProviderChunk>): nat {
    if chunks == [] then 0 else (if chunks[0].Usage? then 1 else 0) + CountUsage(chunks[1..])
  }

  function CountUsageEvents(events: seq<Parsed>, n: nat): nat
    requires n <= |events|
  {
    if n == 0 then 0 else CountUsageEvents(events, n - 1) + if IsUsage(events[n - 1]) then 1 else 0
  }

  lemma {:induction false} CountUsageConcat(x: seq<ProviderChunk>, y: seq<ProviderChunk>)
    ensures CountUsage(x + y) == CountUsage(x) + CountUsage(y)
  {
    if x == [] {
      assert x + y == y;
    } else {
      assert (x + y)[1..] == x[1..] + y;
      CountUsageConcat(x[1..], y);
    }
  }

  // The event carries usage figures of its own, beside the finish it stands for.
  predicate FinalWithUsage(e: Parsed) {
    e.Event? && e.kind == FINAL && e.payload.finalUsage.Some?
  }

  lemma UsageOfOne(e: Parsed, usageSeen: bool)
    ensures CountUsage(EventChunks(e, usageSeen)) ==
            (if IsUsage(e) then 1 else 0) + (if FinalWithUsage(e) && !usageSeen then 1 else 0)
    ensures FinalWithUsage(e) ==> Stops(e)
  {
    if e.Event? {
      SpecialKinds(e.kind, e.payload);
      hide MapChunk;
      var m := MapChunk(e.kind, e.payload);
      if m.Some? {
        assert CountUsage([m.value]) == if m.value.Usage? then 1 else 0;
        if FinalWithUsage(e) {
          var u := MapUsageEvent(e.payload.finalUsage.value);
          assert [u, m.value][1..] == [m.value];
        }
      }
    }
  }

  lemma {:induction false} UsageCounted(events: seq<Parsed>, n: nat)
    requires n <= |events| && forall i :: 0 <= i < n - 1 ==> !Stops(events[i])
    ensures CountUsage(AllChunks(events, n)) == CountUsageEvents(events, n) +
            if n > 0 && FinalWithUsage(events[n - 1]) && !UsageBefore(events, n - 1) then 1 else 0
  {
    if n > 0 {
      hide EventChunks, IsUsage, FinalWithUsage, Stops;
      UsageCounted(events, n - 1);
      if n > 1 {
        UsageOfOne(events[n - 2], false);
      }
      UsageOfOne(events[n - 1], UsageBefore(events, n - 1));
      CountUsageConcat(AllChunks(events, n - 1), ChunksOf(events, n - 1));
    }
  }

  /**
   The usage chunks delivered are those of the usage events, and one more exactly when the
   stream ends in a final event that carries usage figures and no usage event came before it.
   */
  lemma UsageSynthesisedOnce(parse: JsonParser, text: string, closing: Option<StreamError>)
    ensures var live := Live(Events(parse, Lines(text), None));
      CountUsage(StreamOutput(parse, text, closing).chunks) == CountUsageEvents(live, |live|) +
      if live != [] && FinalWithUsage(live[|live| - 1]) && !UsageBefore(live, |live| - 1) then 1 else 0
  {
    hide Stops, FinalWithUsage, UsageBefore, Lines, Events, Live, AllChunks, CountUsage, CountUsageEvents, LedgerCosts,
      EndingOf, HasDoneMark;
    var events := Events(parse, Lines(text), None);
    LiveStopsLast(events);
    UsageCounted(Live(events), |Live(events)|);
  }

  // ----- what each chunk carries

  // The figure under the first name that is given: units, tokens, nested tokens.
  function Figure(units: Option<int>, tokens: Option<int>, nested: Option<int>): Option<int> {
    if units.Some? then units else if tokens.Some? then tokens else nested
  }

  predicate CarriesUsage(c: ProviderChunk, u: UsagePayload) {
    && c.Usage? && c.cacheWrite == None && c.cost == u.provisionalCost
    && c.input == Figure(u.inputUnits, u.inputTokens, u.nestedInputTokens).GetOr(0)
    && c.output == Figure(u.outputUnits, u.outputTokens, u.nestedOutputTokens).GetOr(0)
    && c.cacheRead == Figure(u.cacheUnits, u.cacheReadTokens, u.nestedCacheReadTokens)
  }

  predicate IsKnown(kind: string) {
    kind == "capix.route" || kind == "content.delta" || kind == "tool.delta"
    || kind == "capix.usage" || kind == "capix.final" || kind == "capix.error"
  }

  // The chunk has what the payload has under each name, for each type of event.
  predicate Carries(c: ProviderChunk, e: Parsed) {
    && e.Event?
    && var p := e.payload;
       && (e.kind == "capix.route" ==>
             c.Route? && c.receiptId == p.receiptId && c.model == p.modelCapability
             && c.region == p.region && c.privacyClass == p.privacyClass)
       && (e.kind == "content.delta" ==> c.TextDelta? && c.delta == p.content)
       && (e.kind == "tool.delta" ==> c.ToolDelta? && c.toolCallId == p.toolCallId && c.index == p.index && c.fn == p.fn)
       && (e.kind == "capix.usage" ==> CarriesUsage(c, p.usage))
       && (e.kind == "capix.final" ==>
             c.Finish? && c.finishReason == p.finishReason && c.receiptId == p.receiptId && c.retryCount == p.retryCount)
       && (e.kind == "capix.error" ==> c.ErrorChunk? && c.error == p.error)
  }

  // What the last event delivers: nothing when its type is unknown, and for a final event that
  // brings the first figures of the stream, those before its finish.
  predicate CarriesLast(chunks: seq<ProviderChunk>, e: Parsed, usageBefore: bool) {
    if !e.Event? || !IsKnown(e.kind) then chunks == []
    else if e.kind == "capix.final" && e.payload.finalUsage.Some? && !usageBefore then
      |chunks| == 2 && CarriesUsage(chunks[0], e.payload.finalUsage.value) && Carries(chunks[1], e)
    else |chunks| == 1 && Carries(chunks[0], e)
  }

  lemma KnownIsMapped(kind: string, p: Payload)
    ensures MapChunk(kind, p).Some? <==> IsKnown(kind)
    ensures MapChunk(kind, p).Some? ==> Carries(MapChunk(kind, p).value, Event(kind, p))
  {
  }

  lemma FiguresMapped(u: UsagePayload)
    ensures CarriesUsage(MapUsageEvent(u), u)
  {
  }

  lemma EventIsCarried(e: Parsed, usageSeen: bool)
    ensures CarriesLast(EventChunks(e, usageSeen), e, usageSeen)
    ensures !Stops(e) ==> |EventChunks(e, usageSeen)| == 1 && Carries(EventChunks(e, usageSeen)[0], e)
  {
    hide MapChunk, MapUsageEvent, Carries, CarriesUsage, IsKnown;
    if e.Event? {
      KnownIsMapped(e.kind, e.payload);
      SpecialKinds(e.kind, e.payload);
      if e.payload.finalUsage.Some? {
        FiguresMapped(e.payload.finalUsage.value);
      }
    }
  }

  lemma {:induction false} AllAreCarried(events: seq<Parsed>, n: nat)
    requires n <= |events| && forall i :: 0 <= i < n ==> !Stops(events[i])
    ensures |AllChunks(events, n)| == n
    ensures forall i :: 0 <= i < n ==> Carries(AllChunks(events, n)[i], events[i])
  {
    hide Stops, Carries, EventChunks, UsageBefore;
    if n > 0 {
      AllAreCarried(events, n - 1);
      EventIsCarried(events[n - 1], UsageBefore(events, n - 1));
    }
  }

  /**
   What is delivered, event by event: chunk number i carries event number i, field by field, and
   after them comes what the last event delivers.
   */
  lemma StreamCarriesEvents(parse: JsonParser, text: string, closing: Option<StreamError>)
    ensures var chunks, live := StreamOutput(parse, text, closing).chunks, Live(Events(parse, Lines(text), None));
      && (live == [] ==> chunks == [])
      && (live != [] ==>
            var n := |live| - 1;
            && n <= |chunks| && (forall i :: 0 <= i < n ==> Carries(chunks[i], live[i]))
            && CarriesLast(chunks[n..], live[n], exists j :: 0 <= j < n && live[j].Event? && live[j].kind == "capix.usage"))
  {
    hide Stops, Carries, CarriesLast, EventChunks, Events, Lines, Live, LedgerCosts, EndingOf, HasDoneMark;
    var live := Live(Events(parse, Lines(text), None));
    LiveStopsLast(Events(parse, Lines(text), None));
    if live != [] {
      var n := |live| - 1;
      AllAreCarried(live, n);
      EventIsCarried(live[n], UsageBefore(live, n));
      assert AllChunks(live, n + 1) == AllChunks(live, n) + ChunksOf(live, n);
      assert AllChunks(live, n + 1)[n..] == ChunksOf(live, n);
      assert UsageBefore(live, n) <==> exists j :: 0 <= j < n && live[j].Event? && live[j].kind == "capix.usage";
    }
  }

  // The costs that usage chunks bring.
  function CostsIn(chunks: seq<ProviderChunk>): seq<Cost> {
    if chunks == [] then [] else
      var c := chunks[|chunks| - 1];
      CostsIn(chunks[..|chunks| - 1]) + if c.Usage? && c.cost.Some? then [c.cost.value] else []
  }

  lemma LedgerSnoc(events: seq<Parsed>, e: Parsed)
    ensures LedgerCosts(events + [e]) == LedgerCosts(events) + EventCosts(e)
    decreases |events|
  {
    hide EventCosts;
    if events == [] {
      OneEvent(e, [], false);
      assert [] + [e] == [e] + [] && EventCosts(e) + [] == [] + EventCosts(e);
    } else {
      LedgerSnoc(events[1..], e);
      assert (events + [e])[1..] == events[1..] + [e];
    }
  }

  lemma CarriedCost(c: ProviderChunk, e: Parsed)
    requires Carries(c, e) && IsKnown(e.kind)
    ensures EventCosts(e) == if c.Usage? && c.cost.Some? then [c.cost.value] else []
  {
  }

  lemma {:induction false} LedgerHasCosts(events: seq<Parsed>, chunks: seq<ProviderChunk>)
    requires |chunks| == |events|
    requires forall i :: 0 <= i < |chunks| ==> Carries(chunks[i], events[i]) && IsKnown(events[i].kind)
    ensures LedgerCosts(events) == CostsIn(chunks)
  {
    hide Carries, IsKnown, EventCosts;
    if events != [] {
      var n := |events| - 1;
      LedgerHasCosts(events[..n], chunks[..n]);
      CarriedCost(chunks[n], events[n]);
      LedgerSnoc(events[..n], events[n]);
      assert events == events[..n] + [events[n]];
    }
  }

  lemma LastCosts(chunks: seq<ProviderChunk>, e: Parsed, usageBefore: bool)
    requires CarriesLast(chunks, e, usageBefore)
    ensures EventCosts(e) == if e.Event? && e.kind == "capix.final" then [] else CostsIn(chunks)
  {
    if |chunks| == 1 {
      CarriedCost(chunks[0], e);
      assert chunks[..0] == [];
    }
    hide Carries, CarriesUsage;
  }

  lemma {:induction false} CostsInConcat(x: seq<ProviderChunk>, y: seq<ProviderChunk>)
    ensures CostsIn(x + y) == CostsIn(x) + CostsIn(y)
    decreases |y|
  {
    if y == [] {
      assert x + y == x;
    } else {
      CostsInConcat(x, y[..|y| - 1]);
      assert (x + y)[..|x + y| - 1] == x + y[..|y| - 1];
    }
  }

  /** Each cost delivered with a usage event is entered in the ledger once, in order, and that of a final event is not. */
  lemma CostsEntered(parse: JsonParser, text: string, closing: Option<StreamError>)
    ensures var o, live := StreamOutput(parse, text, closing), Live(Events(parse, Lines(text), None));
      var final := live != [] && live[|live| - 1].Event? && live[|live| - 1].kind == "capix.final";
      if final then |live| - 1 <= |o.chunks| && o.costs == CostsIn(o.chunks[..|live| - 1]) else o.costs == CostsIn(o.chunks)
  {
    hide Stops, Carries, CarriesLast, EventChunks, Events, Lines, Live, LedgerCosts, EndingOf, HasDoneMark, CostsIn, AllChunks, EventCosts, IsKnown;
    StreamCarriesEvents(parse, text, closing);
    var o, live := StreamOutput(parse, text, closing), Live(Events(parse, Lines(text), None));
    if live != [] {
      var n := |live| - 1;
      LiveStopsLast(Events(parse, Lines(text), None));
      AllKnown(live, n);
      LedgerHasCosts(live[..n], o.chunks[..n]);
      LedgerSnoc(live[..n], live[n]);
      assert live == live[..n] + [live[n]] && o.chunks == o.chunks[..n] + o.chunks[n..];
      LastCosts(o.chunks[n..], live[n], exists j :: 0 <= j < n && live[j].Event? && live[j].kind == "capix.usage");
      CostsInConcat(o.chunks[..n], o.chunks[n..]);
    } else {
      NoCosts();
    }
  }

  lemma NoCosts()
    ensures LedgerCosts([]) == [] == CostsIn([])
  {
  }

  lemma AllKnown(events: seq<Parsed>, n: nat)
    requires n <= |events| && forall i :: 0 <= i < n ==> !Stops(events[i])
    ensures forall i :: 0 <= i < n ==> events[i].Event? && IsKnown(events[i].kind)
  {
    forall i | 0 <= i < n
      ensures events[i].Event? && IsKnown(events[i].kind)
    {
      KnownIsMapped(events[i].kind, events[i].payload);
    }
    hide IsKnown;
  }

  // ----- what is written is read

  // A gateway writes an event as a line for its type, a line for its data, and an empty line.
  datatype Frame = Frame(kind: string, data: string)

  // Text on one line with nothing to trim.
  predicate IsPlain(s: string) {
    s != "" && '\n' !in s && !IsJsSpace(s[0]) && !IsJsSpace(s[|s| - 1])
  }

  predicate IsFrame(f: Frame) {
    IsPlain(f.kind) && IsPlain(f.data) && f.data[0] != ':' && f.data != "[DONE]"
  }

  function TypeLine(f: Frame): string {
    "event:" + (" " + f.kind)
  }

  function DataText(f: Frame): string {
    "data:" + (" " + (f.data + "\r"))
  }

  function DoneLine(): string {
    "data:" + (" " + "[DONE]")
  }

  function Ended(line: string, rest: string): string {
    line + "\n" + rest
  }

  function Written(frames: seq<Frame>): string {
    if frames == [] then "" else Ended(TypeLine(frames[0]), Ended(DataText(frames[0]), Ended("", Written(frames[1..]))))
  }

  lemma FirstLine(line: string, rest: string)
    requires '\n' !in line
    ensures Lines(Ended(line, rest)) == [line] + Lines(rest)
  {
    var all := Ended(line, rest);
    assert all[..|line|] == line && all[|line|] == '\n' && all[|line| + 1..] == rest;
    NewlineAtIs(all, |line|);
  }

  lemma EndedConcat(line: string, rest: string, more: string)
    ensures Ended(line, rest) + more == Ended(line, rest + more)
  {
  }

  lemma TrimsSpace(s: string)
    requires IsPlain(s)
    ensures JsTrim(" " + s) == s
  {
    assert (" " + s)[1..] == s;
    assert TrimStart(s, IsJsSpace) == s;
    NothingToTrim(s, IsJsSpace);
  }

  lemma LineOfType(line: string, t: string)
    requires Chomp(line) == "event:" + t
    ensures Classify(line) == EventLine(JsTrim(t))
  {
    assert Chomp(line)[6..] == t;
    hide JsTrim, Chomp;
  }

  lemma LineOfData(line: string, data: string)
    requires Chomp(line) == "data:" + data
    ensures Classify(line) == DataLine(JsTrim(data))
  {
    assert Chomp(line)[5..] == data && Chomp(line)[0] == 'd';
    hide JsTrim, Chomp;
  }

  lemma NoNewline(start: string, rest: string)
    requires '\n' !in start && '\n' !in rest
    ensures '\n' !in start + rest
  {
  }

  lemma TypeLineIs(f: Frame)
    requires IsFrame(f)
    ensures '\n' !in TypeLine(f) && Classify(TypeLine(f)) == EventLine(f.kind)
  {
    NoNewline(" ", f.kind);
    NoNewline("event:", " " + f.kind);
    LastChar("event:", " " + f.kind);
    LastChar(" ", f.kind);
    TrimsSpace(f.kind);
    hide JsTrim, Classify;
    LineOfType(TypeLine(f), " " + f.kind);
  }

  // Only a carriage return at the end is cut off.
  lemma LastChar(start: string, rest: string)
    requires rest != ""
    ensures (start + rest)[|start + rest| - 1] == rest[|rest| - 1]
    ensures rest[|rest| - 1] != '\r' ==> Chomp(start + rest) == start + rest
    ensures rest[|rest| - 1] == '\r' ==> Chomp(start + rest) == start + rest[..|rest| - 1]
  {
  }

  lemma DataTextIs(f: Frame)
    requires IsFrame(f)
    ensures '\n' !in DataText(f) && Classify(DataText(f)) == DataLine(f.data)
  {
    var tail := " " + (f.data + "\r");
    NoNewline(f.data, "\r");
    NoNewline(" ", f.data + "\r");
    NoNewline("data:", tail);
    LastChar("data:", tail);
    assert tail[..|tail| - 1] == " " + f.data;
    TrimsSpace(f.data);
    hide JsTrim, Classify;
    LineOfData(DataText(f), " " + f.data);
  }

  lemma EmptyLineIs()
    ensures Classify("") == OtherLine
  {
  }

  // The lines of a frame and what follows it.
  lemma FrameLines(f: Frame, rest: string)
    requires IsFrame(f)
    ensures Lines(Ended(TypeLine(f), Ended(DataText(f), Ended("", rest)))) == [TypeLine(f)] + ([DataText(f)] + ([""] + Lines(rest)))
  {
    TypeLineIs(f);
    DataTextIs(f);
    hide Lines, Ended, TypeLine, DataText, IsFrame, Classify;
    FirstLine(TypeLine(f), Ended(DataText(f), Ended("", rest)));
    FirstLine(DataText(f), Ended("", rest));
    FirstLine("", rest);
  }

  lemma AfterType(parse: JsonParser, line: string, t: string, rest: seq<string>, eventType: Option<string>)
    requires Classify(line) == EventLine(t)
    ensures Events(parse, [line] + rest, eventType) == Events(parse, rest, Some(t))
  {
    hide Classify, ParseSseChunk;
    assert ([line] + rest)[1..] == rest && ([line] + rest)[0] == line;
  }

  lemma AfterOther(parse: JsonParser, line: string, rest: seq<string>, eventType: Option<string>)
    requires Classify(line) == OtherLine
    ensures Events(parse, [line] + rest, eventType) == Events(parse, rest, eventType)
  {
    hide Classify, ParseSseChunk;
    assert ([line] + rest)[1..] == rest && ([line] + rest)[0] == line;
  }

  lemma AfterData(parse: JsonParser, line: string, data: string, rest: seq<string>, eventType: Option<string>)
    requires Classify(line) == DataLine(data)
    ensures data == "[DONE]" ==> Events(parse, [line] + rest, eventType) == [] && HasDoneMark([line] + rest)
    ensures data != "[DONE]" && ParseSseChunk(parse, data, eventType) != Skip ==>
      Events(parse, [line] + rest, eventType) == [ParseSseChunk(parse, data, eventType)] + Events(parse, rest, eventType)
  {
    hide Classify, ParseSseChunk;
    assert ([line] + rest)[1..] == rest && ([line] + rest)[0] == line;
  }

  // The event a frame stands for: its data's own type comes first.
  function EventOf(parse: JsonParser, f: Frame): Parsed
    requires parse(f.data).Object?
  {
    Event(parse(f.data).kind.GetOr(f.kind), parse(f.data).payload)
  }

  lemma FrameIsParsed(parse: JsonParser, f: Frame)
    requires IsFrame(f) && parse(f.data).Object?
    ensures f.data != "[DONE]" && ParseSseChunk(parse, f.data, Some(f.kind)) == EventOf(parse, f)
  {
  }

  lemma FrameIsRead(parse: JsonParser, f: Frame, rest: seq<string>, eventType: Option<string>)
    requires IsFrame(f) && parse(f.data).Object?
    ensures Events(parse, [TypeLine(f)] + ([DataText(f)] + ([""] + rest)), eventType) ==
            [EventOf(parse, f)] + Events(parse, rest, Some(f.kind))
  {
    TypeLineIs(f);
    DataTextIs(f);
    EmptyLineIs();
    FrameIsParsed(parse, f);
    hide Classify, Events, IsFrame, TypeLine, DataText, ParseSseChunk;
    AfterType(parse, TypeLine(f), f.kind, [DataText(f)] + ([""] + rest), eventType);
    AfterData(parse, DataText(f), f.data, [""] + rest, Some(f.kind));
    AfterOther(parse, "", rest, Some(f.kind));
  }

  function EventsOf(parse: JsonParser, frames: seq<Frame>): seq<Parsed>
    requires forall f :: f in frames ==> parse(f.data).Object?
  {
    seq(|frames|, i requires 0 <= i < |frames| => EventOf(parse, frames[i]))
  }

  /**
   What is written is read: the events of a stream of frames are its frames in order, each under the
   type that its own data names, or else under the type of its frame; the rest of the text follows.
   */
  lemma {:induction false} FramesAreRead(parse: JsonParser, frames: seq<Frame>, rest: string, eventType: Option<string>)
    requires forall f :: f in frames ==> IsFrame(f) && parse(f.data).Object?
    ensures Events(parse, Lines(Written(frames) + rest), eventType) ==
            EventsOf(parse, frames) + Events(parse, Lines(rest), if frames == [] then eventType else Some(frames[|frames| - 1].kind))
    decreases |frames|
  {
    hide Events, Lines, IsFrame, Ended, TypeLine, DataText, EventOf;
    if frames == [] {
      assert Written(frames) + rest == rest;
    } else {
      var f, tail := frames[0], frames[1..];
      assert f in frames && forall g :: g in tail ==> g in frames;
      FramesAreRead(parse, tail, rest, Some(f.kind));
      FrameLines(f, Written(tail) + rest);
      FrameIsRead(parse, f, Lines(Written(tail) + rest), eventType);
      EndedConcat(TypeLine(f), Ended(DataText(f), Ended("", Written(tail))), rest);
      EndedConcat(DataText(f), Ended("", Written(tail)), rest);
      EndedConcat("", Written(tail), rest);
      assert EventsOf(parse, frames) == [EventOf(parse, f)] + EventsOf(parse, tail);
    }
  }

  lemma PlainDataIs(data: string)
    requires IsPlain(data)
    ensures '\n' !in "data:" + (" " + data) && Classify("data:" + (" " + data)) == DataLine(data)
  {
    NoNewline(" ", data);
    NoNewline("data:", " " + data);
    LastChar("data:", " " + data);
    LastChar(" ", data);
    TrimsSpace(data);
    hide JsTrim, Classify;
    LineOfData("data:" + (" " + data), " " + data);
  }

  lemma DoneIsPlain()
    ensures IsPlain("[DONE]")
  {
  }

  lemma DoneLineIs()
    ensures '\n' !in DoneLine() && Classify(DoneLine()) == DataLine("[DONE]")
  {
    hide Classify, IsPlain;
    DoneIsPlain();
    PlainDataIs("[DONE]");
  }

  /** The end mark ends a stream, whatever comes after it. */
  lemma DoneEnds(parse: JsonParser, rest: string, eventType: Option<string>)
    ensures var lines := Lines(Ended(DoneLine(), rest)); Events(parse, lines, eventType) == [] && HasDoneMark(lines)
  {
    DoneLineIs();
    hide Lines, Events, Classify, DoneLine, HasDoneMark;
    FirstLine(DoneLine(), rest);
    AfterData(parse, DoneLine(), "[DONE]", Lines(rest), eventType);
  }
}
