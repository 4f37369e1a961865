/**
 What the engine sees of a whole exchange, in terms of the events on the wire: which parts, in which
 order, with which figures, and how it ends. All attempts count here, those that were given up too.
 */
module Wire {
  import opened Wrappers
  import opened ProviderTypes
  import opened EventStream
  import opened ModelStream
  import opened RetryLoop
  import opened Pipeline

  // ----- what can be seen of chunks and of events

  // The figures that one usage chunk brings.
  datatype Figures = Figures(totals: UsageTotals, cost: Option<Cost>)

  // The parts that carry something, the figures, and what the runtime is handed, each in order.
  datatype Sight = Sight(parts: seq<Part>, figures: seq<Figures>, runtime: seq<RuntimeChunk>)

  const NO_SIGHT := Sight([], [], [])

  function Then(a: Sight, b: Sight): Sight {
    Sight(a.parts + b.parts, a.figures + b.figures, a.runtime + b.runtime)
  }

  lemma ThenAssociates(a: Sight, b: Sight, c: Sight)
    ensures Then(Then(a, b), c) == Then(a, Then(b, c))
  {
    assert a.parts + b.parts + c.parts == a.parts + (b.parts + c.parts);
    assert a.figures + b.figures + c.figures == a.figures + (b.figures + c.figures);
    assert a.runtime + b.runtime + c.runtime == a.runtime + (b.runtime + c.runtime);
  }

  lemma ThenNothing(a: Sight)
    ensures Then(a, NO_SIGHT) == a == Then(NO_SIGHT, a)
  {
    assert a.parts + [] == a.parts == [] + a.parts;
    assert a.figures + [] == a.figures == [] + a.figures;
    assert a.runtime + [] == a.runtime == [] + a.runtime;
  }

  // Figures on their way to the engine and to the runtime, which is told zero where no cost is known.
  function FiguresSight(f: Figures): Sight {
    Sight([], [f], [RuntimeUsage(f.totals.input, f.totals.output, if f.cost.Some? then f.cost.value.amount else "0")])
  }

  function SightOf(c: ProviderChunk): Sight {
    match c
    case Route(receiptId, model, _, _) => Sight([ResponseMetadata(receiptId, model)], [], [])
    case TextDelta(delta) => Sight([Text(delta)], [], [RuntimeText(delta)])
    case ReasoningDelta(delta) => Sight([Reasoning(delta)], [], [RuntimeReasoning(delta)])
    case ToolDelta(id, _, _) => Sight(if Arguments(c) == "" then [] else [ToolInput(id, Arguments(c))], [], [])
    case Usage(input, output, cacheRead, cacheWrite, cost) => FiguresSight(Figures(UsageTotals(input, output, cacheRead, cacheWrite), cost))
    case _ => NO_SIGHT
  }

  function Sights(chunks: seq<ProviderChunk>): Sight {
    if chunks == [] then NO_SIGHT else Then(Sights(chunks[..|chunks| - 1]), SightOf(chunks[|chunks| - 1]))
  }

  // The figures of a payload: units come before tokens, and tokens before nested tokens.
  function FiguresOn(u: UsagePayload): Figures {
    Figures(UsageTotals(Figure(u.inputUnits, u.inputTokens, u.nestedInputTokens).GetOr(0),
                        Figure(u.outputUnits, u.outputTokens, u.nestedOutputTokens).GetOr(0),
                        Figure(u.cacheUnits, u.cacheReadTokens, u.nestedCacheReadTokens), None),
            u.provisionalCost)
  }

  // What one event shows. The figures of a final event count when the response had none before.
  function EventSight(e: Parsed, figuresBefore: bool): Sight {
    if !e.Event? then NO_SIGHT else
      var p := e.payload;
      if e.kind == "capix.route" then Sight([ResponseMetadata(p.receiptId, p.modelCapability)], [], [])
      else if e.kind == "content.delta" then Sight([Text(p.content)], [], [RuntimeText(p.content)])
      else if e.kind == "tool.delta" then
        var given := if p.fn.Some? then p.fn.value.arguments.GetOr("") else "";
        Sight(if given == "" then [] else [ToolInput(p.toolCallId, given)], [], [])
      else if e.kind == "capix.usage" then FiguresSight(FiguresOn(p.usage))
      else if e.kind == "capix.final" && p.finalUsage.Some? && !figuresBefore then FiguresSight(FiguresOn(p.finalUsage.value))
      else NO_SIGHT
  }

  function WireSight(events: seq<Parsed>): Sight {
    if events == [] then NO_SIGHT else
      var before := WireSight(events[..|events| - 1]);
      Then(before, EventSight(events[|events| - 1], before.figures != []))
  }

  // The same over the first n attempts.
  function WireSights(parse: JsonParser, responses: Responses, n: nat): Sight {
    if n == 0 then NO_SIGHT else Then(WireSights(parse, responses, n - 1), WireSight(LiveEvents(parse, responses(n))))
  }

  // ----- chunks show what their events show

  lemma SightsSnoc(chunks: seq<ProviderChunk>, c: ProviderChunk)
    ensures Sights(chunks + [c]) == Then(Sights(chunks), SightOf(c))
  {
    assert (chunks + [c])[..|chunks|] == chunks;
    hide SightOf, Then;
  }

  lemma {:induction false} SightsConcat(x: seq<ProviderChunk>, y: seq<ProviderChunk>)
    ensures Sights(x + y) == Then(Sights(x), Sights(y))
    decreases |y|
  {
    hide SightOf;
    if y == [] {
      assert x + y == x;
      ThenNothing(Sights(x));
    } else {
      var n := |y| - 1;
      SightsConcat(x, y[..n]);
      assert x + y == (x + y[..n]) + [y[n]] && y == y[..n] + [y[n]];
      SightsSnoc(x + y[..n], y[n]);
      SightsSnoc(y[..n], y[n]);
      ThenAssociates(Sights(x), Sights(y[..n]), SightOf(y[n]));
    }
  }

  lemma OneSight(c: ProviderChunk)
    ensures Sights([c]) == SightOf(c)
  {
    SightsSnoc([], c);
    assert [] + [c] == [c];
    ThenNothing(SightOf(c));
    hide SightOf, Then;
  }

  lemma TwoSights(c: ProviderChunk, d: ProviderChunk)
    ensures Sights([c, d]) == Then(SightOf(c), SightOf(d))
  {
    OneSight(c);
    SightsSnoc([c], d);
    assert [c] + [d] == [c, d];
    hide SightOf, Then, Sights;
  }

  lemma UsageSight(c: ProviderChunk, u: UsagePayload)
    requires CarriesUsage(c, u)
    ensures SightOf(c) == FiguresSight(FiguresOn(u))
  {
    hide Figure;
  }

  // A chunk shows what the event shows that it carries.
  lemma CarriedSight(c: ProviderChunk, e: Parsed)
    requires Carries(c, e) && IsKnown(e.kind)
    ensures SightOf(c) == EventSight(e, true)
    ensures e.kind == "capix.final" ==> SightOf(c) == NO_SIGHT
  {
    hide CarriesUsage, FiguresOn;
    if e.kind == "capix.usage" {
      UsageSight(c, e.payload.usage);
    }
  }

  lemma ChunksShowEvent(e: Parsed, usageSeen: bool)
    ensures Sights(EventChunks(e, usageSeen)) == EventSight(e, usageSeen)
  {
    EventIsCarried(e, usageSeen);
    var chunks := EventChunks(e, usageSeen);
    hide EventChunks, Sights, SightOf, Carries, CarriesUsage, FiguresOn, FiguresSight;
    NoSights();
    if e.Event? && IsKnown(e.kind) {
      CarriedSight(chunks[|chunks| - 1], e);
      if |chunks| == 2 {
        TwoSights(chunks[0], chunks[1]);
        assert chunks == [chunks[0], chunks[1]];
        UsageSight(chunks[0], e.payload.finalUsage.value);
        ThenNothing(SightOf(chunks[0]));
      } else {
        OneSight(chunks[0]);
        assert chunks == [chunks[0]];
      }
      assert e.kind != "capix.final" ==> EventSight(e, usageSeen) == EventSight(e, true);
    }
  }

  // The chunks of the first n events show what the events show.
  ghost predicate ShowsTheWire(events: seq<Parsed>, n: nat)
    requires n <= |events|
  {
    Sights(AllChunks(events, n)) == WireSight(events[..n])
  }

  lemma NextWireSight(events: seq<Parsed>, i: nat)
    requires i < |events|
    ensures WireSight(events[..i + 1]) == Then(WireSight(events[..i]), EventSight(events[i], WireSight(events[..i]).figures != []))
  {
    assert events[..i + 1][..i] == events[..i];
    hide EventSight, Then;
  }

  // Figures came before exactly when a usage event did, as long as no event stopped the stream.
  lemma {:induction false} FiguresBefore(events: seq<Parsed>, n: nat)
    requires n <= |events| && forall i :: 0 <= i < n ==> !Stops(events[i])
    ensures WireSight(events[..n]).figures != [] <==> UsageBefore(events, n)
  {
    hide WireSight, Stops;
    if n > 0 {
      FiguresBefore(events, n - 1);
      NextWireSight(events, n - 1);
      UsageBeforeNext(events, n - 1);
      UsageOfOne(events[n - 1], false);
      hide UsageBefore, IsUsage;
      EventFigures(events[n - 1], WireSight(events[..n - 1]).figures != []);
    } else {
      NoWireSight(events);
    }
  }

  lemma NoWireSight(events: seq<Parsed>)
    ensures WireSight(events[..0]) == NO_SIGHT
  {
  }

  lemma EventFigures(e: Parsed, before: bool)
    requires !Stops(e)
    ensures EventSight(e, before).figures != [] <==> IsUsage(e)
  {
    UsageOfOne(e, before);
    hide Stops;
  }

  lemma {:induction false} EventsShow(events: seq<Parsed>, n: nat)
    requires n <= |events| && forall i :: 0 <= i < n - 1 ==> !Stops(events[i])
    ensures ShowsTheWire(events, n)
  {
    hide Sights, WireSight, EventSight, AllChunks, EventChunks, UsageBefore, Stops;
    if n > 0 {
      EventsShow(events, n - 1);
      NextChunks(events, n - 1);
      NextWireSight(events, n - 1);
      FiguresBefore(events, n - 1);
      ChunksShowEvent(events[n - 1], UsageBefore(events, n - 1));
      SightsConcat(AllChunks(events, n - 1), EventChunks(events[n - 1], UsageBefore(events, n - 1)));
    } else {
      NothingShown(events);
    }
  }

  lemma NothingShown(events: seq<Parsed>)
    ensures Sights(AllChunks(events, 0)) == NO_SIGHT == WireSight(events[..0])
  {
  }

  // One attempt, and all of them.
  lemma AttemptShows(parse: JsonParser, r: Response)
    ensures Sights(AttemptOf(parse, r).chunks) == WireSight(LiveEvents(parse, r))
  {
    hide Events, Lines, Live, Sights, WireSight, AllChunks, Stops;
    var live := LiveEvents(parse, r);
    LiveStopsLast(Events(parse, Lines(r.text), None));
    EventsShow(live, |live|);
    assert live[..|live|] == live;
  }

  lemma {:induction false} AttemptsShow(parse: JsonParser, responses: Responses, n: nat)
    ensures Sights(Joined(AttemptsOf(parse, responses), n)) == WireSights(parse, responses, n)
  {
    hide Sights, AttemptOf, LiveEvents, WireSight;
    if n > 0 {
      AttemptsShow(parse, responses, n - 1);
      JoinedSplits(AttemptsOf(parse, responses), n);
      AttemptShows(parse, responses(n));
      SightsConcat(Joined(AttemptsOf(parse, responses), n - 1), AttemptOf(parse, responses(n)).chunks);
    } else {
      NoSights();
    }
  }

  lemma NoSights()
    ensures Sights([]) == NO_SIGHT
  {
  }

  // ----- parts show what their chunks show

  // The parts that carry something; the others open, close and end.
  function Carrying(parts: seq<Part>): seq<Part> {
    if parts == [] then [] else
      var p := parts[|parts| - 1];
      Carrying(parts[..|parts| - 1])
      + if p.ResponseMetadata? || p.Text? || p.Reasoning? || p.ToolInput? then [p] else []
  }

  lemma CarryingSnoc(parts: seq<Part>, p: Part)
    ensures Carrying(parts + [p]) ==
      Carrying(parts) + if p.ResponseMetadata? || p.Text? || p.Reasoning? || p.ToolInput? then [p] else []
  {
    assert (parts + [p])[..|parts|] == parts;
  }

  lemma {:induction false} CarryingConcat(x: seq<Part>, y: seq<Part>)
    ensures Carrying(x + y) == Carrying(x) + Carrying(y)
    decreases |y|
  {
    hide Carrying;
    if y == [] {
      assert x + y == x;
      NothingCarries();
    } else {
      var n := |y| - 1;
      CarryingConcat(x, y[..n]);
      assert x + y == (x + y[..n]) + [y[n]] && y == y[..n] + [y[n]];
      CarryingSnoc(x + y[..n], y[n]);
      CarryingSnoc(y[..n], y[n]);
    }
  }

  lemma NothingCarries()
    ensures Carrying([]) == []
  {
  }

  lemma {:induction false} NoneCarries(parts: seq<Part>)
    requires forall p :: p in parts ==> !p.ResponseMetadata? && !p.Text? && !p.Reasoning? && !p.ToolInput?
    ensures Carrying(parts) == []
  {
    if parts != [] {
      NoneCarries(parts[..|parts| - 1]);
    }
  }

  lemma TwoCarry(p: Part, q: Part)
    ensures Carrying([p, q]) == Carrying([p]) + Carrying([q])
  {
    hide Carrying;
    assert [p, q] == [p] + [q];
    CarryingConcat([p], [q]);
  }

  lemma OneCarries(p: Part)
    ensures Carrying([p]) == if p.ResponseMetadata? || p.Text? || p.Reasoning? || p.ToolInput? then [p] else []
  {
    CarryingSnoc([], p);
    assert [] + [p] == [p];
  }

  lemma PartsShowChunk(cs: seq<ProviderChunk>, i: nat)
    requires i < |cs|
    ensures Carrying(PartsOf(cs, i)) == SightOf(cs[i]).parts
  {
    hide HasText, HasReasoning, ToolIds, ToolNameOf, LastReceipt, Carrying;
    var parts := PartsOf(cs, i);
    NothingCarries();
    if |parts| >= 1 {
      OneCarries(parts[0]);
      if |parts| == 2 {
        OneCarries(parts[1]);
        TwoCarry(parts[0], parts[1]);
        assert parts == [parts[0], parts[1]];
      } else {
        assert parts == [parts[0]];
      }
    }
  }

  lemma {:induction false} BodyShows(cs: seq<ProviderChunk>, n: nat)
    requires n <= |cs|
    ensures Carrying(BodyParts(cs, n)) == Sights(cs[..n]).parts
  {
    hide Carrying, PartsOf, SightOf, Sights;
    if n > 0 {
      BodyShows(cs, n - 1);
      PartsShowChunk(cs, n - 1);
      BodyNext(cs, n - 1);
      CarryingConcat(BodyParts(cs, n - 1), PartsOf(cs, n - 1));
      assert cs[..n] == cs[..n - 1] + [cs[n - 1]];
      SightsSnoc(cs[..n - 1], cs[n - 1]);
    } else {
      NothingCarries();
      NoSights();
      assert cs[..0] == [];
    }
  }

  lemma {:induction false} CallsCarryNothing(cs: seq<ProviderChunk>, n: nat, k: nat)
    requires n <= |cs| && k <= |ToolIds(cs, n)|
    ensures forall p :: p in CallParts(cs, n, k) ==> p.ToolInputEnd? || p.ToolCall?
    decreases k
  {
    hide ToolIds, ToolNameOf, ToolInputOf;
    if k > 0 {
      CallsCarryNothing(cs, n, k - 1);
    }
  }

  lemma ClosingShowsNothing(cs: seq<ProviderChunk>, ending: Ending)
    ensures Carrying(ClosingParts(cs, StopAt(cs), ending)) == []
  {
    var n := StopAt(cs);
    hide StopAt, CallParts, HasText, HasReasoning, Carrying, ToolIds;
    CallsCarryNothing(cs, n, |ToolIds(cs, n)|);
    NoneCarries(ClosingParts(cs, n, ending));
  }

  // The parts of a stream that carry something are those of its chunks, in their order.
  lemma StreamShows(cs: seq<ProviderChunk>, ending: Ending)
    ensures Carrying(StreamParts(cs, ending)) == Sights(cs[..StopAt(cs)]).parts
  {
    var n := StopAt(cs);
    hide StopAt, Carrying, BodyParts, ClosingParts, Sights;
    BodyShows(cs, n);
    ClosingShowsNothing(cs, ending);
    OneCarries(StreamStart);
    CarryingConcat([StreamStart], BodyParts(cs, n));
    CarryingConcat([StreamStart] + BodyParts(cs, n), ClosingParts(cs, n, ending));
  }

  // Where the stream stops, nothing is lost.
  lemma StopShowsAll(cs: seq<ProviderChunk>)
    requires forall i :: 0 <= i < |cs| - 1 ==> !IsTerminal(cs[i])
    ensures Sights(cs[..StopAt(cs)]) == Sights(cs)
  {
    var n := StopAt(cs);
    hide StopAt, Sights;
    if n < |cs| {
      assert cs == cs[..n] + [cs[n]];
      SightsSnoc(cs[..n], cs[n]);
      ThenNothing(Sights(cs[..n]));
    } else {
      assert cs[..n] == cs;
    }
  }

  lemma SeenSights(parse: JsonParser, responses: Responses, transient: StreamError -> bool, aborted: nat -> bool, used: nat)
    requires Uses(parse, responses, transient, aborted, used)
    ensures var cs := Joined(AttemptsOf(parse, responses), used); Sights(cs[..StopAt(cs)]) == WireSights(parse, responses, used)
  {
    hide Joined, IsTerminal, IsContent, Uses, StopAt, Sights, WireSights;
    var before, last := JoinedIs(parse, responses, transient, aborted, used);
    InertPrefix(before, last, "");
    StopShowsAll(before + last);
    AttemptsShow(parse, responses, used);
  }

  /**
   What the engine sees is what the wire has, in the order of the wire: routes, pieces of text and
   pieces of tool inputs of all the attempts, one after another, and nothing else.
   */
  lemma SeenInOrder(parse: JsonParser, responses: Responses, transient: StreamError -> bool, aborted: nat -> bool, used: nat)
    requires Uses(parse, responses, transient, aborted, used)
    ensures Carrying(Seen(parse, responses, used)) == WireSights(parse, responses, used).parts
  {
    hide Joined, Uses, StopAt, Sights, WireSights, Carrying, StreamParts, AttemptOf;
    SeenSights(parse, responses, transient, aborted, used);
    StreamShows(Joined(AttemptsOf(parse, responses), used), AttemptOf(parse, responses(used)).ending);
  }

  // ----- what the runtime is handed

  lemma {:induction false} BridgedSight(chunks: seq<ProviderChunk>)
    requires forall i :: 0 <= i < |chunks| - 1 ==> !chunks[i].ErrorChunk?
    ensures BridgedAll(chunks) == Sights(chunks).runtime
  {
    hide Sights, SightOf, Bridged;
    if chunks == [] {
      NoSights();
    } else {
      BridgedSight(chunks[1..]);
      assert chunks == [chunks[0]] + chunks[1..];
      SightsConcat([chunks[0]], chunks[1..]);
      OneSight(chunks[0]);
      OneBridged(chunks[0]);
      if chunks[0].ErrorChunk? {
        assert chunks[1..] == [];
        NoSights();
      }
    }
  }

  lemma OneBridged(c: ProviderChunk)
    ensures SightOf(c).runtime == if c.ErrorChunk? then [] else Bridged(c)
  {
  }

  /** What the runtime is handed are the pieces of text and the figures of all attempts, in the order of the wire. */
  lemma {:induction false} RuntimeInOrder(parse: JsonParser, responses: Responses, n: nat)
    ensures JoinedRuntime(AttemptsOf(parse, responses), n) == WireSights(parse, responses, n).runtime
  {
    hide Sights, AttemptOf, LiveEvents, WireSight, BridgedAll;
    if n > 0 {
      RuntimeInOrder(parse, responses, n - 1);
      AttemptShows(parse, responses(n));
      AttemptBridged(parse, responses(n));
    }
  }

  lemma AttemptBridged(parse: JsonParser, r: Response)
    ensures BridgedAll(AttemptOf(parse, r).chunks) == Sights(AttemptOf(parse, r).chunks).runtime
  {
    hide StreamOutput, BridgedAll, Sights;
    TerminalIsLast(parse, r.text, r.closing);
    BridgedSight(AttemptOf(parse, r).chunks);
  }

  // ----- the finish and the failure

  function LastTotals(figures: seq<Figures>): Option<UsageTotals> {
    if figures == [] then None else Some(figures[|figures| - 1].totals)
  }

  // The cost of the last figures that bring one.
  function LastKnownCost(figures: seq<Figures>): Option<Cost> {
    if figures == [] then None
    else figures[|figures| - 1].cost.OrElse(LastKnownCost(figures[..|figures| - 1]))
  }

  // The receipt of the last route.
  function LastRoute(parts: seq<Part>): Option<string> {
    if parts == [] then None
    else if parts[|parts| - 1].ResponseMetadata? then Some(parts[|parts| - 1].id)
    else LastRoute(parts[..|parts| - 1])
  }

  // Names for reasons, with an underscore or a hyphen in some; any other is unknown.
  predicate IsReason(r: UnifiedReason, raw: string) {
    match r
    case ToolCallsReason => raw == "tool_calls" || raw == "tool-calls"
    case ContentFilterReason => raw == "content_filter" || raw == "content-filter"
    case StopReason => raw == "stop"
    case LengthReason => raw == "length"
    case ErrorReason => raw == "error"
    case OtherReason => raw !in {"tool_calls", "tool-calls", "content_filter", "content-filter", "stop", "length", "error"}
  }

  lemma ReasonIs(raw: string)
    ensures IsReason(Unified(raw), raw)
  {
  }

  lemma FigureSeen(figures: seq<Figures>, more: seq<Figures>)
    requires |more| <= 1
    ensures LastTotals(figures + more) == if more == [] then LastTotals(figures) else Some(more[0].totals)
    ensures LastKnownCost(figures + more) == if more == [] then LastKnownCost(figures) else more[0].cost.OrElse(LastKnownCost(figures))
  {
    if more == [] {
      assert figures + more == figures;
    } else {
      assert (figures + more)[..|figures|] == figures;
    }
  }

  lemma RouteSeen(parts: seq<Part>, more: seq<Part>)
    requires |more| <= 1
    ensures LastRoute(parts + more) ==
      if more != [] && more[0].ResponseMetadata? then Some(more[0].id) else LastRoute(parts)
  {
    if more == [] {
      assert parts + more == parts;
    } else {
      assert (parts + more)[..|parts|] == parts;
    }
  }

  // The adapter's variables hold the last of what was seen.
  lemma {:induction false} VariablesHold(cs: seq<ProviderChunk>, n: nat)
    requires n <= |cs|
    ensures var s := Sights(cs[..n]);
      LastUsage(cs, n) == LastTotals(s.figures) && LastCost(cs, n) == LastKnownCost(s.figures) && LastReceipt(cs, n) == LastRoute(s.parts)
  {
    hide LastTotals, LastKnownCost, LastRoute, Sights;
    if n > 0 {
      VariablesHold(cs, n - 1);
      assert cs[..n] == cs[..n - 1] + [cs[n - 1]];
      SightsSnoc(cs[..n - 1], cs[n - 1]);
      var s, t := Sights(cs[..n - 1]), SightOf(cs[n - 1]);
      FigureSeen(s.figures, t.figures);
      RouteSeen(s.parts, t.parts);
    } else {
      assert cs[..0] == [];
      NoSights();
      NothingLast();
    }
  }

  lemma NothingLast()
    ensures LastTotals([]) == None && LastKnownCost([]) == None && LastRoute([]) == None
  {
  }

  predicate Ends(live: seq<Parsed>, kind: string) {
    live != [] && live[|live| - 1].Event? && live[|live| - 1].kind == kind
  }

  // What an event of unknown type is answered with; without a type it counts as undefined.
  function UnknownEvent(e: Parsed): StreamError {
    var name := if e.Event? then e.kind else "undefined";
    StreamError("", "capix-provider: unhandled stream event " + name, None, None, None)
  }

  // The error a response ends with, if it ends with one.
  function WireFailure(parse: JsonParser, r: Response): Option<StreamError> {
    var live := LiveEvents(parse, r);
    if Ends(live, "capix.error") then Some(live[|live| - 1].payload.error)
    else if live != [] && (!live[|live| - 1].Event? || !IsKnown(live[|live| - 1].kind)) then Some(UnknownEvent(live[|live| - 1]))
    else if Ends(live, "capix.final") || HasDoneMark(Lines(r.text)) then None
    else r.closing
  }

  lemma StopIsLast(chunks: seq<ProviderChunk>)
    requires forall i :: 0 <= i < |chunks| - 1 ==> !IsTerminal(chunks[i])
    ensures StopAt(chunks) < |chunks| <==> chunks != [] && IsTerminal(chunks[|chunks| - 1])
    ensures StopAt(chunks) < |chunks| ==> StopAt(chunks) == |chunks| - 1
  {
    hide IsTerminal;
  }

  lemma CarriedKind(c: ProviderChunk, e: Parsed)
    requires Carries(c, e) && IsKnown(e.kind)
    ensures IsTerminal(c) <==> e.kind == "capix.final" || e.kind == "capix.error"
  {
    hide Figure;
  }

  lemma LastOfTail(chunks: seq<ProviderChunk>, e: Parsed, usageBefore: bool)
    requires CarriesLast(chunks, e, usageBefore)
    ensures e.Event? && IsKnown(e.kind) <==> chunks != []
    ensures chunks != [] ==>
      Carries(chunks[|chunks| - 1], e)
      && (IsTerminal(chunks[|chunks| - 1]) <==> e.kind == "capix.final" || e.kind == "capix.error")
  {
    hide Carries, CarriesUsage, IsTerminal, IsKnown;
    if chunks != [] {
      CarriedKind(chunks[|chunks| - 1], e);
    }
  }

  // The last event decides how the chunks end.
  lemma LastChunkIs(parse: JsonParser, r: Response)
    ensures var chunks, live := AttemptOf(parse, r).chunks, LiveEvents(parse, r);
      && (chunks != [] && IsTerminal(chunks[|chunks| - 1]) <==> Ends(live, "capix.final") || Ends(live, "capix.error"))
      && (Ends(live, "capix.final") || Ends(live, "capix.error") ==> Carries(chunks[|chunks| - 1], live[|live| - 1]))
  {
    hide StreamOutput, Events, Lines, Live, Carries, CarriesLast, IsTerminal, IsKnown;
    StreamCarriesEvents(parse, r.text, r.closing);
    KnownEnds();
    var chunks, live := AttemptOf(parse, r).chunks, LiveEvents(parse, r);
    if live != [] {
      var n := |live| - 1;
      LastOfTail(chunks[n..], live[n], exists j :: 0 <= j < n && live[j].Event? && live[j].kind == "capix.usage");
      assert chunks == chunks[..n] + chunks[n..];
      if chunks[n..] != [] {
        assert chunks[|chunks| - 1] == chunks[n..][|chunks[n..]| - 1];
      } else if n > 0 {
        assert chunks[|chunks| - 1] == chunks[n - 1];
        EventNotLast(parse, r, n - 1);
        CarriedKind(chunks[n - 1], live[n - 1]);
      }
    }
  }

  lemma EventNotLast(parse: JsonParser, r: Response, i: nat)
    requires i < |LiveEvents(parse, r)| - 1
    ensures !Stops(LiveEvents(parse, r)[i])
    ensures var e := LiveEvents(parse, r)[i]; e.Event? && IsKnown(e.kind) && e.kind != "capix.final" && e.kind != "capix.error"
  {
    hide Events, Lines, Live;
    LiveStopsLast(Events(parse, Lines(r.text), None));
    var e := LiveEvents(parse, r)[i];
    if e.Event? {
      KnownIsMapped(e.kind, e.payload);
    }
  }

  lemma StopsAre(e: Parsed)
    ensures Stops(e) <==> !e.Event? || !IsKnown(e.kind) || e.kind == "capix.final" || e.kind == "capix.error"
    ensures Stops(e) ==> StopEnding(e) == if !e.Event? || !IsKnown(e.kind) then Failed(UnknownEvent(e)) else Completed
  {
    if e.Event? {
      KnownIsMapped(e.kind, e.payload);
    }
  }

  /** How an attempt fails, if it does, is decided by the last event, the end mark, and how reading ends. */
  lemma FailureIsOnTheWire(parse: JsonParser, r: Response)
    ensures StreamFailure(AttemptOf(parse, r).chunks, AttemptOf(parse, r).ending) == WireFailure(parse, r)
    ensures StopAt(AttemptOf(parse, r).chunks) < |AttemptOf(parse, r).chunks| && StreamFailure(AttemptOf(parse, r).chunks, AttemptOf(parse, r).ending).None?
      <==> Ends(LiveEvents(parse, r), "capix.final")
  {
    hide Stops, StopEnding, Events, Lines, Live, AllChunks, LedgerCosts, HasDoneMark, IsKnown, CarriesUsage, UnknownEvent;
    var a, live := AttemptOf(parse, r), LiveEvents(parse, r);
    TerminalIsLast(parse, r.text, r.closing);
    StopIsLast(a.chunks);
    LastChunkIs(parse, r);
    if live != [] {
      StopsAre(live[|live| - 1]);
    }
    KnownEnds();
  }

  lemma KnownEnds()
    ensures IsKnown("capix.final") && IsKnown("capix.error")
  {
  }

  // The finish part that a response calls for.
  function WireFinish(parse: JsonParser, responses: Responses, used: nat): Part
    requires Ends(LiveEvents(parse, responses(used)), "capix.final")
  {
    var live, s := LiveEvents(parse, responses(used)), WireSights(parse, responses, used);
    var p := live[|live| - 1].payload;
    FinishPart(Unified(p.finishReason), p.finishReason, LastTotals(s.figures),
               if p.receiptId != "" then Some(p.receiptId) else LastRoute(s.parts), p.retryCount.GetOr(0), LastKnownCost(s.figures))
  }

  lemma FinishedIs(parse: JsonParser, responses: Responses, transient: StreamError -> bool, aborted: nat -> bool, used: nat)
    requires Uses(parse, responses, transient, aborted, used) && Ends(LiveEvents(parse, responses(used)), "capix.final")
    ensures var cs := Joined(AttemptsOf(parse, responses), used);
      StopAt(cs) < |cs| && cs[StopAt(cs)].Finish? && Finished(cs, StopAt(cs)) == WireFinish(parse, responses, used)
  {
    hide Joined, Uses, StopAt, Sights, WireSights, StreamFailure, AttemptOf, LastUsage, LastCost, LastReceipt, Unified,
      LastTotals, LastKnownCost, LastRoute, LiveEvents;
    var cs := Joined(AttemptsOf(parse, responses), used);
    JoinedEnd(parse, responses, transient, aborted, used);
    FinishChunk(parse, responses(used));
    SeenSights(parse, responses, transient, aborted, used);
    VariablesHold(cs, StopAt(cs));
  }

  lemma WireReason(parse: JsonParser, responses: Responses, used: nat)
    requires Ends(LiveEvents(parse, responses(used)), "capix.final")
    ensures WireFinish(parse, responses, used).FinishPart?
    ensures IsReason(WireFinish(parse, responses, used).reason, WireFinish(parse, responses, used).raw)
  {
    hide IsReason, WireSights, LiveEvents, LastTotals, LastKnownCost, LastRoute;
    ReasonIs(WireFinish(parse, responses, used).raw);
  }

  /**
   The finish part, whole: reason, receipt and retries of the final event, and the figures and the
   cost that came last on the wire, under whichever of its names, in whichever attempt.
   */
  lemma FinishIsOnTheWire(parse: JsonParser, responses: Responses, transient: StreamError -> bool, aborted: nat -> bool, used: nat)
    requires Uses(parse, responses, transient, aborted, used) && Ends(LiveEvents(parse, responses(used)), "capix.final")
    ensures var cs := Joined(AttemptsOf(parse, responses), used);
      StopAt(cs) < |cs| && cs[StopAt(cs)].Finish? && Finished(cs, StopAt(cs)) == WireFinish(parse, responses, used)
    ensures var parts := Seen(parse, responses, used); parts != [] && parts[|parts| - 1] == WireFinish(parse, responses, used)
    ensures WireFinish(parse, responses, used).FinishPart?
      && IsReason(WireFinish(parse, responses, used).reason, WireFinish(parse, responses, used).raw)
  {
    hide Joined, Uses, StopAt, StreamParts, AttemptOf, Finished, WireFinish, LiveEvents, IsReason;
    FinishedIs(parse, responses, transient, aborted, used);
    WireReason(parse, responses, used);
    EndIsLast(Joined(AttemptsOf(parse, responses), used), AttemptOf(parse, responses(used)).ending);
  }

  lemma FinishChunk(parse: JsonParser, r: Response)
    requires Ends(LiveEvents(parse, r), "capix.final")
    ensures var chunks, live := AttemptOf(parse, r).chunks, LiveEvents(parse, r);
      StopAt(chunks) < |chunks| && chunks[StopAt(chunks)].Finish? && Carries(chunks[StopAt(chunks)], live[|live| - 1])
  {
    hide StreamOutput, LiveEvents, CarriesUsage;
    LastChunkIs(parse, r);
    TerminalIsLast(parse, r.text, r.closing);
    StopIsLast(AttemptOf(parse, r).chunks);
  }

  /**
   The non-streaming call, retries and all. It throws the error that the last response ends with on
   the wire. Otherwise the answer has exactly the text of that response, and when it finishes exactly
   its tool calls, in the order of their first appearance, each with the last name and all the
   arguments the wire has for it; the reason, and the figures, cost and receipt, are those of its finish.
   */
  method Generate(parse: JsonParser, responses: Responses, transient: StreamError -> bool, aborted: nat -> bool)
    returns (r: Result<Generated, StreamError>, used: nat)
    ensures Uses(parse, responses, transient, aborted, used) && used <= 3
    ensures var live, failure := LiveEvents(parse, responses(used)), WireFailure(parse, responses(used));
      if failure.Some? then r == Err(failure.value)
      else if Ends(live, "capix.final") then
        var finish := WireFinish(parse, responses, used);
        r == Ok(Generated(ContentOfAnswer(WireText(live), WireCalls(live)), finish.reason, Some(finish.raw), finish.usage,
                          Some(Metadata(finish.receiptId, finish.retryCount, finish.cost))))
      else r == Ok(Generated(ContentOfAnswer(WireText(live), []), OtherReason, None, None, None))
  {
    hide Joined, WireText, WireCalls, StopAt, AttemptOf, LiveEvents, ToolTable, TextSoFar, TriedAgain, StreamFailure, ContentOfAnswer,
      WireFailure, WireFinish, Finished;
    var delivered, ending;
    delivered, ending, used := Chunks(AttemptsOf(parse, responses), transient, aborted);
    r := DoGenerate(delivered, ending);
    JoinedEnd(parse, responses, transient, aborted, used);
    JoinedBody(parse, responses, transient, aborted, used, "");
    JoinedCalls(parse, responses, transient, aborted, used);
    FailureIsOnTheWire(parse, responses(used));
    if Ends(LiveEvents(parse, responses(used)), "capix.final") {
      FinishIsOnTheWire(parse, responses, transient, aborted, used);
    }
  }
}
