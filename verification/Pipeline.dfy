/**
 The whole way from the bytes of a response to the parts the engine sees: the event parser of
 src/capix-provider.ts, the retries and the transducer of src/ai-sdk-provider.ts, one after another.
 */
module Pipeline {
  import opened Wrappers
  import opened ProviderTypes
  import opened EventStream
  import opened ModelStream
  import opened RetryLoop

  // The decoded text of one response, and the error reading it ended with, if any.
  datatype Response = Response(text: string, closing: Option<StreamError>)

  type Responses = nat -> Response

  function AttemptOf(parse: JsonParser, r: Response): Attempt {
    var o := StreamOutput(parse, r.text, r.closing);
    Attempt(o.chunks, o.ending)
  }

  function AttemptsOf(parse: JsonParser, responses: Responses): Attempts {
    (k: nat) => AttemptOf(parse, responses(k))
  }

  // The events of a response that are acted on.
  function LiveEvents(parse: JsonParser, r: Response): seq<Parsed> {
    Live(Events(parse, Lines(r.text), None))
  }

  function EventText(e: Parsed): string {
    if e.Event? && e.kind == "content.delta" then e.payload.content else ""
  }

  function EventArguments(e: Parsed, id: string): string {
    if e.Event? && e.kind == "tool.delta" && e.payload.toolCallId == id && e.payload.fn.Some?
    then e.payload.fn.value.arguments.GetOr("") else ""
  }

  // The text of a response, as the wire has it.
  function WireText(events: seq<Parsed>): string {
    if events == [] then "" else WireText(events[..|events| - 1]) + EventText(events[|events| - 1])
  }

  // The arguments of one tool call, as the wire has them.
  function WireArguments(events: seq<Parsed>, id: string): string {
    if events == [] then "" else WireArguments(events[..|events| - 1], id) + EventArguments(events[|events| - 1], id)
  }

  // ----- what a list of chunks is worth

  function Worth(chunks: seq<ProviderChunk>, id: string): Delivered {
    if chunks == [] then NOTHING_DELIVERED else
      Plus(Worth(chunks[..|chunks| - 1], id), Received(chunks[|chunks| - 1], id))
  }

  lemma {:induction false} WorthConcat(x: seq<ProviderChunk>, y: seq<ProviderChunk>, id: string)
    ensures Worth(x + y, id) == Plus(Worth(x, id), Worth(y, id))
    decreases |y|
  {
    hide Plus, Received;
    if y == [] {
      assert x + y == x;
      PlusNothing(Worth(x, id));
    } else {
      var n := |y| - 1;
      WorthConcat(x, y[..n], id);
      assert (x + y)[..|x + y| - 1] == x + y[..n];
      PlusAssociates(Worth(x, id), Worth(y[..n], id), Received(y[n], id));
    }
  }

  lemma {:induction false} BodyIsWorth(cs: seq<ProviderChunk>, n: nat, id: string)
    requires n <= |cs|
    ensures Worth(cs[..n], id) == Delivered(ToolInputOf(cs, n, id), TextSoFar(cs, n), [])
  {
    hide Plus, Received, ToolInputOf, TextSoFar;
    if n == 0 {
      NothingReceived(cs, id);
    } else {
      BodyIsWorth(cs, n - 1, id);
      ReceivedAdds(cs, n - 1, id);
      assert cs[..n][..n - 1] == cs[..n - 1];
    }
  }

  lemma NothingReceived(cs: seq<ProviderChunk>, id: string)
    ensures ToolInputOf(cs, 0, id) == "" && TextSoFar(cs, 0) == ""
  {
  }

  lemma Worthless(c: ProviderChunk, id: string)
    requires !IsContent(c)
    ensures Received(c, id) == NOTHING_DELIVERED
  {
  }

  lemma {:induction false} InertIsWorthless(chunks: seq<ProviderChunk>, id: string)
    requires forall c :: c in chunks ==> !IsContent(c)
    ensures Worth(chunks, id) == NOTHING_DELIVERED
  {
    if chunks != [] {
      var n := |chunks| - 1;
      InertIsWorthless(chunks[..n], id);
      Worthless(chunks[n], id);
      PlusNothing(NOTHING_DELIVERED);
      hide Plus, Received, IsContent;
    }
  }

  // Stopping before a last terminal chunk loses nothing.
  lemma StopsAtWorth(cs: seq<ProviderChunk>, id: string)
    requires forall i :: 0 <= i < |cs| - 1 ==> !IsTerminal(cs[i])
    ensures Worth(cs[..StopAt(cs)], id) == Worth(cs, id)
  {
    var n := StopAt(cs);
    if n < |cs| {
      assert n == |cs| - 1;
      Worthless(cs[n], id);
      PlusNothing(Worth(cs[..n], id));
      hide Plus, Received, StopAt;
    } else {
      assert cs[..n] == cs;
    }
  }

  // ----- from events to chunks

  lemma MappedWorth(kind: string, p: Payload, id: string)
    requires MapChunk(kind, p).Some?
    ensures Received(MapChunk(kind, p).value, id) ==
      Delivered(EventArguments(Event(kind, p), id), EventText(Event(kind, p)), [])
  {
  }

  lemma NoChunkNoWorth(e: Parsed, id: string)
    requires e.Event? ==> MapChunk(e.kind, e.payload).None?
    ensures EventArguments(e, id) == "" && EventText(e) == ""
  {
  }

  lemma FewWorth(chunks: seq<ProviderChunk>, id: string)
    requires |chunks| == 1 || (|chunks| == 2 && !IsContent(chunks[0]))
    ensures Worth(chunks, id) == Received(chunks[|chunks| - 1], id)
  {
    var n := |chunks| - 1;
    forall c | c in chunks[..n]
      ensures !IsContent(c)
    {
    }
    InertIsWorthless(chunks[..n], id);
    PlusNothing(Received(chunks[n], id));
    hide Plus, Received;
  }

  lemma EventWorth(e: Parsed, usageSeen: bool, id: string)
    ensures Worth(EventChunks(e, usageSeen), id) == Delivered(EventArguments(e, id), EventText(e), [])
  {
    assert Worth([], id) == Delivered("", "", []);
    hide Worth, Received, MapChunk, EventArguments, EventText;
    if e.Event? && MapChunk(e.kind, e.payload).Some? {
      MappedWorth(e.kind, e.payload, id);
      FewWorth(EventChunks(e, usageSeen), id);
    } else {
      NoChunkNoWorth(e, id);
    }
  }

  // The chunks for the events are worth what the wire had.
  ghost predicate WorthTheWire(events: seq<Parsed>, n: nat, id: string)
    requires n <= |events|
  {
    Worth(AllChunks(events, n), id) == Delivered(WireArguments(events[..n], id), WireText(events[..n]), [])
  }

  lemma NextWire(events: seq<Parsed>, i: nat, id: string)
    requires i < |events|
    ensures WireText(events[..i + 1]) == WireText(events[..i]) + EventText(events[i])
    ensures WireArguments(events[..i + 1], id) == WireArguments(events[..i], id) + EventArguments(events[i], id)
  {
    assert events[..i + 1][..i] == events[..i];
    hide EventText, EventArguments;
  }

  lemma NextChunks(events: seq<Parsed>, i: nat)
    requires i < |events|
    ensures AllChunks(events, i + 1) == AllChunks(events, i) + EventChunks(events[i], UsageBefore(events, i))
  {
    hide EventChunks, UsageBefore;
  }

  lemma NextWorth(events: seq<Parsed>, i: nat, id: string)
    requires i < |events| && WorthTheWire(events, i, id)
    ensures WorthTheWire(events, i + 1, id)
  {
    hide Worth, WireText, WireArguments, EventArguments, EventText, EventChunks, UsageBefore, AllChunks;
    var chunks := EventChunks(events[i], UsageBefore(events, i));
    EventWorth(events[i], UsageBefore(events, i), id);
    NextChunks(events, i);
    WorthConcat(AllChunks(events, i), chunks, id);
    NextWire(events, i, id);
  }

  lemma {:induction false} EventsWorth(events: seq<Parsed>, n: nat, id: string)
    requires n <= |events|
    ensures WorthTheWire(events, n, id)
  {
    if n > 0 {
      EventsWorth(events, n - 1, id);
      NextWorth(events, n - 1, id);
      hide WorthTheWire;
    }
  }

  // ----- failed attempts

  lemma FailureIsNoChunk(e: Parsed, usageSeen: bool)
    requires Stops(e) && StopEnding(e).Failed?
    ensures EventChunks(e, usageSeen) == []
  {
    hide MapChunk;
  }

  lemma LastNotTerminal(live: seq<Parsed>, n: nat)
    requires n < |live| && forall i :: 0 <= i < n ==> !Stops(live[i])
    requires Stops(live[n]) ==> StopEnding(live[n]).Failed?
    ensures forall c :: c in AllChunks(live, n + 1) ==> !IsTerminal(c)
  {
    hide IsTerminal, Stops, StopEnding, AllChunks, EventChunks, UsageBefore;
    if Stops(live[n]) {
      NothingTerminal(live, n);
      NextChunks(live, n);
      FailureIsNoChunk(live[n], UsageBefore(live, n));
    } else {
      NothingTerminal(live, n + 1);
    }
  }

  // A response that fails has delivered no finish and no error chunk.
  lemma FailedHasNoTerminal(parse: JsonParser, r: Response)
    requires AttemptOf(parse, r).ending.Failed?
    ensures forall c :: c in AttemptOf(parse, r).chunks ==> !IsTerminal(c)
  {
    var events := Events(parse, Lines(r.text), None);
    var live := Live(events);
    hide IsTerminal, Events, Lines, Live, Stops, StopEnding, HasDoneMark;
    LiveStopsLast(events);
    if live != [] {
      LastNotTerminal(live, |live| - 1);
    }
  }

  lemma {:induction false} NoContentIn(chunks: seq<ProviderChunk>)
    requires ContentOf(chunks) == []
    ensures forall c :: c in chunks ==> !IsContent(c)
  {
    if chunks != [] {
      NoContentIn(chunks[1..]);
      assert chunks == [chunks[0]] + chunks[1..];
    }
  }

  // An attempt that is tried again leaves neither content nor a terminal chunk behind.
  lemma TriedAgainIsInert(parse: JsonParser, responses: Responses, transient: StreamError -> bool, aborted: nat -> bool, k: nat)
    requires TriedAgain(AttemptsOf(parse, responses), transient, aborted, k)
    ensures forall c :: c in AttemptOf(parse, responses(k)).chunks ==> !IsContent(c) && !IsTerminal(c)
  {
    hide IsContent, IsTerminal, AttemptOf, ContentOf;
    FailedHasNoTerminal(parse, responses(k));
    NoContentIn(AttemptOf(parse, responses(k)).chunks);
  }

  lemma JoinedSplits(attempts: Attempts, used: nat)
    requires used >= 1
    ensures Joined(attempts, used) == Joined(attempts, used - 1) + attempts(used).chunks
  {
  }

  lemma {:induction false} JoinedIsInert(parse: JsonParser, responses: Responses, transient: StreamError -> bool, aborted: nat -> bool, n: nat)
    requires forall k :: 1 <= k <= n ==> TriedAgain(AttemptsOf(parse, responses), transient, aborted, k)
    ensures forall c :: c in Joined(AttemptsOf(parse, responses), n) ==> !IsContent(c) && !IsTerminal(c)
  {
    hide IsContent, IsTerminal, AttemptOf, TriedAgain;
    if n > 0 {
      JoinedIsInert(parse, responses, transient, aborted, n - 1);
      TriedAgainIsInert(parse, responses, transient, aborted, n);
      JoinedSplits(AttemptsOf(parse, responses), n);
      hide Joined;
    }
  }

  // ----- end to end

  // The response whose attempt was not tried again is the one that is used.
  ghost predicate Uses(parse: JsonParser, responses: Responses, transient: StreamError -> bool, aborted: nat -> bool, used: nat) {
    && used >= 1
    && (forall k :: 1 <= k < used ==> TriedAgain(AttemptsOf(parse, responses), transient, aborted, k))
    && !TriedAgain(AttemptsOf(parse, responses), transient, aborted, used)
  }

  // What the engine sees after `used` attempts.
  function Seen(parse: JsonParser, responses: Responses, used: nat): seq<Part> {
    StreamParts(Joined(AttemptsOf(parse, responses), used), AttemptOf(parse, responses(used)).ending)
  }

  lemma InertPrefix(before: seq<ProviderChunk>, last: seq<ProviderChunk>, id: string)
    requires forall c :: c in before ==> !IsContent(c) && !IsTerminal(c)
    requires forall i :: 0 <= i < |last| - 1 ==> !IsTerminal(last[i])
    ensures forall i :: 0 <= i < |before + last| - 1 ==> !IsTerminal((before + last)[i])
    ensures Worth(before + last, id) == Worth(last, id)
  {
    hide IsTerminal, IsContent, Worth, Plus;
    InertIsWorthless(before, id);
    WorthConcat(before, last, id);
    PlusNothing(Worth(last, id));
    assert forall i :: 0 <= i < |before| ==> (before + last)[i] == before[i] && before[i] in before;
  }

  // What is joined is the last attempt's chunks after chunks that mean nothing.
  lemma JoinedIs(parse: JsonParser, responses: Responses, transient: StreamError -> bool, aborted: nat -> bool, used: nat)
    returns (before: seq<ProviderChunk>, last: seq<ProviderChunk>)
    requires Uses(parse, responses, transient, aborted, used)
    ensures last == AttemptOf(parse, responses(used)).chunks
    ensures Joined(AttemptsOf(parse, responses), used) == before + last
    ensures forall c :: c in before ==> !IsContent(c) && !IsTerminal(c)
    ensures forall i :: 0 <= i < |last| - 1 ==> !IsTerminal(last[i])
  {
    hide IsTerminal, IsContent, Joined, StreamOutput;
    before, last := Joined(AttemptsOf(parse, responses), used - 1), AttemptOf(parse, responses(used)).chunks;
    JoinedIsInert(parse, responses, transient, aborted, used - 1);
    TerminalIsLast(parse, responses(used).text, responses(used).closing);
    JoinedSplits(AttemptsOf(parse, responses), used);
  }

  // Where the joined stream stops, and what it has delivered by then.
  lemma JoinedBody(parse: JsonParser, responses: Responses, transient: StreamError -> bool, aborted: nat -> bool, used: nat, id: string)
    requires Uses(parse, responses, transient, aborted, used)
    ensures var cs, live := Joined(AttemptsOf(parse, responses), used), LiveEvents(parse, responses(used));
      && ToolInputOf(cs, StopAt(cs), id) == WireArguments(live, id)
      && TextSoFar(cs, StopAt(cs)) == WireText(live)
  {
    hide Worth, Joined, WireText, WireArguments, ToolInputOf, TextSoFar, IsTerminal, IsContent, Uses, StopAt, AllChunks,
      Live, Events, Lines;
    var before, last := JoinedIs(parse, responses, transient, aborted, used);
    var cs, live := before + last, LiveEvents(parse, responses(used));
    InertPrefix(before, last, id);
    StopsAtWorth(cs, id);
    BodyIsWorth(cs, StopAt(cs), id);
    EventsWorth(live, |live|, id);
    assert live[..|live|] == live;
  }

  /**
   Text and tool arguments arrive unchanged: however the responses were cut into reads, and
   whatever the attempts before it did, the engine sees exactly the text and, for each tool call,
   exactly the arguments that the last response has on the wire.
   */
  lemma SeenIsOnTheWire(parse: JsonParser, responses: Responses, transient: StreamError -> bool, aborted: nat -> bool, used: nat, id: string)
    requires Uses(parse, responses, transient, aborted, used)
    ensures EmittedText(Seen(parse, responses, used)) == WireText(LiveEvents(parse, responses(used)))
    ensures EmittedInput(Seen(parse, responses, used), id) == WireArguments(LiveEvents(parse, responses(used)), id)
  {
    SeenWorth(parse, responses, transient, aborted, used, id);
    SeenWorth(parse, responses, transient, aborted, used, "");
    hide Seen, LiveEvents, Emits, WireText, WireArguments;
  }

  lemma SeenWorth(parse: JsonParser, responses: Responses, transient: StreamError -> bool, aborted: nat -> bool, used: nat, id: string)
    requires Uses(parse, responses, transient, aborted, used)
    ensures var e, live := Emits(Seen(parse, responses, used), id), LiveEvents(parse, responses(used));
      e.input == WireArguments(live, id) && e.text == WireText(live)
  {
    hide Emits, StreamParts, Joined, WireText, WireArguments, ToolTable, ToolInputOf, TextSoFar, Uses, StopAt, AttemptOf, LiveEvents;
    JoinedBody(parse, responses, transient, aborted, used, id);
    StreamEmits(Joined(AttemptsOf(parse, responses), used), AttemptOf(parse, responses(used)).ending, id);
  }

  /** Every tool call the engine sees carries the arguments that the last response has on the wire for its id. */
  lemma CallsAreOnTheWire(parse: JsonParser, responses: Responses, transient: StreamError -> bool, aborted: nat -> bool, used: nat, k: nat)
    requires Uses(parse, responses, transient, aborted, used)
    requires k < |EmittedCalls(Seen(parse, responses, used))|
    ensures var call := EmittedCalls(Seen(parse, responses, used))[k];
      call.input == WireArguments(LiveEvents(parse, responses(used)), call.id)
  {
    var cs := Joined(AttemptsOf(parse, responses), used);
    CallsCarryTheirDeltas(cs, AttemptOf(parse, responses(used)).ending);
    SeenIsOnTheWire(parse, responses, transient, aborted, used, EmittedCalls(Seen(parse, responses, used))[k].id);
    hide Emits, StreamParts, StopAt, Joined, WireText, WireArguments, LiveEvents, Uses;
  }

  // ----- which tool calls there are, and under which names

  // The ids in the order of their first appearance, and the last name given for one of them.
  datatype Roster = Roster(ids: seq<string>, name: string)

  function Enrol(r: Roster, toolId: string, given: Option<string>, id: string): Roster {
    Roster(if toolId in r.ids then r.ids else r.ids + [toolId],
           if toolId == id && given.Some? then given.value else r.name)
  }

  function EnrolChunk(r: Roster, c: ProviderChunk, id: string): Roster {
    if c.ToolDelta? then Enrol(r, c.toolCallId, GivenName(c), id) else r
  }

  function EnrolEvent(r: Roster, e: Parsed, id: string): Roster {
    if e.Event? && e.kind == "tool.delta" then
      Enrol(r, e.payload.toolCallId, if e.payload.fn.Some? then e.payload.fn.value.name else None, id)
    else r
  }

  function ChunkRoster(chunks: seq<ProviderChunk>, id: string): Roster {
    if chunks == [] then Roster([], UNKNOWN_TOOL) else
      EnrolChunk(ChunkRoster(chunks[..|chunks| - 1], id), chunks[|chunks| - 1], id)
  }

  // The same for the events on the wire.
  function WireRoster(events: seq<Parsed>, id: string): Roster {
    if events == [] then Roster([], UNKNOWN_TOOL) else
      EnrolEvent(WireRoster(events[..|events| - 1], id), events[|events| - 1], id)
  }

  // The tool calls of a response, as the wire has them.
  function WireCalls(events: seq<Parsed>): seq<ToolEntry> {
    var ids := WireRoster(events, "").ids;
    seq(|ids|, k requires 0 <= k < |ids| => ToolEntry(ids[k], WireRoster(events, ids[k]).name, WireArguments(events, ids[k])))
  }

  lemma ChunkRosterSnoc(chunks: seq<ProviderChunk>, c: ProviderChunk, id: string)
    ensures ChunkRoster(chunks + [c], id) == EnrolChunk(ChunkRoster(chunks, id), c, id)
  {
    assert (chunks + [c])[..|chunks|] == chunks;
    hide EnrolChunk;
  }

  lemma TableNext(cs: seq<ProviderChunk>, i: nat, id: string)
    requires i < |cs|
    ensures Roster(ToolIds(cs, i + 1), ToolNameOf(cs, i + 1, id)) ==
            EnrolChunk(Roster(ToolIds(cs, i), ToolNameOf(cs, i, id)), cs[i], id)
  {
    hide GivenName;
  }

  lemma {:induction false} TableIsRoster(cs: seq<ProviderChunk>, n: nat, id: string)
    requires n <= |cs|
    ensures ChunkRoster(cs[..n], id) == Roster(ToolIds(cs, n), ToolNameOf(cs, n, id))
  {
    if n > 0 {
      hide ChunkRoster, EnrolChunk, ToolIds, ToolNameOf;
      TableIsRoster(cs, n - 1, id);
      assert cs[..n] == cs[..n - 1] + [cs[n - 1]];
      ChunkRosterSnoc(cs[..n - 1], cs[n - 1], id);
      TableNext(cs, n - 1, id);
    }
  }

  // Chunks without content enrol nobody, wherever they stand.
  lemma {:induction false} InertRoster(before: seq<ProviderChunk>, last: seq<ProviderChunk>, id: string)
    requires forall c :: c in before ==> !IsContent(c)
    ensures ChunkRoster(before + last, id) == ChunkRoster(last, id)
    decreases |before| + |last|
  {
    if last != [] {
      var n := |last| - 1;
      InertRoster(before, last[..n], id);
      assert before + last == (before + last[..n]) + [last[n]] && last == last[..n] + [last[n]];
      ChunkRosterSnoc(before + last[..n], last[n], id);
      ChunkRosterSnoc(last[..n], last[n], id);
      hide ChunkRoster, EnrolChunk;
    } else if before != [] {
      var n := |before| - 1;
      InertRoster(before[..n], [], id);
      assert before[..n] + [] == before[..n] && before + [] == before;
      assert before[n] in before;
    } else {
      assert before + last == last;
    }
  }

  lemma EventEnrols(chunks: seq<ProviderChunk>, e: Parsed, usageSeen: bool, id: string)
    ensures ChunkRoster(chunks + EventChunks(e, usageSeen), id) == EnrolEvent(ChunkRoster(chunks, id), e, id)
  {
    var more := EventChunks(e, usageSeen);
    hide ChunkRoster, MapChunk;
    if e.Event? && MapChunk(e.kind, e.payload).Some? {
      MappedEnrols(ChunkRoster(chunks, id), e.kind, e.payload, id);
      if |more| == 1 {
        ChunkRosterSnoc(chunks, more[0], id);
        assert more == [more[0]];
      } else {
        ChunkRosterSnoc(chunks, more[0], id);
        ChunkRosterSnoc(chunks + [more[0]], more[1], id);
        assert chunks + more == chunks + [more[0]] + [more[1]];
      }
    } else {
      assert chunks + [] == chunks;
      NobodyEnrols(ChunkRoster(chunks, id), e, id);
    }
  }

  lemma MappedEnrols(r: Roster, kind: string, p: Payload, id: string)
    requires MapChunk(kind, p).Some?
    ensures EnrolChunk(r, MapChunk(kind, p).value, id) == EnrolEvent(r, Event(kind, p), id)
  {
    hide Enrol;
  }

  lemma NobodyEnrols(r: Roster, e: Parsed, id: string)
    requires e.Event? ==> MapChunk(e.kind, e.payload).None?
    ensures EnrolEvent(r, e, id) == r
  {
  }

  // The chunks for the events enrol whom the wire enrols.
  ghost predicate EnrolsTheWire(events: seq<Parsed>, n: nat, id: string)
    requires n <= |events|
  {
    ChunkRoster(AllChunks(events, n), id) == WireRoster(events[..n], id)
  }

  lemma WireRosterNext(events: seq<Parsed>, i: nat, id: string)
    requires i < |events|
    ensures WireRoster(events[..i + 1], id) == EnrolEvent(WireRoster(events[..i], id), events[i], id)
  {
    assert events[..i + 1][..i] == events[..i];
    hide EnrolEvent;
  }

  lemma NextEnrols(events: seq<Parsed>, i: nat, id: string)
    requires i < |events| && EnrolsTheWire(events, i, id)
    ensures EnrolsTheWire(events, i + 1, id)
  {
    hide ChunkRoster, WireRoster, EnrolEvent, AllChunks, EventChunks, UsageBefore;
    NextChunks(events, i);
    EventEnrols(AllChunks(events, i), events[i], UsageBefore(events, i), id);
    WireRosterNext(events, i, id);
  }

  lemma {:induction false} EventsEnrol(events: seq<Parsed>, n: nat, id: string)
    requires n <= |events|
    ensures EnrolsTheWire(events, n, id)
  {
    if n > 0 {
      EventsEnrol(events, n - 1, id);
      NextEnrols(events, n - 1, id);
      hide EnrolsTheWire;
    }
  }

  lemma StopsAtRoster(cs: seq<ProviderChunk>, id: string)
    requires forall i :: 0 <= i < |cs| - 1 ==> !IsTerminal(cs[i])
    ensures ChunkRoster(cs[..StopAt(cs)], id) == ChunkRoster(cs, id)
  {
    var n := StopAt(cs);
    hide StopAt, ChunkRoster;
    if n < |cs| {
      ChunkRosterSnoc(cs[..n], cs[n], id);
      assert cs == cs[..n] + [cs[n]];
    } else {
      assert cs[..n] == cs;
    }
  }

  lemma StopsJoin(before: seq<ProviderChunk>, last: seq<ProviderChunk>)
    requires forall c :: c in before ==> !IsTerminal(c)
    ensures StopAt(before + last) == |before| + StopAt(last)
  {
    var cs := before + last;
    var n, m := StopAt(cs), |before| + StopAt(last);
    hide StopAt, IsTerminal;
    assert forall i :: 0 <= i < |before| ==> cs[i] in before;
    assert forall i :: 0 <= i < |last| ==> cs[|before| + i] == last[i];
    assert forall i :: |before| <= i < m ==> cs[i] == last[i - |before|];
  }

  // The tool table of the joined stream is the list of calls on the wire.
  lemma JoinedCalls(parse: JsonParser, responses: Responses, transient: StreamError -> bool, aborted: nat -> bool, used: nat)
    requires Uses(parse, responses, transient, aborted, used)
    ensures var cs := Joined(AttemptsOf(parse, responses), used);
      ToolTable(cs, StopAt(cs)) == WireCalls(LiveEvents(parse, responses(used)))
  {
    var cs, live := Joined(AttemptsOf(parse, responses), used), LiveEvents(parse, responses(used));
    hide Joined, WireArguments, ToolInputOf, ToolIds, ToolNameOf, Uses, StopAt, WireRoster, LiveEvents;
    forall id
      ensures ToolInputOf(cs, StopAt(cs), id) == WireArguments(live, id)
      ensures Roster(ToolIds(cs, StopAt(cs)), ToolNameOf(cs, StopAt(cs), id)) == WireRoster(live, id)
    {
      JoinedBody(parse, responses, transient, aborted, used, id);
      JoinedRoster(parse, responses, transient, aborted, used, id);
    }
    assert Roster(ToolIds(cs, StopAt(cs)), ToolNameOf(cs, StopAt(cs), "")) == WireRoster(live, "");
  }

  lemma JoinedRoster(parse: JsonParser, responses: Responses, transient: StreamError -> bool, aborted: nat -> bool, used: nat, id: string)
    requires Uses(parse, responses, transient, aborted, used)
    ensures var cs := Joined(AttemptsOf(parse, responses), used);
      Roster(ToolIds(cs, StopAt(cs)), ToolNameOf(cs, StopAt(cs), id)) == WireRoster(LiveEvents(parse, responses(used)), id)
  {
    hide Joined, ToolIds, ToolNameOf, IsTerminal, IsContent, Uses, StopAt, ChunkRoster, WireRoster, AllChunks, Live, Events, Lines;
    var before, last := JoinedIs(parse, responses, transient, aborted, used);
    var cs, live := before + last, LiveEvents(parse, responses(used));
    InertPrefix(before, last, id);
    InertRoster(before, last, id);
    StopsAtRoster(cs, id);
    TableIsRoster(cs, StopAt(cs), id);
    EventsEnrol(live, |live|, id);
    assert live[..|live|] == live;
  }

  // How the joined stream ends is how the last attempt ends.
  lemma JoinedEnd(parse: JsonParser, responses: Responses, transient: StreamError -> bool, aborted: nat -> bool, used: nat)
    requires Uses(parse, responses, transient, aborted, used)
    ensures var cs, a := Joined(AttemptsOf(parse, responses), used), AttemptOf(parse, responses(used));
      && StreamFailure(cs, a.ending) == StreamFailure(a.chunks, a.ending)
      && (StopAt(cs) < |cs| <==> StopAt(a.chunks) < |a.chunks|)
      && (StopAt(cs) < |cs| ==> cs[StopAt(cs)] == a.chunks[StopAt(a.chunks)])
  {
    hide Joined, IsTerminal, IsContent, Uses, StopAt, AttemptOf;
    var before, last := JoinedIs(parse, responses, transient, aborted, used);
    StopsJoin(before, last);
  }
}
