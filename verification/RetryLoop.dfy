/**
 The two loops that retry a whole stream: the adapter's (src/ai-sdk-provider.ts, at most three
 attempts) and the runtime invoker's (src/plugin.ts, at most four). Which errors are transient,
 and when the caller aborts, are parameters, and so is what each attempt does.
 */
module RetryLoop {
  import opened Wrappers
  import opened ProviderTypes

  // What attempt number k, counted from 1, delivers and how it ends.
  datatype Attempt = Attempt(chunks: seq<ProviderChunk>, ending: Ending)

  type Attempts = nat -> Attempt

  const MAX_ATTEMPTS := 3
  const MAX_INVOKER_ATTEMPTS := 4

  predicate IsContent(c: ProviderChunk) {
    c.TextDelta? || c.ReasoningDelta? || c.ToolDelta?
  }

  function ContentOf(chunks: seq<ProviderChunk>): seq<ProviderChunk> {
    if chunks == [] then [] else (if IsContent(chunks[0]) then [chunks[0]] else []) + ContentOf(chunks[1..])
  }

  // Everything the first n attempts deliver.
  function Joined(attempts: Attempts, n: nat): seq<ProviderChunk> {
    if n == 0 then [] else Joined(attempts, n - 1) + attempts(n).chunks
  }

  // Attempt k fails in a way that is tried again.
  predicate TriedAgain(attempts: Attempts, transient: StreamError -> bool, aborted: nat -> bool, k: nat) {
    && attempts(k).ending.Failed? && transient(attempts(k).ending.error)
    && ContentOf(attempts(k).chunks) == [] && k < 3 && !aborted(k)
  }

  lemma ContentCons(c: ProviderChunk, xs: seq<ProviderChunk>)
    ensures ContentOf([c] + xs) == (if IsContent(c) then [c] else []) + ContentOf(xs)
  {
    assert ([c] + xs)[1..] == xs;
  }

  lemma {:induction false} ContentConcat(x: seq<ProviderChunk>, y: seq<ProviderChunk>)
    ensures ContentOf(x + y) == ContentOf(x) + ContentOf(y)
  {
    if x == [] {
      assert x + y == y;
    } else {
      hide ContentOf, IsContent;
      ContentConcat(x[1..], y);
      ContentCons(x[0], x[1..]);
      ContentCons(x[0], x[1..] + y);
      assert x == [x[0]] + x[1..] && x + y == [x[0]] + (x[1..] + y);
    }
  }

  lemma ContentSnoc(x: seq<ProviderChunk>, c: ProviderChunk)
    ensures ContentOf(x + [c]) == ContentOf(x) + if IsContent(c) then [c] else []
  {
    ContentConcat(x, [c]);
    assert [c][1..] == [];
  }

  lemma JoinedStep(attempts: Attempts, n: nat)
    requires n >= 1
    ensures Joined(attempts, 0) == [] && ContentOf([]) == []
    ensures Joined(attempts, n) == Joined(attempts, n - 1) + attempts(n).chunks
  {
  }

  lemma RetryIs(attempts: Attempts, transient: StreamError -> bool, aborted: nat -> bool, k: nat)
    ensures TriedAgain(attempts, transient, aborted, k) <==>
      (attempts(k).ending.Failed? && transient(attempts(k).ending.error)
       && ContentOf(attempts(k).chunks) == [] && k < 3 && !aborted(k))
  {
  }

  /** The adapter's loop: retries before any content, and passes every other error on. */
  method Chunks(attempts: Attempts, transient: StreamError -> bool, aborted: nat -> bool)
    returns (delivered: seq<ProviderChunk>, ending: Ending, used: nat)
    ensures 1 <= used <= 3
    ensures (forall k :: 1 <= k < used ==> TriedAgain(attempts, transient, aborted, k))
    ensures !TriedAgain(attempts, transient, aborted, used)
    ensures delivered == Joined(attempts, used) && ending == attempts(used).ending
  {
    delivered, used := [], 1;
    hide Joined, TriedAgain, ContentOf;
    JoinedStep(attempts, 1);
    while true
      invariant 1 <= used <= MAX_ATTEMPTS && delivered == Joined(attempts, used - 1)
      invariant forall k :: 1 <= k < used ==> TriedAgain(attempts, transient, aborted, k)
      decreases MAX_ATTEMPTS - used
    {
      JoinedStep(attempts, used);
      RetryIs(attempts, transient, aborted, used);
      var emittedContent := false;
      var source := attempts(used).chunks;
      for i := 0 to |source|
        invariant delivered == Joined(attempts, used - 1) + source[..i]
        invariant emittedContent <==> ContentOf(source[..i]) != []
      {
        assert source[..i + 1] == source[..i] + [source[i]];
        ContentSnoc(source[..i], source[i]);
        if IsContent(source[i]) {
          emittedContent := true;
        }
        delivered := delivered + [source[i]];
      }
      assert source[..|source|] == source;
      ending := attempts(used).ending;
      if ending.Completed? {
        return;
      }
      if emittedContent || !transient(ending.error) || used >= MAX_ATTEMPTS || aborted(used) {
        return;
      }
      used := used + 1;
    }
  }

  /** All content that reaches the consumer comes from the last attempt, whatever the others did. */
  lemma {:induction false} ContentFromLastAttempt(attempts: Attempts, transient: StreamError -> bool, aborted: nat -> bool, used: nat)
    requires used >= 1 && forall k :: 1 <= k < used ==> TriedAgain(attempts, transient, aborted, k)
    ensures ContentOf(Joined(attempts, used)) == ContentOf(attempts(used).chunks)
    decreases used
  {
    ContentConcat(Joined(attempts, used - 1), attempts(used).chunks);
    if used > 1 {
      ContentFromLastAttempt(attempts, transient, aborted, used - 1);
      assert TriedAgain(attempts, transient, aborted, used - 1);
    }
  }

  // ----- the runtime invoker

  datatype RuntimeChunk =
    | RuntimeText(delta: string)
    | RuntimeReasoning(delta: string)
    | RuntimeUsage(inputUnits: int, outputUnits: int, costMinor: string)

  // The runtime chunk for a provider chunk; route, tool and finish chunks are not passed on.
  function Bridged(c: ProviderChunk): seq<RuntimeChunk> {
    match c
    case TextDelta(delta) => [RuntimeText(delta)]
    case ReasoningDelta(delta) => [RuntimeReasoning(delta)]
    case Usage(input, output, _, _, cost) => [RuntimeUsage(input, output, if cost.Some? then cost.value.amount else "0")]
    case _ => []
  }

  // An attempt is read up to its first error chunk.
  function BridgedAll(chunks: seq<ProviderChunk>): seq<RuntimeChunk> {
    if chunks == [] || chunks[0].ErrorChunk? then [] else Bridged(chunks[0]) + BridgedAll(chunks[1..])
  }

  function Pending(chunks: seq<ProviderChunk>, ending: Ending): Option<StreamError> {
    if chunks == [] then if ending.Failed? then Some(ending.error) else None
    else if chunks[0].ErrorChunk? then Some(chunks[0].error)
    else Pending(chunks[1..], ending)
  }

  predicate IsRuntimeContent(c: RuntimeChunk) {
    !c.RuntimeUsage?
  }

  function RuntimeContentOf(chunks: seq<RuntimeChunk>): seq<RuntimeChunk> {
    if chunks == [] then [] else (if IsRuntimeContent(chunks[0]) then [chunks[0]] else []) + RuntimeContentOf(chunks[1..])
  }

  function JoinedRuntime(attempts: Attempts, n: nat): seq<RuntimeChunk> {
    if n == 0 then [] else JoinedRuntime(attempts, n - 1) + BridgedAll(attempts(n).chunks)
  }

  predicate InvokedAgain(attempts: Attempts, transient: StreamError -> bool, aborted: nat -> bool, k: nat) {
    var pending := Pending(attempts(k).chunks, attempts(k).ending);
    && pending.Some? && transient(pending.value)
    && RuntimeContentOf(BridgedAll(attempts(k).chunks)) == [] && k < 4 && !aborted(k)
  }

  lemma RuntimeContentCons(c: RuntimeChunk, xs: seq<RuntimeChunk>)
    ensures RuntimeContentOf([c] + xs) == (if IsRuntimeContent(c) then [c] else []) + RuntimeContentOf(xs)
  {
    assert ([c] + xs)[1..] == xs;
  }

  lemma {:induction false} RuntimeContentConcat(x: seq<RuntimeChunk>, y: seq<RuntimeChunk>)
    ensures RuntimeContentOf(x + y) == RuntimeContentOf(x) + RuntimeContentOf(y)
  {
    if x == [] {
      assert x + y == y;
    } else {
      hide RuntimeContentOf, IsRuntimeContent;
      RuntimeContentConcat(x[1..], y);
      RuntimeContentCons(x[0], x[1..]);
      RuntimeContentCons(x[0], x[1..] + y);
      assert x == [x[0]] + x[1..] && x + y == [x[0]] + (x[1..] + y);
    }
  }

  // One attempt, read to its end, to a thrown error, or to the first error chunk.
  method InvokeOnce(source: seq<ProviderChunk>, ending: Ending) returns (yielded: seq<RuntimeChunk>, emittedContent: bool, pending: Option<StreamError>)
    ensures yielded == BridgedAll(source) && pending == Pending(source, ending)
    ensures emittedContent <==> RuntimeContentOf(yielded) != []
  {
    hide Bridged, RuntimeContentOf, BridgedAll, Pending;
    yielded, emittedContent := [], false;
    NothingBridged(ending);
    assert source[0..] == source;
    for i := 0 to |source|
      invariant BridgedAll(source) == yielded + BridgedAll(source[i..])
      invariant Pending(source, ending) == Pending(source[i..], ending)
      invariant emittedContent <==> RuntimeContentOf(yielded) != []
    {
      var chunk := source[i];
      BridgedStep(source, i, ending);
      if chunk.ErrorChunk? {
        return yielded, emittedContent, Some(chunk.error);
      }
      RuntimeContentConcat(yielded, Bridged(chunk));
      BridgedContent(chunk);
      if chunk.TextDelta? || chunk.ReasoningDelta? {
        emittedContent := true;
      }
      yielded := yielded + Bridged(chunk);
    }
    assert source[|source|..] == [];
    pending := if ending.Failed? then Some(ending.error) else None;
  }

  lemma NothingBridged(ending: Ending)
    ensures BridgedAll([]) == [] && RuntimeContentOf([]) == []
    ensures Pending([], ending) == if ending.Failed? then Some(ending.error) else None
  {
  }

  lemma BridgedStep(source: seq<ProviderChunk>, i: nat, ending: Ending)
    requires i < |source|
    ensures BridgedAll(source[i..]) ==
            if source[i].ErrorChunk? then [] else Bridged(source[i]) + BridgedAll(source[i + 1..])
    ensures Pending(source[i..], ending) ==
            if source[i].ErrorChunk? then Some(source[i].error) else Pending(source[i + 1..], ending)
  {
    hide Bridged;
    assert source[i..][0] == source[i] && source[i..][1..] == source[i + 1..];
  }

  lemma BridgedContent(c: ProviderChunk)
    ensures RuntimeContentOf(Bridged(c)) != [] <==> c.TextDelta? || c.ReasoningDelta?
  {
    if Bridged(c) != [] {
      assert Bridged(c)[1..] == [];
    }
  }

  /** The invoker's loop. An error that is not retried is thrown. */
  method Invoke(attempts: Attempts, transient: StreamError -> bool, aborted: nat -> bool)
    returns (yielded: seq<RuntimeChunk>, thrown: Option<StreamError>, used: nat)
    ensures 1 <= used <= 4
    ensures forall k :: 1 <= k < used ==> InvokedAgain(attempts, transient, aborted, k)
    ensures !InvokedAgain(attempts, transient, aborted, used)
    ensures yielded == JoinedRuntime(attempts, used)
    ensures thrown == Pending(attempts(used).chunks, attempts(used).ending)
  {
    yielded, used := [], 0;
    while true
      invariant 0 <= used < MAX_INVOKER_ATTEMPTS && yielded == JoinedRuntime(attempts, used)
      invariant forall k :: 1 <= k <= used ==> InvokedAgain(attempts, transient, aborted, k)
      decreases MAX_INVOKER_ATTEMPTS - used
    {
      used := used + 1;
      var chunks, emittedContent, pendingError := InvokeOnce(attempts(used).chunks, attempts(used).ending);
      yielded := yielded + chunks;
      thrown := pendingError;
      if pendingError.None? {
        return;
      }
      if emittedContent || !transient(pendingError.value) || used >= MAX_INVOKER_ATTEMPTS || aborted(used) {
        return;
      }
    }
  }

  /** The runtime too sees the content of the last attempt only. */
  lemma {:induction false} InvokedContentFromLast(attempts: Attempts, transient: StreamError -> bool, aborted: nat -> bool, used: nat)
    requires used >= 1 && forall k :: 1 <= k < used ==> InvokedAgain(attempts, transient, aborted, k)
    ensures RuntimeContentOf(JoinedRuntime(attempts, used)) == RuntimeContentOf(BridgedAll(attempts(used).chunks))
    decreases used
  {
    RuntimeContentConcat(JoinedRuntime(attempts, used - 1), BridgedAll(attempts(used).chunks));
    if used > 1 {
      InvokedContentFromLast(attempts, transient, aborted, used - 1);
      assert InvokedAgain(attempts, transient, aborted, used - 1);
    }
  }
}
