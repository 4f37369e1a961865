/**
 The debounced completion engine of src/completion/completion-engine.ts: every new request
 supersedes the one before it, and only the current one may deliver a completion.
 */
module CompletionEngine {
  import opened Wrappers

  datatype Completion = Completion(text: string, model: string)

  // What a call to schedule was promised. `at` is the engine's request number when it was settled.
  datatype Promise = Pending | Settled(result: Option<Completion>, at: nat)

  // Promises, timers and requests go by the request number of the schedule call they belong to.
  // `armed` are the timers that can still fire, `running` the requests under way.
  datatype Engine = Engine(
    requestSeq: nat, debounceTimer: Option<nat>, pendingAbort: Option<nat>, pendingResolve: Option<nat>,
    promises: map<nat, Promise>, armed: set<nat>, running: set<nat>, aborted: set<nat>)

  const IDLE := Engine(0, None, None, None, map[], {}, {}, {})

  // How a request comes out: a completion, none, or an error.
  datatype Outcome = Answered(result: Option<Completion>) | Errored

  datatype Event = Schedule | Cancel | TimerFires(n: nat) | Settles(n: nat, outcome: Outcome)

  function AsSet(n: Option<nat>): set<nat> {
    if n.Some? then {n.value} else {}
  }

  // The first call of a promise's resolve function decides; later ones do nothing.
  function Resolved(promises: map<nat, Promise>, n: Option<nat>, result: Option<Completion>, at: nat): map<nat, Promise> {
    if n.Some? && n.value in promises && promises[n.value].Pending? then promises[n.value := Settled(result, at)] else promises
  }

  // An event that can happen in this state.
  predicate Possible(e: Engine, event: Event) {
    match event
    case TimerFires(n) => n in e.armed
    case Settles(n, _) => n in e.running
    case _ => true
  }

  function Step(e: Engine, event: Event): Engine
    requires Possible(e, event)
  {
    match event
    case Schedule =>
      var n := e.requestSeq + 1;
      Engine(n, Some(n), Some(n), Some(n),
             Resolved(e.promises, e.pendingResolve, None, n)[n := Pending],
             e.armed - AsSet(e.debounceTimer) + {n}, e.running, e.aborted + AsSet(e.pendingAbort))
    case Cancel =>
      var n := e.requestSeq + 1;
      Engine(n, None, None, None, Resolved(e.promises, e.pendingResolve, None, n),
             e.armed - AsSet(e.debounceTimer), e.running, e.aborted + AsSet(e.pendingAbort))
    case TimerFires(n) =>
      if n != e.requestSeq then e.(armed := e.armed - {n}, promises := Resolved(e.promises, Some(n), None, e.requestSeq))
      else e.(armed := e.armed - {n}, running := e.running + {n})
    case Settles(n, outcome) =>
      var result := if outcome.Answered? && n == e.requestSeq then outcome.result else None;
      e.(running := e.running - {n}, promises := Resolved(e.promises, Some(n), result, e.requestSeq))
  }

  ghost predicate PossibleRun(e: Engine, events: seq<Event>)
    decreases |events|
  {
    events != [] ==> Possible(e, events[0]) && PossibleRun(Step(e, events[0]), events[1..])
  }

  function Run(e: Engine, events: seq<Event>): Engine
    requires PossibleRun(e, events)
    decreases |events|
  {
    if events == [] then e else Run(Step(e, events[0]), events[1..])
  }

  // ----- supersession

  // Only the current request is unanswered, and it is on its way; nothing but null was ever
  // delivered for a request that was not current at that moment.
  ghost predicate Superseded(e: Engine) {
    && (forall n :: n in e.promises ==> n <= e.requestSeq)
    && (forall n :: n in e.promises && e.promises[n].Pending? ==>
          n == e.requestSeq && e.pendingResolve == Some(n) && (n in e.armed || n in e.running))
    && (forall n :: n in e.promises && e.promises[n].Settled? && e.promises[n].result.Some? ==> e.promises[n].at == n)
  }

  // Which timers and requests there are: one timer at most, and only the current request is
  // not aborted.
  ghost predicate Tidy(e: Engine) {
    && e.armed <= AsSet(e.debounceTimer)
    && (forall n :: n in e.armed ==> n == e.requestSeq && n in e.promises)
    && (forall n :: n in e.running ==> n in e.promises && n !in e.armed && (n == e.requestSeq || n in e.aborted))
    && (e.pendingAbort.Some? ==> e.pendingAbort.value <= e.requestSeq)
    && (e.requestSeq in e.promises ==> e.pendingAbort == Some(e.requestSeq))
    && (forall n :: n in e.aborted ==> n < e.requestSeq)
  }

  lemma StepKeeps(e: Engine, event: Event)
    requires Superseded(e) && Tidy(e) && Possible(e, event)
    ensures Superseded(Step(e, event)) && Tidy(Step(e, event))
  {
    assert e.requestSeq + 1 !in e.promises;
  }

  /**
   Whatever the order of keystrokes, cancellations, timers and answers: at most the current
   request is unanswered, and a completion only ever reaches the call that was current when it came.
   */
  lemma {:induction false} RunKeeps(e: Engine, events: seq<Event>)
    requires Superseded(e) && Tidy(e) && PossibleRun(e, events)
    ensures Superseded(Run(e, events)) && Tidy(Run(e, events))
    decreases |events|
  {
    if events != [] {
      StepKeeps(e, events[0]);
      RunKeeps(Step(e, events[0]), events[1..]);
    }
  }

  lemma EveryRunFromIdle(events: seq<Event>)
    requires PossibleRun(IDLE, events)
    ensures Superseded(Run(IDLE, events)) && Tidy(Run(IDLE, events))
  {
    RunKeeps(IDLE, events);
  }

  /** A superseding event settles what was open with null; what is settled stays as it is. */
  lemma {:induction false} SettledForGood(e: Engine, events: seq<Event>, n: nat)
    requires Superseded(e) && Tidy(e) && PossibleRun(e, events) && n in e.promises
    ensures n in Run(e, events).promises
    ensures e.promises[n].Settled? ==> Run(e, events).promises[n] == e.promises[n]
    ensures e.promises[n].Pending? && events != [] && (events[0].Schedule? || events[0].Cancel?) ==>
      Run(e, events).promises[n] == Settled(None, n + 1)
    decreases |events|
  {
    if events != [] {
      var next := Step(e, events[0]);
      StepKeeps(e, events[0]);
      assert n in next.promises && n <= e.requestSeq;
      assert e.promises[n].Settled? ==> next.promises[n] == e.promises[n];
      SettledForGood(next, events[1..], n);
    }
  }

  // An open promise has a timer to fire or a request to answer it.
  lemma OpenPromiseProgresses(e: Engine, n: nat, outcome: Outcome)
    requires Superseded(e) && Tidy(e) && n in e.promises && e.promises[n].Pending?
    ensures n in e.armed ==>
      Possible(e, TimerFires(n)) && n in Step(e, TimerFires(n)).running &&
      n in Step(e, TimerFires(n)).promises && Step(e, TimerFires(n)).promises[n].Pending?
    ensures n !in e.armed ==>
      Possible(e, Settles(n, outcome)) && n in Step(e, Settles(n, outcome)).promises &&
      Step(e, Settles(n, outcome)).promises[n] == Settled(if outcome.Answered? then outcome.result else None, n)
  {
  }

  predicate OwnEvents(events: seq<Event>) {
    forall event :: event in events ==> !event.Schedule? && !event.Cancel?
  }

  /**
   No promise hangs: in every reachable state, if nobody supersedes the open promise, two events at
   most settle it, with whatever its request comes out as.
   */
  lemma OpenPromiseCanSettle(events: seq<Event>, n: nat, outcome: Outcome)
    requires PossibleRun(IDLE, events)
    requires n in Run(IDLE, events).promises && Run(IDLE, events).promises[n].Pending?
    ensures exists more ::
      && |more| <= 2 && OwnEvents(more) && PossibleRun(Run(IDLE, events), more)
      && n in Run(Run(IDLE, events), more).promises
      && Run(Run(IDLE, events), more).promises[n] == Settled(if outcome.Answered? then outcome.result else None, n)
  {
    var e := Run(IDLE, events);
    RunKeeps(IDLE, events);
    OpenPromiseProgresses(e, n, outcome);
    if n in e.armed {
      var next := Step(e, TimerFires(n));
      StepKeeps(e, TimerFires(n));
      assert n !in next.armed;
      OpenPromiseProgresses(next, n, outcome);
      SingleEvent(next, Settles(n, outcome));
      var more := [TimerFires(n), Settles(n, outcome)];
      assert more[1..] == [Settles(n, outcome)];
      hide Step, Superseded, Tidy;
      assert PossibleRun(e, more) && Run(e, more) == Step(next, Settles(n, outcome));
    } else {
      SingleEvent(e, Settles(n, outcome));
      hide Step, Superseded, Tidy;
      assert OwnEvents([Settles(n, outcome)]);
    }
  }

  lemma SingleEvent(e: Engine, event: Event)
    requires Possible(e, event)
    ensures PossibleRun(e, [event]) && Run(e, [event]) == Step(e, event)
  {
    assert [event][1..] == [];
  }

  // ----- the engine object

  class Debouncer {
    var requestSeq: nat
    var debounceTimer: Option<nat>
    var pendingAbort: Option<nat>
    var pendingResolve: Option<nat>
    var promises: map<nat, Promise>
    var armed: set<nat>
    var running: set<nat>
    var aborted: set<nat>

    constructor ()
      ensures Value() == IDLE
    {
      requestSeq, debounceTimer, pendingAbort, pendingResolve := 0, None, None, None;
      promises, armed, running, aborted := map[], {}, {}, {};
    }

    function Value(): Engine
      reads this
    {
      Engine(requestSeq, debounceTimer, pendingAbort, pendingResolve, promises, armed, running, aborted)
    }

    // Calls a resolve function.
    method Resolve(n: nat, result: Option<Completion>)
      modifies this`promises
      ensures promises == Resolved(old(promises), Some(n), result, requestSeq)
    {
      if n in promises && promises[n].Pending? {
        promises := promises[n := Settled(result, requestSeq)];
      }
    }

    method ClearTimer()
      modifies this`armed
      ensures armed == old(armed) - AsSet(debounceTimer)
    {
      if debounceTimer.Some? {
        armed := armed - {debounceTimer.value};
      }
    }

    /** A keystroke: supersedes what is open and arms a new timer. */
    method Schedule() returns (n: nat)
      modifies this
      ensures Value() == Step(old(Value()), Event.Schedule) && n == requestSeq
    {
      requestSeq := requestSeq + 1;
      n := requestSeq;
      if pendingAbort.Some? {
        aborted := aborted + {pendingAbort.value};
      }
      if pendingResolve.Some? {
        Resolve(pendingResolve.value, None);
      }
      pendingAbort := Some(n);
      ClearTimer();
      promises := promises[n := Pending];
      pendingResolve := Some(n);
      debounceTimer := Some(n);
      armed := armed + {n};
    }

    method CancelPending()
      modifies this
      ensures Value() == Step(old(Value()), Cancel)
    {
      requestSeq := requestSeq + 1;
      ClearTimer();
      debounceTimer := None;
      if pendingAbort.Some? {
        aborted := aborted + {pendingAbort.value};
      }
      pendingAbort := None;
      if pendingResolve.Some? {
        Resolve(pendingResolve.value, None);
      }
      pendingResolve := None;
    }

    /** The timer callback: a request starts only for the current call. */
    method OnTimer(n: nat)
      requires n in armed
      modifies this
      ensures Value() == Step(old(Value()), TimerFires(n))
    {
      armed := armed - {n};
      if n != requestSeq {
        Resolve(n, None);
        return;
      }
      running := running + {n};
    }

    /** The answer to a request. */
    method OnAnswer(n: nat, outcome: Outcome)
      requires n in running
      modifies this
      ensures Value() == Step(old(Value()), Settles(n, outcome))
    {
      running := running - {n};
      match outcome {
        case Answered(result) => Resolve(n, if n == requestSeq then result else None);
        case Errored => Resolve(n, None);
      }
    }
  }

  // ----- the completion cache

  datatype CacheEntry = CacheEntry(completion: Completion, expiresAt: nat)

  // A JavaScript Map: entries in insertion order, one per key.
  type Cache = seq<(string, CacheEntry)>

  ghost predicate OnePerKey(cache: Cache) {
    forall i, j :: 0 <= i < j < |cache| ==> cache[i].0 != cache[j].0
  }

  function IndexOf(cache: Cache, key: string): (k: Option<nat>)
    ensures k.Some? ==> k.value < |cache| && cache[k.value].0 == key
    ensures k.None? ==> forall i :: 0 <= i < |cache| ==> cache[i].0 != key
  {
    if cache == [] then None else if cache[0].0 == key then Some(0) else
      match IndexOf(cache[1..], key) case None => None case Some(k) => Some(k + 1)
  }

  function Without(cache: Cache, k: nat): Cache
    requires k < |cache|
  {
    cache[..k] + cache[k + 1..]
  }

  /** A hit moves the entry to the young end; an expired entry is dropped. */
  method CacheGet(cache: Cache, key: string, now: nat) returns (hit: Option<CacheEntry>, after: Cache)
    requires OnePerKey(cache)
    ensures OnePerKey(after)
    ensures var k := IndexOf(cache, key);
      && (hit.Some? <==> k.Some? && cache[k.value].1.expiresAt > now)
      && (hit.Some? ==> hit.value == cache[k.value].1 && after == Without(cache, k.value) + [(key, hit.value)])
      && (hit.None? ==> after == if k.Some? then Without(cache, k.value) else cache)
  {
    var k := IndexOf(cache, key);
    if k.None? {
      return None, cache;
    }
    var entry := cache[k.value].1;
    after := Without(cache, k.value);
    if entry.expiresAt <= now {
      return None, after;
    }
    after := after + [(key, entry)];
    hit := Some(entry);
  }

  // A Map's `set`: an existing key keeps its place.
  function Inserted(cache: Cache, key: string, entry: CacheEntry): Cache {
    var k := IndexOf(cache, key);
    if k.Some? then cache[k.value := (key, entry)] else cache + [(key, entry)]
  }

  // All other entries stay as they are; the new one takes the place of its key's, or comes last.
  ghost predicate IsInserted(after: Cache, cache: Cache, key: string, entry: CacheEntry) {
    && |cache| <= |after| && (key, entry) in after
    && (forall i :: 0 <= i < |cache| ==> after[i] == if cache[i].0 == key then (key, entry) else cache[i])
    && |after| == |cache| + if exists i :: 0 <= i < |cache| && cache[i].0 == key then 0 else 1
  }

  lemma InsertedOnce(cache: Cache, key: string, entry: CacheEntry)
    requires OnePerKey(cache)
    ensures IsInserted(Inserted(cache, key, entry), cache, key, entry)
    ensures OnePerKey(Inserted(cache, key, entry)) && (key, entry) in Inserted(cache, key, entry)
    ensures |Inserted(cache, key, entry)| == |cache| + if IndexOf(cache, key).Some? then 0 else 1
  {
    var k := IndexOf(cache, key);
    assert Inserted(cache, key, entry)[if k.Some? then k.value else |cache|] == (key, entry);
  }

  // The youngest n entries, or all.
  function Youngest(cache: Cache, n: nat): Cache {
    if |cache| <= n then cache else cache[|cache| - n..]
  }

  /** Stores an entry, then drops the oldest until the cache fits: exactly the youngest survive. */
  method CacheSet(cache: Cache, key: string, entry: CacheEntry, maxEntries: nat) returns (after: Cache)
    requires OnePerKey(cache)
    ensures after == Youngest(Inserted(cache, key, entry), maxEntries)
    ensures IsInserted(Inserted(cache, key, entry), cache, key, entry)
    ensures OnePerKey(after) && |after| <= maxEntries
    ensures |cache| <= maxEntries && maxEntries > 0 ==> (key, entry) in after
  {
    hide Inserted, IsInserted, OnePerKey, IndexOf;
    InsertedOnce(cache, key, entry);
    ghost var all := Inserted(cache, key, entry);
    if |cache| <= maxEntries && maxEntries > 0 {
      NewestStays(cache, key, entry, maxEntries);
    }
    after := Inserted(cache, key, entry);
    while |after| > maxEntries
      invariant |after| <= |all| && after == all[|all| - |after|..]
      invariant |all| <= maxEntries ==> after == all
      invariant |all| > maxEntries ==> |after| >= maxEntries
    {
      after := after[1..];
    }
    YoungestOnce(all, maxEntries);
  }

  lemma YoungestOnce(cache: Cache, n: nat)
    requires OnePerKey(cache)
    ensures OnePerKey(Youngest(cache, n))
  {
  }

  lemma NewestStays(cache: Cache, key: string, entry: CacheEntry, n: nat)
    requires OnePerKey(cache) && |cache| <= n && n > 0
    ensures (key, entry) in Youngest(Inserted(cache, key, entry), n)
  {
    InsertedOnce(cache, key, entry);
    var all := Inserted(cache, key, entry);
    if |all| > n {
      assert all[|cache|] == (key, entry) && Youngest(all, n)[n - 1] == all[|cache|];
    }
  }

  // ----- dropping an echo of the text before the cursor

  const MIN_OVERLAP := 8

  predicate EndsWith(a: string, b: string) {
    |b| <= |a| && a[|a| - |b|..] == b
  }

  /** The longest prefix of b, of at least eight characters, that a ends with. */
  method LongestSuffixPrefixOverlap(a: string, b: string) returns (n: nat)
    ensures n == 0 || (8 <= n <= |b| && EndsWith(a, b[..n]))
    ensures forall m: nat :: 8 <= m <= |b| && EndsWith(a, b[..m]) ==> m <= n
  {
    var len := if |a| < |b| then |a| else |b|;
    while len >= MIN_OVERLAP
      invariant 0 <= len <= |a| && len <= |b|
      invariant forall m :: len < m <= |b| ==> !EndsWith(a, b[..m])
    {
      if EndsWith(a, b[..len]) {
        return len;
      }
      len := len - 1;
    }
    return 0;
  }
}
