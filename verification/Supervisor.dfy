/**
 The process supervisor of src/mcp-supervisor.ts: a crashed child is restarted after a delay, at
 most three times, and stopping or reconnecting invalidates every delayed restart by its epoch.
 */
module Supervisor {
  import opened Wrappers

  const MAX_RESTARTS := 3

  // `timers` are the delayed restarts that have not fired, each with the epoch it was armed in.
  // `alive` are the children that have not exited. `spawns` counts the calls of spawnProcess
  // since the last start or reconnect, and `active` says that no stop came after it.
  datatype State = State(
    process: Option<nat>, restartCount: nat, epoch: nat, timers: map<nat, nat>,
    nextTimer: nat, nextChild: nat, alive: set<nat>, spawns: nat, active: bool)

  const NEW := State(None, 0, 0, map[], 0, 0, {}, 0, false)

  // Spawning gives a child, or throws before there is one. A throw after that, while the
  // handshake is sent, leaves the child in place.
  datatype Spawning = Spawned | SpawnThrows

  datatype Event =
    | Start(r: Spawning)
    | Reconnect(r: Spawning)
    | Stop
    | ChildExit(c: nat, code: Option<int>)
    | ChildError(c: nat)
    | TimerFires(t: nat, r: Spawning)

  predicate Possible(s: State, e: Event) {
    match e
    case ChildExit(c, _) => c in s.alive
    case ChildError(c) => c < s.nextChild
    case TimerFires(t, _) => t in s.timers
    case _ => true
  }

  function Spawn(s: State, r: Spawning): State {
    var t := s.(spawns := s.spawns + 1);
    if r == SpawnThrows then t else
      t.(process := Some(s.nextChild), alive := s.alive + {s.nextChild}, nextChild := s.nextChild + 1)
  }

  // A child that was killed by a signal has no exit code.
  predicate Crashed(code: Option<int>) {
    code.Some? && code.value != 0
  }

  function Step(s: State, e: Event): State
    requires Possible(s, e)
  {
    match e
    case Start(r) => Spawn(s.(restartCount := 0, spawns := 0, active := true), r)
    case Reconnect(r) => Spawn(s.(epoch := s.epoch + 1, restartCount := 0, spawns := 0, active := true), r)
    case Stop => s.(epoch := s.epoch + 1, process := None, active := false)
    case ChildExit(c, code) =>
      var t := s.(alive := s.alive - {c});
      if s.process == Some(c) && Crashed(code) && s.restartCount < MAX_RESTARTS then
        t.(restartCount := s.restartCount + 1, timers := s.timers[s.nextTimer := s.epoch], nextTimer := s.nextTimer + 1)
      else t
    case ChildError(c) => if s.process == Some(c) then s.(process := None) else s
    case TimerFires(t, r) =>
      var u := s.(timers := s.timers - {t});
      if s.timers[t] == s.epoch then Spawn(u, r) else u
  }

  // The timers that would restart the child if they fired now.
  function Live(s: State): set<nat> {
    set t | t in s.timers && s.timers[t] == s.epoch
  }

  // Starting again is safe only when no delayed restart is pending, as it is initially and after a stop.
  predicate Sensible(s: State, e: Event) {
    Possible(s, e) && (e.Start? ==> Live(s) == {})
  }

  ghost predicate SensibleRun(s: State, events: seq<Event>)
    decreases |events|
  {
    events != [] ==> Sensible(s, events[0]) && SensibleRun(Step(s, events[0]), events[1..])
  }

  ghost predicate PossibleRun(s: State, events: seq<Event>)
    decreases |events|
  {
    events != [] ==> Possible(s, events[0]) && PossibleRun(Step(s, events[0]), events[1..])
  }

  function Run(s: State, events: seq<Event>): State
    requires PossibleRun(s, events)
    decreases |events|
  {
    if events == [] then s else Run(Step(s, events[0]), events[1..])
  }

  // ----- bounded restarts

  // Names are handed out once, and no timer is from a later epoch.
  ghost predicate WellNamed(s: State) {
    && (forall t :: t in s.timers ==> t < s.nextTimer && s.timers[t] <= s.epoch)
    && (forall c :: c in s.alive ==> c < s.nextChild)
    && (s.process.Some? ==> s.process.value < s.nextChild)
  }

  // Every spawn but the first was paid for by a restart, and so is every live timer.
  ghost predicate Bounded(s: State) {
    && WellNamed(s)
    && s.restartCount <= MAX_RESTARTS
    && |Live(s)| <= 1
    && (Live(s) != {} ==> s.active && (s.process.Some? ==> s.process.value !in s.alive))
    && (s.active ==> s.spawns + |Live(s)| == 1 + s.restartCount)
    && (!s.active ==> s.process == None && s.spawns <= 1 + s.restartCount)
  }

  lemma LiveAfterArming(s: State, u: State)
    requires WellNamed(s) && u.timers == s.timers[s.nextTimer := s.epoch] && u.epoch == s.epoch
    ensures Live(u) == Live(s) + {s.nextTimer} && |Live(u)| == |Live(s)| + 1
  {
    assert s.nextTimer !in Live(s);
    assert Live(u) == Live(s) + {s.nextTimer};
  }

  lemma LiveAfterFiring(s: State, t: nat, u: State)
    requires t in s.timers && u.timers == s.timers - {t} && u.epoch == s.epoch
    ensures Live(u) == Live(s) - {t}
    ensures |Live(u)| == |Live(s)| - if s.timers[t] == s.epoch then 1 else 0
  {
    assert Live(u) == Live(s) - {t};
    if s.timers[t] == s.epoch {
      assert t in Live(s);
    }
  }

  lemma LiveAfterEpoch(s: State, u: State)
    requires WellNamed(s) && u.timers == s.timers && u.epoch > s.epoch
    ensures Live(u) == {}
  {
  }

  lemma ExitKeepsBounded(s: State, c: nat, code: Option<int>)
    requires Bounded(s) && c in s.alive
    ensures Bounded(Step(s, ChildExit(c, code)))
  {
    var u := Step(s, ChildExit(c, code));
    if s.process == Some(c) {
      assert Live(s) == {} && s.active;
      if u.restartCount != s.restartCount {
        LiveAfterArming(s, u);
        assert u.process.value !in u.alive;
      } else {
        assert u.timers == s.timers && Live(u) == Live(s);
      }
    } else {
      assert Live(u) == Live(s);
    }
  }

  lemma StepKeepsBounded(s: State, e: Event)
    requires Bounded(s) && Sensible(s, e)
    ensures Bounded(Step(s, e))
  {
    var u := Step(s, e);
    match e
    case Start(_) => assert Live(u) == Live(s);
    case Reconnect(_) => LiveAfterEpoch(s, u);
    case Stop => LiveAfterEpoch(s, u);
    case ChildExit(c, code) =>
      ExitKeepsBounded(s, c, code);
    case ChildError(_) => assert Live(u) == Live(s);
    case TimerFires(t, _) => LiveAfterFiring(s, t, u);
  }

  lemma {:induction false} SensibleIsPossible(s: State, events: seq<Event>)
    requires SensibleRun(s, events)
    ensures PossibleRun(s, events)
    decreases |events|
  {
    if events != [] {
      SensibleIsPossible(Step(s, events[0]), events[1..]);
    }
  }

  lemma {:induction false} RunKeepsBounded(s: State, events: seq<Event>)
    requires Bounded(s) && SensibleRun(s, events)
    ensures PossibleRun(s, events) && Bounded(Run(s, events))
    decreases |events|
  {
    SensibleIsPossible(s, events);
    if events != [] {
      StepKeepsBounded(s, events[0]);
      RunKeepsBounded(Step(s, events[0]), events[1..]);
    }
  }

  /**
   In any interleaving of exits, errors, timers, reconnects, stops and sensible starts: while the
   supervisor is active, the spawns since the last start or reconnect and the live timers, of which
   there is at most one, make up one more than the restarts, of which there are at most three.
   */
  lemma RestartsAreBounded(events: seq<Event>)
    requires SensibleRun(NEW, events)
    ensures PossibleRun(NEW, events)
    ensures var s := Run(NEW, events);
      && |Live(s)| <= 1 && s.restartCount <= 3 && s.spawns <= 4
      && (s.active ==> s.spawns + |Live(s)| == 1 + s.restartCount)
  {
    assert Live(NEW) == {};
    RunKeepsBounded(NEW, events);
  }

  /** A delayed restart is armed exactly by a crash of the current child, while fewer than three were. */
  lemma RestartArmedExactly(s: State, e: Event)
    requires WellNamed(s) && Possible(s, e) && !e.Stop? && !e.Reconnect?
    ensures (exists t :: t in Live(Step(s, e)) && t !in Live(s)) <==>
      (e.ChildExit? && s.process == Some(e.c) && e.code.Some? && e.code.value != 0 && s.restartCount < 3)
  {
    var u := Step(s, e);
    if e.ChildExit? && s.process == Some(e.c) && e.code.Some? && e.code.value != 0 && s.restartCount < 3 {
      assert s.nextTimer in Live(u) && s.nextTimer !in Live(s);
    } else {
      assert Live(u) <= Live(s);
    }
  }

  /** A crash within the bound is made good: one timer is live, and when that fires there is a new child. */
  lemma CrashIsMadeGood(s: State, c: nat, code: int)
    requires Bounded(s) && c in s.alive && s.process == Some(c) && code != 0 && s.restartCount < 3
    ensures var u := Step(s, ChildExit(c, Some(code)));
      exists t :: t in u.timers && Live(u) == {t} && Possible(u, TimerFires(t, Spawned)) &&
        var v := Step(u, TimerFires(t, Spawned));
        v.process == Some(s.nextChild) && s.nextChild in v.alive && s.nextChild !in s.alive && v.spawns == s.spawns + 1
  {
    var u := Step(s, ChildExit(c, Some(code)));
    assert Live(s) == {};
    LiveAfterArming(s, u);
    assert s.nextTimer in u.timers && Live(u) == {s.nextTimer};
  }

  /** Starting again keeps the bound exactly when no delayed restart is pending. */
  lemma StartKeepsBoundIffQuiet(s: State, r: Spawning)
    requires Bounded(s)
    ensures Bounded(Step(s, Start(r))) <==> Live(s) == {}
  {
    assert Live(Step(s, Start(r))) == Live(s);
    if Live(s) == {} {
      StepKeepsBounded(s, Start(r));
    }
  }

  // Bounded from here on, through every state of the run.
  ghost predicate BoundedThroughout(s: State, events: seq<Event>)
    requires PossibleRun(s, events)
    decreases |events|
  {
    Bounded(s) && (events != [] ==> BoundedThroughout(Step(s, events[0]), events[1..]))
  }

  /** A run is bounded throughout exactly when every start in it finds no delayed restart pending. */
  lemma {:induction false} BoundedExactlyWhenSensible(s: State, events: seq<Event>)
    requires Bounded(s) && PossibleRun(s, events)
    ensures BoundedThroughout(s, events) <==> SensibleRun(s, events)
    decreases |events|
  {
    hide Bounded, Step, Live;
    if events != [] {
      if events[0].Start? {
        StartKeepsBoundIffQuiet(s, events[0].r);
      } else {
        StepKeepsBounded(s, events[0]);
      }
      var next := Step(s, events[0]);
      if Bounded(next) {
        BoundedExactlyWhenSensible(next, events[1..]);
      }
    }
  }

  /** Started twice over a pending restart, the supervisor spawns once too often: three times for one crash. */
  lemma DoubleStartOverspends()
    ensures exists events ::
      PossibleRun(NEW, events) &&
      (var s := Run(NEW, events); s.active && s.restartCount == 0 && s.spawns == 2)
  {
    var s1 := Step(NEW, Start(Spawned));
    var s2 := Step(s1, ChildExit(0, Some(1)));
    var s3 := Step(s2, Start(Spawned));
    var last := [TimerFires(0, Spawned)];
    assert PossibleRun(Step(s3, last[0]), last[1..]);
    assert PossibleRun(s3, last) && Run(s3, last) == Step(s3, last[0]);
    PrependEvent(s2, Start(Spawned), last);
    PrependEvent(s1, ChildExit(0, Some(1)), [Start(Spawned)] + last);
    PrependEvent(NEW, Start(Spawned), [ChildExit(0, Some(1))] + ([Start(Spawned)] + last));
  }

  lemma PrependEvent(s: State, e: Event, rest: seq<Event>)
    requires Possible(s, e) && PossibleRun(Step(s, e), rest)
    ensures PossibleRun(s, [e] + rest) && Run(s, [e] + rest) == Run(Step(s, e), rest)
  {
    assert ([e] + rest)[1..] == rest;
  }

  // ----- epochs

  // Timer t is old: if it fires, it does nothing.
  ghost predicate Stale(s: State, t: nat) {
    t < s.nextTimer && (t in s.timers ==> s.timers[t] < s.epoch)
  }

  lemma {:induction false} StaleForever(s: State, events: seq<Event>, t: nat, r: Spawning)
    requires Stale(s, t) && PossibleRun(s, events)
    ensures var u := Run(s, events);
      Stale(u, t) && (t in u.timers ==> Step(u, TimerFires(t, r)) == u.(timers := u.timers - {t}))
    decreases |events|
  {
    if events != [] {
      StaleForever(Step(s, events[0]), events[1..], t, r);
    }
  }

  /** A timer armed before a stop or a reconnect never spawns, whatever happens afterwards. */
  lemma OldTimerNeverSpawns(s: State, e: Event, events: seq<Event>, t: nat, r: Spawning)
    requires WellNamed(s) && t in s.timers && (e.Stop? || e.Reconnect?)
    requires Possible(s, e) && PossibleRun(Step(s, e), events)
    ensures var u := Run(Step(s, e), events);
      t in u.timers ==> Step(u, TimerFires(t, r)) == u.(timers := u.timers - {t})
  {
    assert Stale(Step(s, e), t);
    StaleForever(Step(s, e), events, t, r);
  }

  /** After a stop nothing is spawned until the next start or reconnect. */
  lemma {:induction false} StoppedStaysDown(s: State, events: seq<Event>)
    requires Bounded(s) && !s.active && PossibleRun(s, events)
    requires forall e :: e in events ==> !e.Start? && !e.Reconnect?
    ensures Run(s, events).spawns == s.spawns && Run(s, events).process == None
    decreases |events|
  {
    if events != [] {
      assert events[0] in events;
      if events[0].TimerFires? {
        assert events[0].t !in Live(s);
      }
      StepKeepsBounded(s, events[0]);
      StoppedStaysDown(Step(s, events[0]), events[1..]);
    }
  }

  // ----- the supervisor object

  class McpSupervisor {
    var process: Option<nat>
    var restartCount: nat
    var epoch: nat
    var timers: map<nat, nat>
    var nextTimer: nat
    var nextChild: nat
    var alive: set<nat>
    var spawns: nat
    var active: bool

    constructor ()
      ensures Value() == NEW
    {
      process, restartCount, epoch, timers := None, 0, 0, map[];
      nextTimer, nextChild, alive, spawns, active := 0, 0, {}, 0, false;
    }

    function Value(): State
      reads this
    {
      State(process, restartCount, epoch, timers, nextTimer, nextChild, alive, spawns, active)
    }

    method SpawnProcess(r: Spawning)
      modifies this
      ensures Value() == Spawn(old(Value()), r)
    {
      spawns := spawns + 1;
      if r == SpawnThrows {
        return;
      }
      var child := nextChild;
      nextChild := nextChild + 1;
      alive := alive + {child};
      process := Some(child);
    }

    method StartUp(r: Spawning)
      modifies this
      ensures Value() == Step(old(Value()), Start(r))
    {
      restartCount := 0;
      spawns, active := 0, true;
      SpawnProcess(r);
    }

    method Reconnect(r: Spawning)
      modifies this
      ensures Value() == Step(old(Value()), Event.Reconnect(r))
    {
      epoch := epoch + 1;
      restartCount := 0;
      spawns, active := 0, true;
      SpawnProcess(r);
    }

    method Stop()
      modifies this
      ensures Value() == Step(old(Value()), Event.Stop)
    {
      epoch := epoch + 1;
      active := false;
      if process.Some? {
        process := None;
      }
    }

    method OnExit(child: nat, code: Option<int>)
      requires child in alive
      modifies this
      ensures Value() == Step(old(Value()), ChildExit(child, code))
    {
      alive := alive - {child};
      if process != Some(child) {
        return;
      }
      if Crashed(code) && restartCount < MAX_RESTARTS {
        restartCount := restartCount + 1;
        timers := timers[nextTimer := epoch];
        nextTimer := nextTimer + 1;
      }
    }

    method OnError(child: nat)
      requires child < nextChild
      modifies this
      ensures Value() == Step(old(Value()), ChildError(child))
    {
      if process != Some(child) {
        return;
      }
      process := None;
    }

    method OnTimer(t: nat, r: Spawning)
      requires t in timers
      modifies this
      ensures Value() == Step(old(Value()), TimerFires(t, r))
    {
      var armedIn := timers[t];
      timers := timers - {t};
      if epoch != armedIn {
        return;
      }
      SpawnProcess(r);
    }
  }
}
