/**
 The cross-process refresh of launcher/src/main.rs: any number of processes take a lock
 directory, read the refresh token, exchange it, store the new one, and drop the lock.
 The clock, the server, the credential store and crashes are steps of the same machine.
 */
module RefreshLock {
  import opened Wrappers

  type Pid = nat
  type Token = nat

  // A lock directory is stale, and a waiter gives up, after these many milliseconds.
  const STALE_AFTER := 30_000
  const GIVE_UP_AFTER := 20_000

  // Where one process stands in access_token; `since` is when it began to wait.
  datatype Phase =
    | Idle
    | Waiting(since: nat)
    | Looking(since: nat)
    | Removing(since: nat)
    | Locked
    | Holding(token: Token)
    | Exchanged(token: Token)
    | Stored(token: Token)
    | Finished
    | Crashed

  // The lock directory carries only its time of creation. `late` are the tokens of keyring writes
  // that were given up, but may still land. `issued` counts the tokens the server has made,
  // `redeemed` lists those it has seen used in the live session, and `replayed` says that it saw
  // one that was no longer current.
  datatype State = State(
    now: nat, lock: Option<nat>, phases: map<Pid, Phase>,
    keyring: Option<Token>, file: Option<Token>, late: set<Token>,
    server: Option<Token>, issued: nat, redeemed: seq<Token>, replayed: bool)

  function PhaseOf(s: State, p: Pid): Phase {
    if p in s.phases then s.phases[p] else Idle
  }

  datatype Exchange = Unreachable | Served | ResponseLost

  // A keyring write that times out is reported as failed, and goes on.
  datatype Write = Landed | Refused | TimedOut

  datatype Action =
    | Begin(p: Pid)
    | TryCreate(p: Pid)
    | Look(p: Pid)
    | RemoveStale(p: Pid)
    | ReadToken(p: Pid, readable: bool, migration: Write)
    | Redeem(p: Pid, outcome: Exchange)
    | StoreToken(p: Pid, write: Write)
    | VerifyStored(p: Pid)
    | DropLock(p: Pid)
    | Crash(p: Pid)
    | Land(token: Token)
    | Expire
    | Tick(ms: nat)

  function Goto(s: State, p: Pid, phase: Phase): State {
    s.(phases := s.phases[p := phase])
  }

  // The token a launcher would use: the keyring's, or else that of the file of an old install.
  function Credential(s: State): Option<Token> {
    s.keyring.OrElse(s.file)
  }

  function Pending(s: State, write: Write, t: Token): State {
    if write == TimedOut then s.(late := s.late + {t}) else s
  }

  function StepRead(s: State, p: Pid, readable: bool, migration: Write): State {
    if readable && s.keyring.Some? then Goto(s, p, Holding(s.keyring.value))
    else if s.file.None? then Goto(s, p, Finished)
    else if migration == Landed then Goto(s, p, Holding(s.file.value)).(keyring := s.file, file := None)
    else Goto(Pending(s, migration, s.file.value), p, Finished)
  }

  // The server sees the token t of process p.
  function StepRedeem(s: State, p: Pid, t: Token, responseLost: bool): State {
    if s.server.None? then Goto(s, p, Finished).(keyring := None)
    else if s.server != Some(t) then
      Goto(s, p, Finished).(keyring := None, server := None, redeemed := s.redeemed + [t], replayed := true)
    else
      Goto(s, p, if responseLost then Finished else Exchanged(s.issued))
      .(server := Some(s.issued), issued := s.issued + 1, redeemed := s.redeemed + [t])
  }

  // One step; None when it is not possible.
  function Step(s: State, a: Action): Option<State> {
    match a
    case Begin(p) => if PhaseOf(s, p).Idle? then Some(Goto(s, p, Waiting(s.now))) else None
    case TryCreate(p) =>
      (match PhaseOf(s, p)
       case Waiting(since) =>
         if s.lock.None? then Some(Goto(s, p, Locked).(lock := Some(s.now))) else Some(Goto(s, p, Looking(since)))
       case _ => None)
    case Look(p) =>
      (match PhaseOf(s, p)
       case Looking(since) =>
         if s.lock.Some? && s.now - s.lock.value > STALE_AFTER then Some(Goto(s, p, Removing(since)))
         else if s.now - since >= GIVE_UP_AFTER then Some(Goto(s, p, Idle))
         else Some(Goto(s, p, Waiting(since)))
       case _ => None)
    case RemoveStale(p) =>
      (match PhaseOf(s, p)
       case Removing(since) => Some(Goto(s, p, Waiting(since)).(lock := None))
       case _ => None)
    case ReadToken(p, readable, migration) =>
      if PhaseOf(s, p).Locked? then Some(StepRead(s, p, readable, migration)) else None
    case Redeem(p, outcome) =>
      (match PhaseOf(s, p)
       case Holding(t) =>
         if outcome == Unreachable then Some(Goto(s, p, Finished)) else Some(StepRedeem(s, p, t, outcome == ResponseLost))
       case _ => None)
    case StoreToken(p, write) =>
      (match PhaseOf(s, p)
       case Exchanged(t) =>
         Some(if write == Landed then Goto(s, p, Stored(t)).(keyring := Some(t)) else Goto(Pending(s, write, t), p, Finished))
       case _ => None)
    case VerifyStored(p) => if PhaseOf(s, p).Stored? then Some(Goto(s, p, Finished)) else None
    case DropLock(p) => if PhaseOf(s, p).Finished? then Some(Goto(s, p, Idle).(lock := None)) else None
    case Crash(p) => if PhaseOf(s, p).Idle? then None else Some(Goto(s, p, Crashed))
    case Land(t) => if t in s.late then Some(s.(keyring := Some(t), late := s.late - {t})) else None
    case Expire => Some(s.(server := None))
    case Tick(ms) => Some(s.(now := s.now + ms))
  }

  function Run(s: State, actions: seq<Action>): Option<State>
    decreases |actions|
  {
    if actions == [] then Some(s) else
      match Step(s, actions[0]) case None => None case Some(next) => Run(next, actions[1..])
  }

  // Nobody has started, and the server's token is in the keyring or in the file of an old install.
  predicate Initial(s: State) {
    && s.lock == None && s.phases == map[] && s.late == {} && s.redeemed == [] && !s.replayed
    && (s.server.Some? ==> Credential(s) == s.server && s.server.value < s.issued)
    && (s.keyring.Some? ==> s.file.None?)
  }

  // ----- the three ways to go wrong

  // In a live session, the answer to an exchange does not arrive, or the token in it is not stored.
  predicate LosesRotation(s: State, a: Action) {
    s.server.Some? &&
    match a
    case Redeem(_, outcome) => outcome == ResponseLost
    case StoreToken(_, write) => write != Landed
    case Crash(p) => PhaseOf(s, p).Exchanged?
    case _ => false
  }

  // A waiter that found the lock stale removes it while a process is at work under a lock.
  ghost predicate Steals(s: State, a: Action) {
    a.RemoveStale? && exists q :: Holds(PhaseOf(s, q))
  }

  // In a live session, a write given up long ago lands: beside the file of an old install, or over
  // the current token when no process is about to store a newer one.
  ghost predicate Clobbers(s: State, a: Action) {
    && a.Land? && s.server.Some?
    && (s.file.Some? || (Some(a.token) != s.server && forall p :: !PhaseOf(s, p).Exchanged?))
  }

  // No step of the run does that.
  ghost predicate NeverLoses(s: State, actions: seq<Action>)
    decreases |actions|
  {
    actions != [] && Step(s, actions[0]).Some? ==>
      !LosesRotation(s, actions[0]) && NeverLoses(Step(s, actions[0]).value, actions[1..])
  }

  ghost predicate NeverSteals(s: State, actions: seq<Action>)
    decreases |actions|
  {
    actions != [] && Step(s, actions[0]).Some? ==>
      !Steals(s, actions[0]) && NeverSteals(Step(s, actions[0]).value, actions[1..])
  }

  ghost predicate NeverClobbers(s: State, actions: seq<Action>)
    decreases |actions|
  {
    actions != [] && Step(s, actions[0]).Some? ==>
      !Clobbers(s, actions[0]) && NeverClobbers(Step(s, actions[0]).value, actions[1..])
  }

  // ----- the invariant

  predicate Holds(phase: Phase) {
    phase.Locked? || phase.Holding? || phase.Exchanged? || phase.Stored? || phase.Finished?
  }

  // At most one process is between taking and dropping the lock.
  ghost predicate AtMostOne(s: State) {
    forall p, q :: Holds(PhaseOf(s, p)) && Holds(PhaseOf(s, q)) ==> p == q
  }

  // It is alone, and its directory is in place.
  ghost predicate Mutex(s: State) {
    AtMostOne(s) && (s.lock.None? ==> forall p :: !Holds(PhaseOf(s, p)))
  }

  ghost predicate NoDuplicates(tokens: seq<Token>) {
    forall i, j :: 0 <= i < j < |tokens| ==> tokens[i] != tokens[j]
  }

  // No token was used twice, and the server's current one is unused.
  ghost predicate SingleUse(s: State) {
    && !s.replayed && NoDuplicates(s.redeemed)
    && (forall t :: t in s.redeemed ==> t < s.issued)
    && (s.server.Some? ==> s.server.value < s.issued && s.server.value !in s.redeemed)
  }

  // In a live session whoever has a token has the server's, and the credential is the server's
  // but for the moment between an exchange and the storing of its token. Until then that token is
  // nowhere else, and nothing is left of the file of an old install.
  ghost predicate Current(s: State) {
    s.server.Some? ==>
      && (s.keyring.Some? ==> s.file.None?)
      && (forall p :: PhaseOf(s, p).Holding? || PhaseOf(s, p).Exchanged? ==>
            s.file.None? && PhaseOf(s, p).token == s.server.value)
      && (Credential(s) == s.server <==> forall p :: !PhaseOf(s, p).Exchanged?)
      && (forall t :: t in s.late ==> t < s.issued)
      && (forall p :: PhaseOf(s, p).Exchanged? ==> s.server.value !in s.late)
  }

  ghost predicate Safe(s: State) {
    Mutex(s) && SingleUse(s) && Current(s)
  }

  // The process that takes a step, if it is a process's step.
  function Actor(a: Action): Option<Pid> {
    match a
    case Land(_) => None
    case Expire => None
    case Tick(_) => None
    case _ => Some(a.p)
  }

  lemma ReadMovesReader(s: State, p: Pid, readable: bool, migration: Write)
    ensures forall q: Pid :: q != p ==> PhaseOf(StepRead(s, p, readable, migration), q) == PhaseOf(s, q)
  {
  }

  lemma RedeemMovesRedeemer(s: State, p: Pid, t: Token, responseLost: bool)
    ensures forall q: Pid :: q != p ==> PhaseOf(StepRedeem(s, p, t, responseLost), q) == PhaseOf(s, q)
  {
  }

  // A step moves its actor only.
  lemma StepMovesActor(s: State, a: Action, next: State)
    requires Step(s, a) == Some(next)
    ensures forall q: Pid :: Some(q) != Actor(a) ==> PhaseOf(next, q) == PhaseOf(s, q)
  {
    hide StepRead, StepRedeem;
    if a.ReadToken? {
      ReadMovesReader(s, a.p, a.readable, a.migration);
    } else if a.Redeem? && PhaseOf(s, a.p).Holding? {
      RedeemMovesRedeemer(s, a.p, PhaseOf(s, a.p).token, a.outcome == ResponseLost);
    }
  }

  lemma StepKeepsMutex(s: State, a: Action, next: State)
    requires Mutex(s) && Step(s, a) == Some(next) && !Steals(s, a)
    ensures Mutex(next)
  {
    StepMovesActor(s, a, next);
    if Actor(a).Some? {
      var p := a.p;
      assert Holds(PhaseOf(next, p)) ==> Holds(PhaseOf(s, p)) || s.lock.None?;
      assert forall q: Pid :: q != p ==> PhaseOf(next, q) == PhaseOf(s, q);
    } else {
      assert forall q: Pid :: PhaseOf(next, q) == PhaseOf(s, q);
    }
  }

  // Whoever was at work goes on, without a lock.
  lemma TheftBreaksMutex(s: State, a: Action, next: State)
    requires Step(s, a) == Some(next) && Steals(s, a)
    ensures !Mutex(next)
  {
    StepMovesActor(s, a, next);
    var q: Pid :| Holds(PhaseOf(s, q));
    assert next.lock.None? && Holds(PhaseOf(next, q));
  }

  // A process at work stays alone, its directory in place, exactly when the step does not remove that.
  lemma StepKeepsMutexIff(s: State, a: Action, next: State)
    requires Mutex(s) && Step(s, a) == Some(next)
    ensures Mutex(next) <==> !Steals(s, a)
  {
    if Steals(s, a) {
      TheftBreaksMutex(s, a, next);
    } else {
      StepKeepsMutex(s, a, next);
    }
  }

  lemma StepKeepsSingleUse(s: State, a: Action, next: State)
    requires Mutex(s) && SingleUse(s) && Current(s) && Step(s, a) == Some(next)
    ensures SingleUse(next)
  {
    if a.Redeem? {
      RedeemKeepsSingleUse(s, a, next);
    } else {
      OthersLeaveRedeemed(s, a, next);
    }
  }

  lemma OthersLeaveRedeemed(s: State, a: Action, next: State)
    requires Step(s, a) == Some(next) && !a.Redeem?
    ensures next.redeemed == s.redeemed && next.issued == s.issued && next.replayed == s.replayed
    ensures next.server == s.server || next.server.None?
  {
  }

  // The holder's token is the server's own, so it is new to the server.
  lemma RedeemKeepsSingleUse(s: State, a: Action, next: State)
    requires SingleUse(s) && Current(s) && Step(s, a) == Some(next) && a.Redeem?
    ensures SingleUse(next)
  {
    var t := PhaseOf(s, a.p).token;
    assert s.server.Some? ==> s.server.value == t;
    assert next.redeemed == s.redeemed || next.redeemed == s.redeemed + [t];
  }

  // A process with a token just received, other than the actor, still has it.
  lemma RotationStays(s: State, a: Action, next: State, r: Pid)
    requires Step(s, a) == Some(next) && PhaseOf(s, r).Exchanged? && Some(r) != Actor(a)
    ensures PhaseOf(next, r).Exchanged?
  {
    StepMovesActor(s, a, next);
  }

  // The steps that touch neither token nor server.
  predicate Plain(a: Action) {
    !(a.ReadToken? || a.Redeem? || a.StoreToken? || a.Land? || a.Expire?)
  }

  lemma PlainLeavesTokens(s: State, a: Action, next: State)
    requires Step(s, a) == Some(next) && Plain(a)
    ensures next.server == s.server && next.keyring == s.keyring && next.file == s.file
    ensures next.late == s.late && next.issued == s.issued
    ensures forall q: Pid :: PhaseOf(next, q).Holding? || PhaseOf(next, q).Exchanged? ==> PhaseOf(next, q) == PhaseOf(s, q)
  {
    StepMovesActor(s, a, next);
  }

  lemma PlainActorHasNone(s: State, a: Action, next: State, r: Pid)
    requires Step(s, a) == Some(next) && Plain(a) && !LosesRotation(s, a) && PhaseOf(s, r).Exchanged? && s.server.Some?
    ensures Some(r) != Actor(a)
  {
  }

  lemma PlainKeepsCurrent(s: State, a: Action, next: State)
    requires Mutex(s) && Current(s) && Step(s, a) == Some(next) && Plain(a) && !LosesRotation(s, a)
    ensures Current(next)
  {
    PlainLeavesTokens(s, a, next);
    if s.server.Some? && Credential(s) != s.server {
      var r: Pid :| PhaseOf(s, r).Exchanged?;
      PlainActorHasNone(s, a, next, r);
      RotationStays(s, a, next, r);
    }
  }

  lemma TokenKeepsCurrent(s: State, a: Action, next: State)
    requires Mutex(s) && SingleUse(s) && Current(s) && Step(s, a) == Some(next) && !Plain(a)
    requires !LosesRotation(s, a) && !Clobbers(s, a)
    ensures Current(next)
  {
    StepMovesActor(s, a, next);
    if Actor(a).Some? {
      assert Holds(PhaseOf(s, a.p));
      assert forall q: Pid :: q != a.p ==> !Holds(PhaseOf(s, q)) && !Holds(PhaseOf(next, q));
      assert PhaseOf(next, a.p).Exchanged? || !PhaseOf(next, a.p).Exchanged?;
    }
  }

  lemma StepKeepsSafe(s: State, a: Action, next: State)
    requires Safe(s) && Step(s, a) == Some(next) && !LosesRotation(s, a) && !Steals(s, a) && !Clobbers(s, a)
    ensures Safe(next)
  {
    StepKeepsMutex(s, a, next);
    StepKeepsSingleUse(s, a, next);
    if Plain(a) {
      PlainKeepsCurrent(s, a, next);
    } else {
      TokenKeepsCurrent(s, a, next);
    }
  }

  // Once the new token is lost, the stored one is old and nobody has the new one.
  lemma LostIsNotCurrent(s: State, a: Action, next: State)
    requires Safe(s) && Step(s, a) == Some(next) && LosesRotation(s, a)
    ensures !Current(next)
  {
    StepMovesActor(s, a, next);
    assert Holds(PhaseOf(s, a.p));
    assert forall q: Pid :: q != a.p ==> !Holds(PhaseOf(s, q)) && !Holds(PhaseOf(next, q));
    assert !PhaseOf(next, a.p).Exchanged?;
  }

  // The stale token is read next, or the file's when the keyring cannot be read.
  lemma ClobberedIsNotCurrent(s: State, a: Action, next: State)
    requires Step(s, a) == Some(next) && Clobbers(s, a)
    ensures !Current(next)
  {
    StepMovesActor(s, a, next);
  }

  /** A step keeps the invariant exactly when it neither loses a rotated token, nor steals a lock, nor lands a stale write. */
  lemma StepKeepsSafeIff(s: State, a: Action, next: State)
    requires Safe(s) && Step(s, a) == Some(next)
    ensures Safe(next) <==> !LosesRotation(s, a) && !Steals(s, a) && !Clobbers(s, a)
  {
    if Steals(s, a) {
      TheftBreaksMutex(s, a, next);
    } else if LosesRotation(s, a) {
      LostIsNotCurrent(s, a, next);
    } else if Clobbers(s, a) {
      ClobberedIsNotCurrent(s, a, next);
    } else {
      StepKeepsSafe(s, a, next);
    }
  }

  lemma InitialIsSafe(s: State)
    requires Initial(s)
    ensures Safe(s)
  {
  }

  // Through every state of the run, from s on.
  ghost predicate MutexThroughout(s: State, actions: seq<Action>)
    decreases |actions|
  {
    Mutex(s) && (actions != [] && Step(s, actions[0]).Some? ==> MutexThroughout(Step(s, actions[0]).value, actions[1..]))
  }

  ghost predicate SafeThroughout(s: State, actions: seq<Action>)
    decreases |actions|
  {
    Safe(s) && (actions != [] && Step(s, actions[0]).Some? ==> SafeThroughout(Step(s, actions[0]).value, actions[1..]))
  }

  // In every state of the run the process at work is alone, its directory in place, exactly when
  // no waiter removes the directory of a process at work.
  lemma {:induction false} MutexExactlyWithoutTheft(s: State, actions: seq<Action>)
    requires Mutex(s)
    ensures MutexThroughout(s, actions) <==> NeverSteals(s, actions)
    decreases |actions|
  {
    hide Mutex, Step, Steals;
    if actions != [] && Step(s, actions[0]).Some? {
      var next := Step(s, actions[0]).value;
      StepKeepsMutexIff(s, actions[0], next);
      if Mutex(next) {
        MutexExactlyWithoutTheft(next, actions[1..]);
      }
    }
  }

  lemma {:induction false} MutexAtTheEnd(s: State, actions: seq<Action>)
    requires MutexThroughout(s, actions) && Run(s, actions).Some?
    ensures Mutex(Run(s, actions).value)
    decreases |actions|
  {
    hide Mutex, Step;
    if actions != [] {
      MutexAtTheEnd(Step(s, actions[0]).value, actions[1..]);
    }
  }

  // Whatever happens from here on, short of a theft, no two processes are ever at work together.
  ghost predicate NeverTwo(s: State) {
    forall more: seq<Action> :: Run(s, more).Some? && NeverSteals(s, more) ==> AtMostOne(Run(s, more).value)
  }

  lemma {:induction false} Above(pids: set<Pid>) returns (q: Pid)
    ensures forall p :: p in pids ==> p < q
  {
    if pids == {} {
      q := 0;
    } else {
      var p: Pid :| p in pids;
      var r := Above(pids - {p});
      q := if p < r then r else p + 1;
      assert forall k :: k in pids ==> k == p || k in pids - {p};
    }
  }

  // Without a directory anybody can take the lock beside a process at work.
  lemma UnlockedLetsTwoIn(s: State, p: Pid)
    requires s.lock.None? && Holds(PhaseOf(s, p))
    ensures !NeverTwo(s)
  {
    var q := Above(s.phases.Keys);
    var more := [Begin(q), TryCreate(q)];
    var s1 := Step(s, Begin(q)).value;
    var s2 := Step(s1, TryCreate(q)).value;
    assert more[1..] == [TryCreate(q)] && more[1..][1..] == [];
    assert Run(s1, more[1..]) == Some(s2) && NeverSteals(s1, more[1..]);
    assert Run(s, more) == Some(s2) && NeverSteals(s, more);
    assert Holds(PhaseOf(s2, p)) && Holds(PhaseOf(s2, q)) && p != q;
  }

  /** Being alone with the directory in place is exactly what keeps two from ever being at work together. */
  lemma MutexIsNeverTwo(s: State)
    ensures NeverTwo(s) <==> Mutex(s)
  {
    if Mutex(s) {
      forall more: seq<Action> | Run(s, more).Some? && NeverSteals(s, more)
        ensures AtMostOne(Run(s, more).value)
      {
        MutexExactlyWithoutTheft(s, more);
        MutexAtTheEnd(s, more);
      }
    } else if AtMostOne(s) {
      var p: Pid :| Holds(PhaseOf(s, p));
      UnlockedLetsTwoIn(s, p);
    } else {
      assert Run(s, []) == Some(s) && NeverSteals(s, []);
    }
  }

  /** A step is a theft exactly when two processes can be at work together after it, though no other theft follows. */
  lemma TheftExactlyLetsTwoIn(s: State, a: Action, next: State)
    requires Mutex(s) && Step(s, a) == Some(next)
    ensures NeverTwo(next) <==> !Steals(s, a)
  {
    StepKeepsMutexIff(s, a, next);
    MutexIsNeverTwo(next);
    hide Mutex, NeverTwo, Steals, Step;
  }

  /** After any theft the thief's own next step puts two processes to work. */
  lemma ThiefIsSecond(s: State, a: Action, next: State)
    requires Step(s, a) == Some(next) && Steals(s, a)
    ensures Step(next, TryCreate(a.p)).Some? && !AtMostOne(Step(next, TryCreate(a.p)).value)
  {
    StepMovesActor(s, a, next);
    var q: Pid :| Holds(PhaseOf(s, q));
    var after := Step(next, TryCreate(a.p)).value;
    StepMovesActor(next, TryCreate(a.p), after);
    assert Holds(PhaseOf(after, q)) && Holds(PhaseOf(after, a.p)) && q != a.p;
  }

  // In every state of the run two can never come together without a theft that is still to come.
  ghost predicate NeverTwoThroughout(s: State, actions: seq<Action>)
    decreases |actions|
  {
    NeverTwo(s) && (actions != [] && Step(s, actions[0]).Some? ==> NeverTwoThroughout(Step(s, actions[0]).value, actions[1..]))
  }

  /** A run keeps two processes apart for good exactly when it steals no lock. */
  lemma {:induction false} ApartExactlyWithoutTheft(s: State, actions: seq<Action>)
    requires NeverTwo(s)
    ensures NeverTwoThroughout(s, actions) <==> NeverSteals(s, actions)
    decreases |actions|
  {
    hide Mutex, NeverTwo, Step, Steals;
    MutexIsNeverTwo(s);
    if actions != [] && Step(s, actions[0]).Some? {
      var next := Step(s, actions[0]).value;
      TheftExactlyLetsTwoIn(s, actions[0], next);
      if NeverTwo(next) {
        ApartExactlyWithoutTheft(next, actions[1..]);
      }
    }
  }

  /** A run keeps the invariant throughout exactly when none of the three happens in it. */
  lemma {:induction false} SafeExactlyWhenCareful(s: State, actions: seq<Action>)
    requires Safe(s)
    ensures SafeThroughout(s, actions) <==>
      NeverLoses(s, actions) && NeverSteals(s, actions) && NeverClobbers(s, actions)
    decreases |actions|
  {
    hide Safe, Step, LosesRotation, Steals, Clobbers;
    if actions != [] && Step(s, actions[0]).Some? {
      var next := Step(s, actions[0]).value;
      StepKeepsSafeIff(s, actions[0], next);
      if Safe(next) {
        SafeExactlyWhenCareful(next, actions[1..]);
      }
    }
  }

  lemma {:induction false} SafeAtTheEnd(s: State, actions: seq<Action>)
    requires SafeThroughout(s, actions) && Run(s, actions).Some?
    ensures Safe(Run(s, actions).value)
    decreases |actions|
  {
    hide Safe, Step;
    if actions != [] {
      SafeAtTheEnd(Step(s, actions[0]).value, actions[1..]);
    }
  }

  /**
   In every interleaving of any number of processes, recovery of crashed ones and late writes
   included, in which none of the three happens: never do two hold the lock, no token is used
   twice, and while nobody holds the lock the stored credential is the server's current token.
   */
  lemma RefreshIsSafe(s: State, actions: seq<Action>)
    requires Initial(s) && Run(s, actions).Some?
    requires NeverLoses(s, actions) && NeverSteals(s, actions) && NeverClobbers(s, actions)
    ensures var t := Run(s, actions).value;
      && (forall p: Pid, q: Pid :: Holds(PhaseOf(t, p)) && Holds(PhaseOf(t, q)) ==> p == q)
      && !t.replayed && NoDuplicates(t.redeemed)
      && ((forall p: Pid :: !Holds(PhaseOf(t, p))) && t.server.Some? ==> Credential(t) == t.server)
  {
    InitialIsSafe(s);
    SafeExactlyWhenCareful(s, actions);
    SafeAtTheEnd(s, actions);
    hide Run, NeverLoses, NeverSteals, NeverClobbers, SafeThroughout, Initial, Step;
  }

  // ----- when no lock is stolen

  // Nobody works under a lock for longer than it takes to be stale, and at most one waiter at a
  // time has found a stale lock and not yet removed it.
  ghost predicate Prompt(s: State) {
    && (s.lock.Some? && (exists p :: Holds(PhaseOf(s, p))) ==> s.now - s.lock.value <= 30_000)
    && (forall p, q :: PhaseOf(s, p).Removing? && PhaseOf(s, q).Removing? ==> p == q)
  }

  ghost predicate PromptRun(s: State, actions: seq<Action>)
    decreases |actions|
  {
    Prompt(s) && (actions != [] && Step(s, actions[0]).Some? ==> PromptRun(Step(s, actions[0]).value, actions[1..]))
  }

  // While somebody is about to remove a lock, nobody works under one, and nobody can take one.
  ghost predicate RemovesAbandoned(s: State) {
    (exists p :: PhaseOf(s, p).Removing?) ==> s.lock.Some? && forall q :: !Holds(PhaseOf(s, q))
  }

  lemma StepKeepsAbandoned(s: State, a: Action, next: State)
    requires Mutex(s) && RemovesAbandoned(s) && Prompt(s) && Step(s, a) == Some(next)
    ensures RemovesAbandoned(next) && !Steals(s, a)
  {
    StepMovesActor(s, a, next);
    if p: Pid :| PhaseOf(next, p).Removing? {
      assert PhaseOf(s, p).Removing? || a == Look(p);
    }
  }

  /** Prompt holders and one remover at a time suffice: no lock is stolen, crashed processes or not. */
  lemma {:induction false} PromptNeverSteals(s: State, actions: seq<Action>)
    requires Mutex(s) && RemovesAbandoned(s) && PromptRun(s, actions)
    ensures NeverSteals(s, actions)
    decreases |actions|
  {
    hide Mutex, RemovesAbandoned, Prompt, Step, Steals;
    if actions != [] && Step(s, actions[0]).Some? {
      var next := Step(s, actions[0]).value;
      StepKeepsAbandoned(s, actions[0], next);
      StepKeepsMutexIff(s, actions[0], next);
      PromptNeverSteals(next, actions[1..]);
    }
  }

  // Every lock, whoever left it, is gone before it is stale.
  predicate Timely(s: State) {
    s.lock.Some? ==> s.now - s.lock.value <= 30_000
  }

  ghost predicate TimelyRun(s: State, actions: seq<Action>)
    decreases |actions|
  {
    Timely(s) && (actions != [] && Step(s, actions[0]).Some? ==> TimelyRun(Step(s, actions[0]).value, actions[1..]))
  }

  ghost predicate NobodyRemoves(s: State) {
    forall p :: !PhaseOf(s, p).Removing?
  }

  lemma TimelyKeepsNobodyRemoving(s: State, a: Action, next: State)
    requires NobodyRemoves(s) && Timely(s) && Step(s, a) == Some(next)
    ensures NobodyRemoves(next)
  {
    StepMovesActor(s, a, next);
    assert Actor(a).Some? ==> !PhaseOf(next, a.p).Removing?;
  }

  lemma {:induction false} TimelyIsPrompt(s: State, actions: seq<Action>)
    requires NobodyRemoves(s) && TimelyRun(s, actions)
    ensures PromptRun(s, actions)
    decreases |actions|
  {
    assert Prompt(s);
    hide Prompt, Step, NobodyRemoves, Timely;
    if actions != [] && Step(s, actions[0]).Some? {
      var next := Step(s, actions[0]).value;
      TimelyKeepsNobodyRemoving(s, actions[0], next);
      TimelyIsPrompt(next, actions[1..]);
    }
  }

  /** From the start on, locks that are all released within 30 seconds are never stolen. */
  lemma TimelyNeverSteals(s: State, actions: seq<Action>)
    requires Initial(s) && TimelyRun(s, actions)
    ensures NeverSteals(s, actions)
  {
    InitialIsSafe(s);
    assert NobodyRemoves(s) && RemovesAbandoned(s);
    TimelyIsPrompt(s, actions);
    PromptNeverSteals(s, actions);
  }

  // ----- waiting, and getting on

  // The process has been after the lock since time t.
  predicate Waits(s: State, p: Pid, t: nat) {
    PhaseOf(s, p) in {Waiting(t), Looking(t), Removing(t)}
  }

  // In no state of the run does p hold the lock, or is it crashed.
  ghost predicate NeverTakes(s: State, actions: seq<Action>, p: Pid)
    decreases |actions|
  {
    && !Holds(PhaseOf(s, p)) && !PhaseOf(s, p).Crashed?
    && (actions != [] && Step(s, actions[0]).Some? ==> NeverTakes(Step(s, actions[0]).value, actions[1..], p))
  }

  lemma StepOfWaiter(s: State, a: Action, next: State, p: Pid, t: nat)
    requires Step(s, a) == Some(next) && Waits(s, p, t) && !Holds(PhaseOf(next, p)) && !PhaseOf(next, p).Crashed?
    ensures next.now >= s.now && (Waits(next, p, t) || next.now >= t + 20_000)
  {
    StepMovesActor(s, a, next);
    if Actor(a) == Some(p) {
      assert a.TryCreate? || a.Look? || a.RemoveStale? || a.Crash?;
    } else {
      assert PhaseOf(next, p) == PhaseOf(s, p);
    }
  }

  lemma TimeGoesOn(s: State, a: Action, next: State)
    requires Step(s, a) == Some(next)
    ensures next.now >= s.now
  {
  }

  lemma {:induction false} LaterNow(s: State, actions: seq<Action>)
    requires Run(s, actions).Some?
    ensures Run(s, actions).value.now >= s.now
    decreases |actions|
  {
    hide Step;
    if actions != [] {
      TimeGoesOn(s, actions[0], Step(s, actions[0]).value);
      LaterNow(Step(s, actions[0]).value, actions[1..]);
    }
  }

  lemma {:induction false} StillWaits(s: State, actions: seq<Action>, p: Pid, t: nat)
    requires Waits(s, p, t) && Run(s, actions).Some? && NeverTakes(s, actions, p)
    ensures var u := Run(s, actions).value; Waits(u, p, t) || u.now >= t + 20_000
    decreases |actions|
  {
    hide Step, Waits;
    if actions != [] {
      var next := Step(s, actions[0]).value;
      StepOfWaiter(s, actions[0], next, p, t);
      if Waits(next, p, t) {
        StillWaits(next, actions[1..], p, t);
      } else {
        LaterNow(next, actions[1..]);
      }
    }
  }

  /** Patience: a process that began, and is idle again without having had the lock, has waited for 20 seconds. */
  lemma WaiterIsPatient(s: State, p: Pid, actions: seq<Action>)
    requires Run(s, [Begin(p)] + actions).Some? && NeverTakes(s, [Begin(p)] + actions, p)
    ensures var u := Run(s, [Begin(p)] + actions).value; PhaseOf(u, p).Idle? ==> u.now >= s.now + 20_000
  {
    assert ([Begin(p)] + actions)[1..] == actions;
    StillWaits(Step(s, Begin(p)).value, actions, p, s.now);
  }

  predicate OwnSteps(actions: seq<Action>, p: Pid) {
    forall a :: a in actions ==> Actor(a) == Some(p)
  }

  lemma RunCons(s: State, a: Action, more: seq<Action>)
    requires Step(s, a).Some?
    ensures Run(s, [a] + more) == Run(Step(s, a).value, more)
  {
    assert ([a] + more)[1..] == more;
    hide Step;
  }

  lemma RunNothing(s: State)
    ensures Run(s, []) == Some(s)
  {
  }

  // From the attempt on to create the directory, which is not there.
  lemma TakesFree(s: State, p: Pid, t: nat) returns (more: seq<Action>)
    requires PhaseOf(s, p) == Waiting(t) && s.lock == None
    ensures |more| == 1 && OwnSteps(more, p) && Run(s, more).Some? && PhaseOf(Run(s, more).value, p) == Locked
  {
    more := [TryCreate(p)];
    RunCons(s, TryCreate(p), []);
    RunNothing(Step(s, TryCreate(p)).value);
    assert [TryCreate(p)] + [] == more;
  }

  lemma PrependOwn(s: State, a: Action, p: Pid, more: seq<Action>)
    requires Step(s, a).Some? && Actor(a) == Some(p) && OwnSteps(more, p)
    ensures OwnSteps([a] + more, p) && Run(s, [a] + more) == Run(Step(s, a).value, more)
  {
    RunCons(s, a, more);
    hide Step, Run;
  }

  // A free lock can be taken, unless the process has just found that its time is up.
  lemma TakesFreeLock(s: State, p: Pid, t: nat) returns (more: seq<Action>)
    requires Waits(s, p, t) && s.lock == None && s.now < t + 20_000
    ensures |more| <= 2 && OwnSteps(more, p) && Run(s, more).Some? && PhaseOf(Run(s, more).value, p) == Locked
  {
    var a := if PhaseOf(s, p).Looking? then Look(p) else RemoveStale(p);
    if PhaseOf(s, p).Waiting? {
      more := TakesFree(s, p, t);
    } else {
      more := TakesFree(Step(s, a).value, p, t);
      PrependOwn(s, a, p, more);
      more := [a] + more;
    }
  }

  /**
   Progress: once the holder drops its lock, or when a crashed one left it more than 30 seconds ago,
   a process that has waited for less than 20 seconds takes it in at most four steps of its own.
   */
  lemma WaiterGetsOn(s: State, p: Pid, t: nat) returns (more: seq<Action>)
    requires Waits(s, p, t) && s.now < t + 20_000
    requires s.lock.Some? ==> s.now > s.lock.value + 30_000
    ensures |more| <= 4 && OwnSteps(more, p) && Run(s, more).Some? && PhaseOf(Run(s, more).value, p) == Locked
  {
    if s.lock == None || PhaseOf(s, p).Removing? {
      more := FreesAndTakes(s, p, t);
    } else if PhaseOf(s, p).Looking? {
      more := FreesAndTakes(Step(s, Look(p)).value, p, t);
      PrependOwn(s, Look(p), p, more);
      more := [Look(p)] + more;
    } else {
      var s1 := Step(s, TryCreate(p)).value;
      more := FreesAndTakes(Step(s1, Look(p)).value, p, t);
      PrependOwn(s1, Look(p), p, more);
      more := [Look(p)] + more;
      PrependOwn(s, TryCreate(p), p, more);
      more := [TryCreate(p)] + more;
    }
  }

  lemma FreesAndTakes(s: State, p: Pid, t: nat) returns (more: seq<Action>)
    requires Waits(s, p, t) && s.now < t + 20_000 && (s.lock == None || PhaseOf(s, p).Removing?)
    ensures |more| <= 2 && OwnSteps(more, p) && Run(s, more).Some? && PhaseOf(Run(s, more).value, p) == Locked
  {
    if s.lock == None {
      more := TakesFreeLock(s, p, t);
    } else {
      more := TakesFree(Step(s, RemoveStale(p)).value, p, t);
      PrependOwn(s, RemoveStale(p), p, more);
      more := [RemoveStale(p)] + more;
    }
  }

  /** The same from the holder's last step on. */
  lemma DroppedLockIsTaken(s: State, q: Pid, p: Pid, t: nat) returns (more: seq<Action>)
    requires PhaseOf(s, q).Finished? && Waits(s, p, t) && s.now < t + 20_000
    ensures |more| <= 4 && OwnSteps(more, p) && Run(s, [DropLock(q)] + more).Some?
    ensures PhaseOf(Run(s, [DropLock(q)] + more).value, p) == Locked
  {
    var next := Step(s, DropLock(q)).value;
    StepMovesActor(s, DropLock(q), next);
    more := WaiterGetsOn(next, p, t);
    RunCons(s, DropLock(q), more);
  }

  /** Removing a lock begins with having seen it older than 30 seconds, and in no other way. */
  lemma RemovesOnlyStale(s: State, a: Action, next: State, p: Pid)
    requires Step(s, a) == Some(next) && !PhaseOf(s, p).Removing?
    ensures PhaseOf(next, p).Removing? <==>
      (a == Look(p) && PhaseOf(s, p).Looking? && s.lock.Some? && s.now > s.lock.value + 30_000)
  {
    StepMovesActor(s, a, next);
  }

  /** Giving up is for those who look at a lock that is not stale after 20 seconds, and for nobody else. */
  lemma GivesUpExactly(s: State, a: Action, next: State, p: Pid, t: nat)
    requires Step(s, a) == Some(next) && Waits(s, p, t)
    ensures PhaseOf(next, p).Idle? <==>
      (a == Look(p) && PhaseOf(s, p).Looking? && s.now >= t + 20_000 && !(s.lock.Some? && s.now > s.lock.value + 30_000))
  {
    StepMovesActor(s, a, next);
  }

  /** The keyring is emptied exactly by a refusal of the server, never by an exchange that does not get there. */
  lemma OnlyRefusalForgets(s: State, a: Action, next: State)
    requires Step(s, a) == Some(next) && s.keyring.Some?
    ensures next.keyring == None <==>
      (a.Redeem? && a.outcome != Unreachable && s.server != Some(PhaseOf(s, a.p).token))
  {
  }

  lemma RunThree(s: State, a: Action, b: Action, c: Action)
    requires Step(s, a).Some? && Step(Step(s, a).value, b).Some?
    ensures Run(s, [a, b, c]) == Step(Step(Step(s, a).value, b).value, c)
  {
    hide Step;
    var s1 := Step(s, a).value;
    var s2 := Step(s1, b).value;
    assert [a, b, c] == [a] + ([b] + ([c] + []));
    RunCons(s, a, [b] + ([c] + []));
    RunCons(s1, b, [c] + []);
    if Step(s2, c).Some? {
      RunCons(s2, c, []);
      RunNothing(Step(s2, c).value);
    }
  }

  lemma {:induction false} RunConcat(s: State, x: seq<Action>, y: seq<Action>)
    requires Run(s, x).Some?
    ensures Run(s, x + y) == Run(Run(s, x).value, y)
    decreases |x|
  {
    hide Step;
    if x == [] {
      assert x + y == y;
    } else {
      assert (x + y)[1..] == x[1..] + y;
      RunConcat(Step(s, x[0]).value, x[1..], y);
    }
  }

  // What a refresh does first, and what it does with the new token.
  function Fetch(p: Pid): seq<Action> {
    [Begin(p), TryCreate(p), ReadToken(p, true, Landed)]
  }

  function Keep(p: Pid): seq<Action> {
    [StoreToken(p, Landed), VerifyStored(p), DropLock(p)]
  }

  lemma Fetches(s: State, p: Pid)
    requires PhaseOf(s, p).Idle? && s.lock == None && Credential(s).Some?
    ensures Run(s, Fetch(p)) == Some(Goto(s, p, Holding(Credential(s).value)).(
      lock := Some(s.now), keyring := Credential(s), file := if s.keyring.Some? then s.file else None))
  {
    RunThree(s, Begin(p), TryCreate(p), ReadToken(p, true, Landed));
    assert s.phases[p := Waiting(s.now)][p := Locked][p := Holding(Credential(s).value)] == s.phases[p := Holding(Credential(s).value)];
  }

  lemma Keeps(s: State, p: Pid, t: Token)
    requires PhaseOf(s, p) == Exchanged(t)
    ensures Run(s, Keep(p)) == Some(Goto(s, p, Idle).(lock := None, keyring := Some(t)))
  {
    RunThree(s, StoreToken(p, Landed), VerifyStored(p), DropLock(p));
    assert s.phases[p := Stored(t)][p := Finished][p := Idle] == s.phases[p := Idle];
  }

  /**
   An undisturbed refresh does what it is for, whether the token is in the keyring or still in the
   file of an old install: the token is exchanged once, the new one is in the keyring, and the
   lock is free again.
   */
  lemma RefreshSucceeds(s: State, p: Pid)
    requires PhaseOf(s, p).Idle? && s.lock == None && s.server.Some? && Credential(s) == s.server
    ensures Run(s, Fetch(p) + ([Redeem(p, Served)] + Keep(p))) == Some(Goto(s, p, Idle).(
      keyring := Some(s.issued), file := if s.keyring.Some? then s.file else None,
      server := Some(s.issued), issued := s.issued + 1, redeemed := s.redeemed + [s.server.value]))
  {
    hide Run, Fetch, Keep;
    Fetches(s, p);
    var s1 := Run(s, Fetch(p)).value;
    var s2 := Step(s1, Redeem(p, Served)).value;
    RunConcat(s, Fetch(p), [Redeem(p, Served)] + Keep(p));
    RunCons(s1, Redeem(p, Served), Keep(p));
    Keeps(s2, p, s.issued);
    assert s2.phases[p := Idle] == s.phases[p := Idle];
  }

  // ----- that it does go wrong

  const START := State(0, None, map[], Some(0), None, {}, Some(0), 1, [], false)

  // The same, where the token is still in the file of an old install.
  const OLD_INSTALL := State(0, None, map[], None, Some(0), {}, Some(0), 1, [], false)

  predicate NobodyCrashes(actions: seq<Action>) {
    forall a :: a in actions ==> !a.Crash?
  }

  lemma NothingDone(start: State)
    ensures Run(start, []) == Some(start) && NeverLoses(start, []) && NeverSteals(start, []) && NobodyCrashes([])
    ensures TimelyRun(start, []) <==> Timely(start)
  {
  }

  // One more step at the end of a run.
  lemma Then(start: State, actions: seq<Action>, now: State, a: Action) returns (more: seq<Action>, next: State)
    requires Run(start, actions) == Some(now) && Step(now, a).Some?
    ensures more == actions + [a] && Some(next) == Step(now, a) && Run(start, more) == Some(next)
    ensures NeverLoses(start, actions) && !LosesRotation(now, a) ==> NeverLoses(start, more)
    ensures NeverSteals(start, actions) && !a.RemoveStale? ==> NeverSteals(start, more)
    ensures NobodyCrashes(actions) && !a.Crash? ==> NobodyCrashes(more)
    ensures TimelyRun(start, actions) && Timely(next) ==> TimelyRun(start, more)
    decreases |actions|
  {
    more, next := actions + [a], Step(now, a).value;
    if actions == [] {
      assert more[1..] == [];
    } else {
      var _, _ := Then(Step(start, actions[0]).value, actions[1..], now, a);
      assert more[1..] == actions[1..] + [a];
    }
  }

  // A process crashed under its lock, which is stale by now.
  lemma CrashedHolder() returns (run: seq<Action>, s: State)
    ensures Run(START, run) == Some(s) && NeverLoses(START, run)
    ensures s == START.(now := STALE_AFTER + 1, lock := Some(0), phases := map[0 := Crashed])
  {
    NothingDone(START);
    hide Run, NeverLoses, NeverSteals, TimelyRun, NobodyCrashes;
    run, s := Then(START, [], START, Begin(0));
    run, s := Then(START, run, s, TryCreate(0));
    run, s := Then(START, run, s, Crash(0));
    run, s := Then(START, run, s, Tick(STALE_AFTER + 1));
    assert s.phases == map[0 := Crashed];
  }

  // Two others have found it stale.
  lemma TwoRemovers() returns (run: seq<Action>, s: State)
    ensures Run(START, run) == Some(s) && NeverLoses(START, run)
    ensures s == START.(now := STALE_AFTER + 1, lock := Some(0),
                        phases := map[0 := Crashed, 1 := Removing(STALE_AFTER + 1), 2 := Removing(STALE_AFTER + 1)])
  {
    hide Run, NeverLoses, NeverSteals, TimelyRun, NobodyCrashes;
    run, s := CrashedHolder();
    run, s := Then(START, run, s, Begin(1));
    run, s := Then(START, run, s, TryCreate(1));
    run, s := Then(START, run, s, Look(1));
    assert s.phases == map[0 := Crashed, 1 := Removing(STALE_AFTER + 1)];
    run, s := Then(START, run, s, Begin(2));
    run, s := Then(START, run, s, TryCreate(2));
    run, s := Then(START, run, s, Look(2));
    assert s.phases == map[0 := Crashed, 1 := Removing(STALE_AFTER + 1), 2 := Removing(STALE_AFTER + 1)];
  }

  /** A lock left behind by a crash is taken by two waiters at once, though all others are prompt. */
  lemma StaleTakeoverIsNotExclusive()
    ensures exists actions: seq<Action> ::
      && Run(START, actions).Some? && NeverLoses(START, actions)
      && Holds(PhaseOf(Run(START, actions).value, 1)) && Holds(PhaseOf(Run(START, actions).value, 2))
  {
    hide Run, NeverLoses, NeverSteals, TimelyRun, NobodyCrashes;
    var run, s := TwoRemovers();
    run, s := Then(START, run, s, RemoveStale(1));
    run, s := Then(START, run, s, TryCreate(1));
    run, s := Then(START, run, s, RemoveStale(2));
    run, s := Then(START, run, s, TryCreate(2));
  }

  // A process has read its token and is slow to use it.
  lemma SlowHolder() returns (run: seq<Action>, s: State)
    ensures Run(START, run) == Some(s) && NeverLoses(START, run) && NobodyCrashes(run)
    ensures s == START.(now := STALE_AFTER + 1, lock := Some(0), phases := map[0 := Holding(0)])
  {
    NothingDone(START);
    hide Run, NeverLoses, NeverSteals, TimelyRun, NobodyCrashes;
    run, s := Then(START, [], START, Begin(0));
    run, s := Then(START, run, s, TryCreate(0));
    run, s := Then(START, run, s, ReadToken(0, true, Landed));
    run, s := Then(START, run, s, Tick(STALE_AFTER + 1));
    assert s.phases == map[0 := Holding(0)];
  }

  // Another has taken its lock and read the same token.
  lemma TwoHolders() returns (run: seq<Action>, s: State)
    ensures Run(START, run) == Some(s) && NeverLoses(START, run) && NobodyCrashes(run)
    ensures s == START.(now := STALE_AFTER + 1, lock := Some(STALE_AFTER + 1), phases := map[0 := Holding(0), 1 := Holding(0)])
  {
    hide Run, NeverLoses, NeverSteals, TimelyRun, NobodyCrashes;
    run, s := SlowHolder();
    run, s := Then(START, run, s, Begin(1));
    run, s := Then(START, run, s, TryCreate(1));
    run, s := Then(START, run, s, Look(1));
    run, s := Then(START, run, s, RemoveStale(1));
    run, s := Then(START, run, s, TryCreate(1));
    run, s := Then(START, run, s, ReadToken(1, true, Landed));
    assert s.phases == map[0 := Holding(0), 1 := Holding(0)];
  }

  /**
   A holder that is slow but alive is robbed of its lock: with no crash and no lost token, two
   processes present one token, and the server sees a replay.
   */
  lemma LiveHolderIsRobbed()
    ensures exists actions: seq<Action> ::
      && Run(START, actions).Some? && NobodyCrashes(actions) && NeverLoses(START, actions)
      && Run(START, actions).value.replayed
  {
    hide Run, NeverLoses, NeverSteals, TimelyRun, NobodyCrashes;
    var run, s := TwoHolders();
    run, s := Then(START, run, s, Redeem(0, Served));
    run, s := Then(START, run, s, Redeem(1, Served));
  }

  /** A token that was exchanged but could not be stored is used again, and the server sees a replay. */
  lemma LostRotationIsReplayed()
    ensures exists actions: seq<Action> ::
      && Run(START, actions).Some? && NobodyCrashes(actions) && TimelyRun(START, actions)
      && Run(START, actions).value.replayed
  {
    NothingDone(START);
    hide Run, NeverLoses, NeverSteals, TimelyRun, NobodyCrashes;
    var run, s := Then(START, [], START, Begin(0));
    run, s := Then(START, run, s, TryCreate(0));
    run, s := Then(START, run, s, ReadToken(0, true, Landed));
    run, s := Then(START, run, s, Redeem(0, Served));
    run, s := Then(START, run, s, StoreToken(0, Refused));
    run, s := Then(START, run, s, DropLock(0));
    run, s := Then(START, run, s, Begin(1));
    run, s := Then(START, run, s, TryCreate(1));
    run, s := Then(START, run, s, ReadToken(1, true, Landed));
    run, s := Then(START, run, s, Redeem(1, Served));
  }

  // A first process gave its migration up after 30 seconds, but the write goes on.
  lemma WriteGivenUp() returns (run: seq<Action>, s: State)
    ensures Run(OLD_INSTALL, run) == Some(s) && NeverLoses(OLD_INSTALL, run) && NobodyCrashes(run) && NeverSteals(OLD_INSTALL, run)
    ensures s == OLD_INSTALL.(now := STALE_AFTER + 1, phases := map[0 := Idle], late := {0})
  {
    NothingDone(OLD_INSTALL);
    hide Run, NeverLoses, NeverSteals, TimelyRun, NobodyCrashes;
    run, s := Then(OLD_INSTALL, [], OLD_INSTALL, Begin(0));
    run, s := Then(OLD_INSTALL, run, s, TryCreate(0));
    run, s := Then(OLD_INSTALL, run, s, Tick(STALE_AFTER + 1));
    run, s := Then(OLD_INSTALL, run, s, ReadToken(0, true, TimedOut));
    run, s := Then(OLD_INSTALL, run, s, DropLock(0));
    assert s.phases == map[0 := Idle];
  }

  // A second migrated and presented the token.
  lemma SecondRotates() returns (run: seq<Action>, s: State)
    ensures Run(OLD_INSTALL, run) == Some(s) && NeverLoses(OLD_INSTALL, run) && NobodyCrashes(run) && NeverSteals(OLD_INSTALL, run)
    ensures s == OLD_INSTALL.(now := STALE_AFTER + 1, lock := Some(STALE_AFTER + 1), phases := map[0 := Idle, 1 := Exchanged(1)], keyring := Some(0), file := None,
                              late := {0}, server := Some(1), issued := 2, redeemed := [0])
  {
    hide Run, NeverLoses, NeverSteals, TimelyRun, NobodyCrashes;
    run, s := WriteGivenUp();
    run, s := Then(OLD_INSTALL, run, s, Begin(1));
    run, s := Then(OLD_INSTALL, run, s, TryCreate(1));
    run, s := Then(OLD_INSTALL, run, s, ReadToken(1, true, Landed));
    run, s := Then(OLD_INSTALL, run, s, Redeem(1, Served));
    assert s.phases == map[0 := Idle, 1 := Exchanged(1)] && s.redeemed == [0];
  }

  // It stored the new one and is done.
  lemma LateWritePending() returns (run: seq<Action>, s: State)
    ensures Run(OLD_INSTALL, run) == Some(s) && NeverLoses(OLD_INSTALL, run) && NobodyCrashes(run) && NeverSteals(OLD_INSTALL, run)
    ensures s == OLD_INSTALL.(now := STALE_AFTER + 1, phases := map[0 := Idle, 1 := Idle], keyring := Some(1), file := None, late := {0},
                              server := Some(1), issued := 2, redeemed := [0])
  {
    hide Run, NeverLoses, NeverSteals, TimelyRun, NobodyCrashes;
    run, s := SecondRotates();
    run, s := Then(OLD_INSTALL, run, s, StoreToken(1, Landed));
    run, s := Then(OLD_INSTALL, run, s, VerifyStored(1));
    run, s := Then(OLD_INSTALL, run, s, DropLock(1));
    assert s.phases == map[0 := Idle, 1 := Idle];
  }

  /** A write given up by one process lands over the token that another has stored, and that is presented again. */
  lemma LateWriteIsReplayed()
    ensures exists actions: seq<Action> ::
      && Run(OLD_INSTALL, actions).Some? && NobodyCrashes(actions) && NeverLoses(OLD_INSTALL, actions)
      && NeverSteals(OLD_INSTALL, actions) && Run(OLD_INSTALL, actions).value.replayed
  {
    hide Run, NeverLoses, NeverSteals, TimelyRun, NobodyCrashes;
    var run, s := LateWritePending();
    run, s := Then(OLD_INSTALL, run, s, Land(0));
    run, s := Then(OLD_INSTALL, run, s, Begin(2));
    run, s := Then(OLD_INSTALL, run, s, TryCreate(2));
    run, s := Then(OLD_INSTALL, run, s, ReadToken(2, true, Landed));
    run, s := Then(OLD_INSTALL, run, s, Redeem(2, Served));
  }
}
