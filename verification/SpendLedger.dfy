/**
 The spend cap of autonomous runs, src/spend-cap.ts: a ledger of recorded costs in micro-dollars,
 a gate in front of every request, and one warning at nine tenths of the cap. The environment
 variable that holds the cap is read anew at every call, so every call takes its value.
 */
module SpendLedger {
  import opened Wrappers
  import opened Whitespace
  import opened Decimal

  function ReadSpendCapMinor(env: Option<string>): Option<nat> {
    if env.None? then None else
      var raw := JsTrim(env.value);
      if raw == "" || !AllDigits(raw) then None else Some(Value(raw))
  }

  // A recorded cost in micro-dollars; anything below one is dropped.
  function ToMicroUsd(amount: string, scale: int): nat {
    if amount == "" || !AllDigits(amount) then 0
    else if scale == 6 then Value(amount)
    else if scale > 6 then Div(Value(amount), Pow10(scale - 6))
    else Value(amount) * Pow10(6 - scale)
  }

  datatype SpendCapStatus =
    SpendCapStatus(capMinor: Option<string>, spentMinor: string, warnedAt90: bool, exceeded: bool)

  datatype SpendCapReached = SpendCapReached(capMinor: string, spentMinor: string)

  predicate IsNumber(s: string) {
    s != "" && AllDigits(s)
  }

  // The status holds numbers as text, and this reads them back.
  predicate IsAt90(status: SpendCapStatus)
    requires IsNumber(status.spentMinor) && (status.capMinor.Some? ==> IsNumber(status.capMinor.value))
  {
    status.capMinor.Some? && 10 * Value(status.spentMinor) >= 9 * Value(status.capMinor.value)
  }

  // ----- the ledger as a value

  datatype Ledger = Ledger(spentMinor: nat, warnedAt90: bool)

  predicate Exceeded(spent: nat, cap: Option<nat>) {
    cap.Some? && spent >= cap.value
  }

  // From nine tenths of the cap up to, but not including, the cap.
  predicate InBand(spent: nat, cap: Option<nat>) {
    cap.Some? && 9 * cap.value <= 10 * spent < 10 * cap.value
  }

  datatype Event =
    | Request(env: Option<string>)
    | Cost(env: Option<string>, amount: string, scale: int)

  predicate Issues(l: Ledger, e: Event) {
    e.Request? && !Exceeded(l.spentMinor, ReadSpendCapMinor(e.env))
  }

  function Spent(l: Ledger, e: Event): nat {
    if e.Cost? then l.spentMinor + ToMicroUsd(e.amount, e.scale) else l.spentMinor
  }

  predicate Warns(l: Ledger, e: Event) {
    e.Cost? && !l.warnedAt90 && InBand(Spent(l, e), ReadSpendCapMinor(e.env))
  }

  function Step(l: Ledger, e: Event): Ledger {
    Ledger(Spent(l, e), l.warnedAt90 || Warns(l, e))
  }

  function Run(l: Ledger, es: seq<Event>): Ledger {
    if es == [] then l else Step(Run(l, es[..|es| - 1]), es[|es| - 1])
  }

  // ----- the ledger of the process

  class SpendCapLedger {
    var spentMinor: nat
    var warnedAt90: bool

    constructor ()
      ensures State() == Ledger(0, false)
    {
      spentMinor := 0;
      warnedAt90 := false;
    }

    ghost function State(): Ledger
      reads this
    {
      Ledger(spentMinor, warnedAt90)
    }

    function Status(env: Option<string>): (status: SpendCapStatus)
      reads this
      ensures IsNumber(status.spentMinor) && Value(status.spentMinor) == spentMinor
      ensures status.capMinor.Some? <==> ReadSpendCapMinor(env).Some?
      ensures status.capMinor.Some? ==>
        IsNumber(status.capMinor.value) && Some(Value(status.capMinor.value)) == ReadSpendCapMinor(env)
      ensures status.exceeded <==> Exceeded(spentMinor, ReadSpendCapMinor(env))
    {
      var cap := ReadSpendCapMinor(env);
      ValueOfDigits(spentMinor);
      if cap.None? then SpendCapStatus(None, Digits(spentMinor), warnedAt90, false) else
        ValueOfDigits(cap.value);
        SpendCapStatus(Some(Digits(cap.value)), Digits(spentMinor), warnedAt90, spentMinor >= cap.value)
    }

    /** Records a cost. The status answered is the one before the warning flag is set. */
    method RecordSpendCapCost(amount: string, scale: int, env: Option<string>)
      returns (status: SpendCapStatus, warned: bool)
      modifies this
      ensures State() == Step(old(State()), Cost(env, amount, scale))
      ensures warned == Warns(old(State()), Cost(env, amount, scale))
      ensures IsNumber(status.spentMinor) && Value(status.spentMinor) == spentMinor
      ensures status.exceeded <==> Exceeded(spentMinor, ReadSpendCapMinor(env))
      ensures status.warnedAt90 == old(warnedAt90)
      ensures status == Status(env) <==> !warned
    {
      spentMinor := spentMinor + ToMicroUsd(amount, scale);
      status := Status(env);
      warned := false;
      hide ToMicroUsd, ReadSpendCapMinor, Value, AllDigits;
      if !status.exceeded && !warnedAt90 && status.capMinor.Some? && IsAt90(status) {
        warnedAt90 := true;
        warned := true;
      }
    }

    /** The gate before every request; it changes nothing. */
    method AssertSpendCapNotExceeded(env: Option<string>) returns (r: Result<bool, SpendCapReached>)
      ensures r.Ok? <==> Issues(State(), Request(env))
      ensures r.Err? ==>
        && IsNumber(r.error.capMinor) && Some(Value(r.error.capMinor)) == ReadSpendCapMinor(env)
        && IsNumber(r.error.spentMinor) && Value(r.error.spentMinor) == spentMinor
    {
      var cap := ReadSpendCapMinor(env);
      hide ReadSpendCapMinor;
      if cap.Some? && spentMinor >= cap.value {
        ValueOfDigits(cap.value);
        ValueOfDigits(spentMinor);
        return Err(SpendCapReached(Digits(cap.value), Digits(spentMinor)));
      }
      return Ok(true);
    }
  }

  /** The variable holds a cap exactly when it is one or more digits between white space, and then the number they write. */
  lemma CapIsRead(env: Option<string>, cap: nat)
    ensures ReadSpendCapMinor(env) == Some(cap) <==>
      env.Some? && IsNumber(Trim(env.value, IsJsSpace)) && Value(Trim(env.value, IsJsSpace)) == cap
  {
    hide Trim, Value;
  }

  lemma ReadsDigits(cap: nat)
    ensures ReadSpendCapMinor(Some(Digits(cap))) == Some(cap)
  {
    hide Digits, Value, Trim;
    ValueOfDigits(cap);
    NothingToTrim(Digits(cap), IsJsSpace);
  }

  /** A first cost makes the ledger warn exactly from nine tenths of the cap up to, but not at, the cap. */
  lemma FirstCostWarns(cap: nat, cost: nat)
    ensures Warns(Ledger(0, false), Cost(Some(Digits(cap)), Digits(cost), 6)) <==> 9 * cap <= 10 * cost < 10 * cap
  {
    hide Digits, Value, ReadSpendCapMinor;
    ReadsDigits(cap);
    ValueOfDigits(cost);
  }

  /** Nine micro-dollars of ten: the call that warns, and answers a status that says it did not. */
  lemma NineOfTenWarns()
    ensures Warns(Ledger(0, false), Cost(Some(Digits(10)), Digits(9), 6))
  {
    FirstCostWarns(10, 9);
  }

  // ----- the ledger against the true sum

  // What a well-formed cost comes to in micro-dollars, fractions and all.
  function TrueMicroUsd(amount: string, scale: int): real {
    if amount == "" || !AllDigits(amount) then 0.0
    else if scale > 6 then Value(amount) as real / Pow10(scale - 6) as real
    else (Value(amount) * Pow10(6 - scale)) as real
  }

  function TrueSum(es: seq<Event>): real {
    if es == [] then 0.0 else
      var e := es[|es| - 1];
      TrueSum(es[..|es| - 1]) + if e.Cost? then TrueMicroUsd(e.amount, e.scale) else 0.0
  }

  // How many costs come in finer units than micro-dollars.
  function FineCosts(es: seq<Event>): nat {
    if es == [] then 0 else
      var e := es[|es| - 1];
      FineCosts(es[..|es| - 1]) + if e.Cost? && e.scale > 6 then 1 else 0
  }

  lemma MulMonotone(x: real, y: real, d: real)
    requires d > 0.0
    ensures x < y ==> x * d < y * d
    ensures x <= y ==> x * d <= y * d
  {
  }

  lemma RealQuotient(v: real, d: real, q: real)
    requires d > 0.0 && q * d <= v < (q + 1.0) * d
    ensures q <= v / d < q + 1.0
  {
    var x := v / d;
    assert x * d == v;
    MulMonotone(x, q, d);
    MulMonotone(q + 1.0, x, d);
  }

  lemma QuotientBounds(v: nat, d: nat)
    requires d > 0
    ensures var short := v as real / d as real - Div(v, d) as real; 0.0 <= short && short < 1.0
  {
    var q, r := Div(v, d), v % d;
    assert v == d * q + r && d * q == q * d && (q + 1) * d == q * d + d;
    assert (q * d) as real == q as real * d as real;
    assert (q as real + 1.0) * d as real == q as real * d as real + d as real;
    RealQuotient(v as real, d as real, q as real);
  }

  lemma CostBounds(amount: string, scale: int)
    ensures var short := TrueMicroUsd(amount, scale) - ToMicroUsd(amount, scale) as real;
      0.0 <= short && short < 1.0 && (scale <= 6 ==> short == 0.0)
  {
    if amount != "" && AllDigits(amount) && scale > 6 {
      QuotientBounds(Value(amount), Pow10(scale - 6));
    } else if scale == 6 {
      assert Pow10(0) == 1;
    }
  }

  /**
   The ledger never shows more than was truly spent, and falls short by less than one micro-dollar
   for each cost given in finer units; without such costs it is exact.
   */
  lemma {:induction false} LedgerBound(l: Ledger, es: seq<Event>)
    ensures var short, fine := l.spentMinor as real + TrueSum(es) - Run(l, es).spentMinor as real, FineCosts(es) as real;
      0.0 <= short && (if FineCosts(es) == 0 then short == 0.0 else short < fine)
  {
    if es != [] {
      LedgerBound(l, es[..|es| - 1]);
      var e := es[|es| - 1];
      if e.Cost? {
        CostBounds(e.amount, e.scale);
      }
      hide ToMicroUsd, TrueMicroUsd, Warns;
    }
  }

  // ----- the gate over a run

  predicate SameCap(es: seq<Event>, cap: nat) {
    forall i :: 0 <= i < |es| ==> ReadSpendCapMinor(es[i].env) == Some(cap)
  }

  // What was recorded after the last request that was let through; None when none was.
  function SinceIssue(l: Ledger, es: seq<Event>): Option<nat> {
    if es == [] then None else
      var before, e := es[..|es| - 1], es[|es| - 1];
      var since := SinceIssue(l, before);
      if Issues(Run(l, before), e) then Some(0)
      else if e.Cost? && since.Some? then Some(since.value + ToMicroUsd(e.amount, e.scale))
      else since
  }

  /**
   Requests and costs may interleave in any way: what is spent stays below the cap plus what was
   recorded since the last request that was let through. With one request at a time that is the
   last request's own cost.
   */
  lemma {:induction false} OvershootIsBounded(l: Ledger, es: seq<Event>, cap: nat)
    requires SameCap(es, cap)
    ensures SinceIssue(l, es).Some? ==> Run(l, es).spentMinor < cap + SinceIssue(l, es).value
  {
    hide ReadSpendCapMinor, ToMicroUsd, Warns;
    if es != [] {
      OvershootIsBounded(l, es[..|es| - 1], cap);
      assert ReadSpendCapMinor(es[|es| - 1].env) == Some(cap);
    }
  }

  lemma {:induction false} SpentOnlyGrows(l: Ledger, es: seq<Event>, i: nat, j: nat)
    requires i <= j <= |es|
    ensures Run(l, es[..i]).spentMinor <= Run(l, es[..j]).spentMinor
  {
    if i < j {
      SpentOnlyGrows(l, es, i, j - 1);
      assert es[..j][..j - 1] == es[..j - 1];
      hide ToMicroUsd, Warns;
    }
  }

  /** After a refusal under a cap, every later request under the same cap is refused. */
  lemma RefusedForGood(l: Ledger, es: seq<Event>, i: nat, j: nat)
    requires i <= j < |es| && es[i].Request? && es[j].Request?
    requires ReadSpendCapMinor(es[i].env) == ReadSpendCapMinor(es[j].env)
    requires !Issues(Run(l, es[..i]), es[i])
    ensures !Issues(Run(l, es[..j]), es[j])
  {
    SpentOnlyGrows(l, es, i, j);
  }

  // ----- the warning

  function Warnings(l: Ledger, es: seq<Event>): nat {
    if es == [] then 0 else
      var before, e := es[..|es| - 1], es[|es| - 1];
      Warnings(l, before) + if Warns(Run(l, before), e) then 1 else 0
  }

  // The cost at i leaves the ledger within the band.
  predicate EntersBand(l: Ledger, es: seq<Event>, i: nat)
    requires i < |es|
  {
    es[i].Cost? && InBand(Spent(Run(l, es[..i]), es[i]), ReadSpendCapMinor(es[i].env))
  }

  lemma PrefixBand(l: Ledger, es: seq<Event>, i: nat)
    requires i < |es| - 1
    ensures EntersBand(l, es, i) == EntersBand(l, es[..|es| - 1], i)
  {
    assert es[..|es| - 1][..i] == es[..i];
  }

  predicate SomeInBand(l: Ledger, es: seq<Event>) {
    exists i: nat :: i < |es| && EntersBand(l, es, i)
  }

  lemma SomeInBandStep(l: Ledger, es: seq<Event>)
    requires es != []
    ensures SomeInBand(l, es) <==> SomeInBand(l, es[..|es| - 1]) || EntersBand(l, es, |es| - 1)
  {
    var before := es[..|es| - 1];
    forall i: nat | i < |before|
      ensures EntersBand(l, es, i) == EntersBand(l, before, i)
    {
      PrefixBand(l, es, i);
    }
    hide EntersBand;
    if i: nat :| i < |before| && EntersBand(l, before, i) {
      assert EntersBand(l, es, i);
    }
  }

  /** The warning is given exactly once when some cost leaves the ledger in the band, and never otherwise. */
  lemma {:induction false} WarnsOnce(es: seq<Event>)
    ensures Warnings(Ledger(0, false), es) == if SomeInBand(Ledger(0, false), es) then 1 else 0
    ensures Run(Ledger(0, false), es).warnedAt90 <==> Warnings(Ledger(0, false), es) == 1
  {
    var l := Ledger(0, false);
    if es != [] {
      WarnsOnce(es[..|es| - 1]);
      SomeInBandStep(l, es);
      hide SomeInBand, ReadSpendCapMinor, Spent;
      assert Warns(Run(l, es[..|es| - 1]), es[|es| - 1]) <==>
        !Run(l, es[..|es| - 1]).warnedAt90 && EntersBand(l, es, |es| - 1);
    }
  }
}
