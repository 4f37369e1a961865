/**
 Money as text: the printers of launcher/src/format.rs and src/routing-client.ts, and the
 spend-cap parser of launcher/src/main.rs. Amounts are whole numbers of units of 10^-scale.
 */
module MoneyText {
  import opened Wrappers
  import opened Whitespace
  import opened Decimal

  const U64_MAX := 0xFFFF_FFFF_FFFF_FFFF
  const U128_MAX := 0xFFFF_FFFF_FFFF_FFFF_FFFF_FFFF_FFFF_FFFF

  // ----- printing

  // The amount is text, so no integer type bounds it; None for anything but digits.
  function FormatScaledAmount(amount: string, scale: nat): Option<string> {
    if amount == "" || !AllDigits(amount) then None
    else if scale == 0 then
      var value := TrimZeros(amount);
      Some(if value == "" then "0" else value)
    else
      var padded := if |amount| <= scale then Zeros(scale + 1 - |amount|) + amount else amount;
      var split := |padded| - scale;
      var whole := TrimZeros(padded[..split]);
      Some((if whole == "" then "0" else whole) + "." + padded[split..])
  }

  lemma PaddedValue(amount: string, k: nat)
    requires AllDigits(amount)
    ensures AllDigits(Zeros(k) + amount) && Value(Zeros(k) + amount) == Value(amount)
  {
    ValueConcat(Zeros(k), amount);
    ValueOfZeros(k);
  }

  // A digit string cut before its last places, with the zeros in front trimmed.
  lemma CutIsScaled(padded: string, scale: nat)
    requires AllDigits(padded) && 0 < scale < |padded|
    ensures var split := |padded| - scale;
      var whole := TrimZeros(padded[..split]);
      (if whole == "" then "0" else whole) + "." + padded[split..] == ScaledText(Value(padded), scale)
  {
    SplitValue(padded, scale);
    TrimmedDigits(padded[..|padded| - scale]);
    FixedWidth(padded[|padded| - scale..]);
    hide Value, Digits, Padded, TrimZeros, Pow10;
  }

  lemma WholeAmount(amount: string)
    requires amount != "" && AllDigits(amount)
    ensures FormatScaledAmount(amount, 0) == Some(ScaledText(Value(amount), 0))
  {
    TrimmedDigits(amount);
    hide Value, TrimZeros, Digits;
  }

  // The printer's answer once the amount is padded.
  lemma FractionalAmount(amount: string, scale: nat)
    requires amount != "" && AllDigits(amount) && scale > 0
    ensures var padded := if |amount| <= scale then Zeros(scale + 1 - |amount|) + amount else amount;
      && AllDigits(padded) && scale < |padded| && Value(padded) == Value(amount)
      && var split := |padded| - scale;
         var whole := TrimZeros(padded[..split]);
         FormatScaledAmount(amount, scale) == Some((if whole == "" then "0" else whole) + "." + padded[split..])
  {
    hide Value, Zeros, TrimZeros;
    if |amount| <= scale {
      PaddedValue(amount, scale + 1 - |amount|);
    }
  }

  /** Every digit string prints as its number in units of 10^-scale, and nothing else prints. */
  lemma ScaledAmountIsExact(amount: string, scale: nat)
    ensures FormatScaledAmount(amount, scale) ==
      if amount == "" || !AllDigits(amount) then None else Some(ScaledText(Value(amount), scale))
  {
    if amount != "" && AllDigits(amount) {
      if scale == 0 {
        hide ScaledText, FormatScaledAmount;
        WholeAmount(amount);
      } else {
        hide ScaledText, FormatScaledAmount, Value, Zeros, TrimZeros;
        FractionalAmount(amount, scale);
        CutIsScaled(if |amount| <= scale then Zeros(scale + 1 - |amount|) + amount else amount, scale);
      }
    }
  }

  lemma PowerBounds()
    ensures Pow10(19) <= U64_MAX < Pow10(20)
  {
    assert Pow10(5) == 100_000;
    Pow10Add(5, 5);
    Pow10Add(10, 10);
    assert Pow10(20) == 10 * Pow10(19);
  }

  // 10^decimals, or the largest 64-bit number when that does not fit.
  function Divisor(decimals: nat): (d: nat)
    ensures d > 0
  {
    if Pow10(decimals) <= U64_MAX then Pow10(decimals) else U64_MAX
  }

  // What the printer of 64-bit amounts prints: all of them exactly, but for one amount.
  function CpxText(amount: nat, decimals: nat): string {
    if amount == U64_MAX && decimals >= 20 then "1." + Zeros(decimals) else ScaledText(amount, decimals)
  }

  lemma {:induction false} Pow10Grows(a: nat, b: nat)
    requires a <= b
    ensures Pow10(a) <= Pow10(b)
    decreases b
  {
    if a < b {
      Pow10Grows(a, b - 1);
    }
  }

  // The printer's parts are the whole and the last digits of the amount, except in that one case.
  lemma CpxParts(amount: nat, decimals: nat)
    requires amount <= U64_MAX && decimals > 0
    ensures var whole, frac := amount / Divisor(decimals), amount % Divisor(decimals);
      && frac < Pow10(decimals)
      && (if amount == U64_MAX && decimals >= 20 then whole == 1 && frac == 0
          else whole == amount / Pow10(decimals) && frac == amount % Pow10(decimals))
  {
    PowerBounds();
    if decimals >= 20 {
      Pow10Grows(20, decimals);
      DivModUnique(amount, Pow10(decimals), 0, amount);
    } else {
      Pow10Grows(decimals, 19);
    }
  }

  /** Prints a 64-bit amount, padding the fraction in place. */
  method FormatCpxDisplay(amountMinor: nat, decimals: nat) returns (text: string)
    requires amountMinor <= U64_MAX && decimals <= 255
    ensures text == CpxText(amountMinor, decimals)
  {
    if decimals == 0 {
      return Digits(amountMinor);
    }
    CpxParts(amountMinor, decimals);
    var divisor := Divisor(decimals);
    var whole := Div(amountMinor, divisor);
    var frac := amountMinor % divisor;
    hide Digits, Padded;
    if frac == 0 {
      PaddedZero(decimals);
      assert whole == 1 ==> Digits(1) == "1" by {
        OneDigit();
      }
      return Digits(whole) + "." + Zeros(decimals);
    }
    var fracStr := Digits(frac);
    DigitsLength(frac, decimals);
    ValueOfDigits(frac);
    while |fracStr| < decimals
      invariant |fracStr| <= decimals && AllDigits(fracStr) && Value(fracStr) == frac
    {
      InsertZero(fracStr);
      fracStr := "0" + fracStr;
    }
    FixedWidth(fracStr);
    return Digits(whole) + "." + fracStr;
  }

  lemma OneDigit()
    ensures Digits(1) == "1"
  {
  }

  lemma InsertZero(s: string)
    requires AllDigits(s)
    ensures AllDigits("0" + s) && Value("0" + s) == Value(s)
  {
    assert Zeros(1) == "0";
    PaddedValue(s, 1);
  }

  /** The two printers of the launcher agree on every 64-bit amount and scale, except one amount at scales from 20 up. */
  lemma PrintersAgree(amount: nat, decimals: nat)
    requires amount <= U64_MAX
    ensures Some(CpxText(amount, decimals)) == FormatScaledAmount(Digits(amount), decimals) <==>
            !(amount == U64_MAX && decimals >= 20)
  {
    ScaledAmountIsExact(Digits(amount), decimals);
    ValueOfDigits(amount);
    if amount == U64_MAX && decimals >= 20 {
      CpxParts(amount, decimals);
      PowerBounds();
      Pow10Grows(20, decimals);
      DivModUnique(amount, Pow10(decimals), 0, amount);
      assert ScaledText(amount, decimals)[0] == '0';
      assert CpxText(amount, decimals)[0] == '1';
    }
  }

  // ----- the client's printer

  datatype Money = Money(amountMinor: string, currency: string, scale: nat)

  function PadStart(s: string, width: nat): string {
    if |s| >= width then s else Zeros(width - |s|) + s
  }

  function FormatMoney(m: Money): string {
    var negative := "-" <= m.amountMinor;
    var digits := PadStart(if negative then m.amountMinor[1..] else m.amountMinor, m.scale + 1);
    var whole := digits[..|digits| - m.scale];
    var frac := if m.scale > 0 then "." + digits[|digits| - m.scale..] else "";
    (if negative then "-" else "") + m.currency + " " + (if whole == "" then "0" else whole) + frac
  }

  // The figures of the client's printer, without sign and currency.
  function MoneyDigits(amount: string, scale: nat): string {
    var digits := PadStart(amount, scale + 1);
    digits[..|digits| - scale] + if scale > 0 then "." + digits[|digits| - scale..] else ""
  }

  // A minus sign goes in front of the currency.
  lemma FormatMoneyIs(amount: string, currency: string, scale: nat)
    requires amount != "" && AllDigits(amount)
    ensures FormatMoney(Money(amount, currency, scale)) == currency + " " + MoneyDigits(amount, scale)
    ensures FormatMoney(Money("-" + amount, currency, scale)) == "-" + currency + " " + MoneyDigits(amount, scale)
  {
    SignOf(amount);
    PlainMoney(amount, currency, scale);
    SignedMoney(amount, currency, scale);
    hide FormatMoney, MoneyDigits;
  }

  lemma SignOf(amount: string)
    requires amount != "" && AllDigits(amount)
    ensures !("-" <= amount) && "-" <= "-" + amount && ("-" + amount)[1..] == amount
  {
    assert IsDigit(amount[0]);
  }

  lemma PlainMoney(amount: string, currency: string, scale: nat)
    requires !("-" <= amount)
    ensures FormatMoney(Money(amount, currency, scale)) == currency + " " + MoneyDigits(amount, scale)
  {
    hide PadStart;
    Assemble("", currency, amount, scale);
  }

  lemma SignedMoney(amount: string, currency: string, scale: nat)
    requires "-" <= "-" + amount && ("-" + amount)[1..] == amount
    ensures FormatMoney(Money("-" + amount, currency, scale)) == "-" + currency + " " + MoneyDigits(amount, scale)
  {
    hide PadStart;
    Assemble("-", currency, amount, scale);
  }

  lemma Assemble(sign: string, currency: string, amount: string, scale: nat)
    ensures |PadStart(amount, scale + 1)| > scale
    ensures var digits := PadStart(amount, scale + 1);
      var whole := digits[..|digits| - scale];
      var frac := if scale > 0 then "." + digits[|digits| - scale..] else "";
      && whole != ""
      && sign + currency + " " + whole + frac == sign + currency + " " + MoneyDigits(amount, scale)
  {
    var digits := PadStart(amount, scale + 1);
    hide PadStart;
    var whole := digits[..|digits| - scale];
    var frac := if scale > 0 then "." + digits[|digits| - scale..] else "";
    assert sign + currency + " " + whole + frac == sign + currency + " " + (whole + frac);
  }

  // Both sides of the comparison end alike; they differ at most in how the whole is written.
  lemma MoneyParts(amount: string, scale: nat) returns (whole: string, tail: string)
    requires amount != "" && AllDigits(amount)
    ensures AllDigits(whole) && whole != ""
    ensures |whole| > 1 <==> |amount| > scale + 1
    ensures |whole| > 1 ==> whole[0] == amount[0]
    ensures MoneyDigits(amount, scale) == whole + tail
    ensures ScaledText(Value(amount), scale) == Digits(Value(whole)) + tail
  {
    hide Value, Digits, Padded, Zeros, Pow10;
    var digits := PadStart(amount, scale + 1);
    if |amount| < scale + 1 {
      PaddedValue(amount, scale + 1 - |amount|);
    }
    SplitValue(digits, scale);
    whole := digits[..|digits| - scale];
    var frac := digits[|digits| - scale..];
    tail := if scale > 0 then "." + frac else "";
    if scale == 0 {
      assert whole == digits;
      assert whole + "" == whole && Digits(Value(whole)) + "" == Digits(Value(whole));
    } else {
      FixedWidth(frac);
      assert Digits(Value(whole)) + "." + frac == Digits(Value(whole)) + ("." + frac);
    }
  }

  /** The client prints the exact figures exactly when there is no superfluous zero in front of them. */
  lemma MoneyDigitsAgree(amount: string, scale: nat)
    requires amount != "" && AllDigits(amount)
    ensures MoneyDigits(amount, scale) == ScaledText(Value(amount), scale) <==>
            !(|amount| > scale + 1 && amount[0] == '0')
  {
    var whole, tail := MoneyParts(amount, scale);
    SameTail(whole, Digits(Value(whole)), tail);
    DigitsAreCanonical(Value(whole));
    if !(|whole| > 1 && whole[0] == '0') {
      CanonicalDigits(whole);
    }
    hide Digits, Value, ScaledText, MoneyDigits;
  }

  lemma SameTail(x: string, y: string, tail: string)
    ensures x + tail == y + tail ==> x == y
  {
    if x + tail == y + tail {
      assert |x| == |y|;
      assert (x + tail)[..|x|] == x && (y + tail)[..|y|] == y;
    }
  }

  // ----- reading a spend cap

  datatype CapError = Empty | Signed | Malformed | TooFine | TooLarge

  function IndexOfDot(s: string): (n: nat)
    ensures n <= |s| && (forall i :: 0 <= i < n ==> s[i] != '.') && (n < |s| ==> s[n] == '.')
  {
    if s == "" || s[0] == '.' then 0 else IndexOfDot(s[1..]) + 1
  }

  // What stands before and after the first point.
  function SplitOnce(s: string): (string, string) {
    var n := IndexOfDot(s);
    if n == |s| then (s, "") else (s[..n], s[n + 1..])
  }

  // Decimal dollars to whole micro-dollars, or an error; never rounded.
  function ParseSpendCapMinor(raw: string): Result<string, CapError> {
    var trimmed := Trim(raw, IsRustSpace);
    if trimmed == "" then Err(Empty)
    else if trimmed[0] == '-' || trimmed[0] == '+' then Err(Signed)
    else ParseParts(SplitOnce(trimmed).0, SplitOnce(trimmed).1)
  }

  function ParseParts(dollars: string, fraction: string): Result<string, CapError> {
    if dollars == "" && fraction == "" then Err(Malformed)
    else if !AllDigits(dollars) || !AllDigits(fraction) then Err(Malformed)
    else if |fraction| > 6 then Err(TooFine)
    else
      var whole := Value(if dollars == "" then "0" else dollars);
      if whole > U128_MAX then Err(Malformed) else
        PadEnd(fraction);
        var frac := Value(fraction + Zeros(6 - |fraction|));
        if whole * 1_000_000 > U128_MAX || whole * 1_000_000 + frac > U128_MAX then Err(TooLarge)
        else if whole * 1_000_000 + frac > U64_MAX then Err(TooLarge)
        else Ok(Digits(whole * 1_000_000 + frac))
  }

  lemma PadEnd(fraction: string)
    requires AllDigits(fraction) && |fraction| <= 6
    ensures AllDigits(fraction + Zeros(6 - |fraction|))
    ensures Value(fraction + Zeros(6 - |fraction|)) == Value(fraction) * Pow10(6 - |fraction|)
  {
    hide Value, Pow10, Zeros;
    ValueConcat(fraction, Zeros(6 - |fraction|));
    ValueOfZeros(6 - |fraction|);
  }

  // Digits, with at most one point among them and at least one digit.
  predicate IsPlainDecimal(s: string) {
    var (dollars, fraction) := SplitOnce(s);
    AllDigits(dollars) && AllDigits(fraction) && dollars + fraction != ""
  }

  // The number a plain decimal stands for, in units of 10^-k, k being its count of decimals.
  function Units(s: string): nat
    requires IsPlainDecimal(s)
  {
    var (dollars, fraction) := SplitOnce(s);
    Value(dollars) * Pow10(|fraction|) + Value(fraction)
  }

  function Decimals(s: string): nat {
    |SplitOnce(s).1|
  }

  lemma PlainIsUnsigned(s: string)
    requires IsPlainDecimal(s)
    ensures s != "" && s[0] != '-' && s[0] != '+'
  {
    var (dollars, fraction) := SplitOnce(s);
    assert dollars != "" ==> s[0] == dollars[0] && IsDigit(dollars[0]);
  }

  lemma WholePart(dollars: string)
    requires AllDigits(dollars)
    ensures Value(if dollars == "" then "0" else dollars) == Value(dollars)
  {
    ValueSnoc("", '0');
    assert "" + ['0'] == "0";
  }

  // The micro-dollars a plain decimal comes to.
  function MinorOf(s: string): nat
    requires IsPlainDecimal(s) && Decimals(s) <= 6
  {
    Units(s) * Pow10(6 - Decimals(s))
  }

  predicate IsSpendCap(s: string) {
    IsPlainDecimal(s) && Decimals(s) <= 6 && MinorOf(s) < 0x1_0000_0000_0000_0000
  }

  lemma MicroDollars(s: string)
    requires IsPlainDecimal(s) && Decimals(s) <= 6
    ensures var dollars, fraction := SplitOnce(s).0, SplitOnce(s).1;
      Value(dollars) * 1_000_000 + Value(fraction) * Pow10(6 - |fraction|) == MinorOf(s)
  {
    var dollars, fraction := SplitOnce(s).0, SplitOnce(s).1;
    Pow10Add(|fraction|, 6 - |fraction|);
    SixPlaces();
    hide SplitOnce, Value, Pow10;
    Distribute(Value(dollars), Pow10(|fraction|), Value(fraction), Pow10(6 - |fraction|));
  }

  // Why a text is no spend cap, in the order in which it is looked at.
  function CapErrorOf(s: string): CapError {
    if s == "" then Empty
    else if s[0] == '-' || s[0] == '+' then Signed
    else if !IsPlainDecimal(s) then Malformed
    else if Decimals(s) > 6 then TooFine
    else if Value(SplitOnce(s).0) >= 0x1_0000_0000_0000_0000_0000_0000_0000_0000 then Malformed
    else TooLarge
  }

  // Parsing the two parts, in terms of the number they stand for.
  lemma PartsAreExact(s: string)
    requires s != ""
    ensures var r := ParseParts(SplitOnce(s).0, SplitOnce(s).1);
      if IsSpendCap(s) then r == Ok(Digits(MinorOf(s)))
      else s[0] != '-' && s[0] != '+' ==> r == Err(CapErrorOf(s))
  {
    var dollars, fraction := SplitOnce(s).0, SplitOnce(s).1;
    hide SplitOnce, Digits, Value, Units;
    if IsPlainDecimal(s) && Decimals(s) <= 6 {
      WholePart(dollars);
      MicroDollars(s);
      PadEnd(fraction);
      hide Pow10, MinorOf, Zeros;
    }
  }

  lemma SixPlaces()
    ensures Pow10(6) == 1_000_000
  {
    assert Pow10(3) == 1000 && Pow10(6) == 1000 * Pow10(3);
  }

  lemma Distribute(a: nat, p: nat, b: nat, q: nat)
    ensures (a * p + b) * q == a * (p * q) + b * q
  {
    assert (a * p) * q == a * (p * q);
  }

  /**
   A spend cap is accepted exactly when, but for surrounding white space, it is a plain decimal
   with at most six decimals that comes to at most 2^64-1 micro-dollars; the answer is then the
   exact number of micro-dollars, written in the usual way. Any other text has one error.
   */
  lemma CapIsExact(raw: string)
    ensures var s := Trim(raw, IsRustSpace);
      ParseSpendCapMinor(raw) == if IsSpendCap(s) then Ok(Digits(MinorOf(s))) else Err(CapErrorOf(s))
  {
    var s := Trim(raw, IsRustSpace);
    hide Trim, SplitOnce, Digits, ParseParts, MinorOf;
    if s != "" {
      PartsAreExact(s);
    }
    if IsPlainDecimal(s) {
      PlainIsUnsigned(s);
    }
  }

  lemma DigitsText(n: nat)
    ensures ScaledText(n, 6) == Digits(Div(n, 1_000_000)) + "." + Padded(n % 1_000_000, 6)
  {
    SixPlaces();
  }

  lemma SplitAtDot(w: string, f: string)
    requires AllDigits(w)
    ensures SplitOnce(w + "." + f) == (w, f)
  {
    var s := w + "." + f;
    assert forall i :: 0 <= i < |w| ==> s[i] == w[i] && IsDigit(w[i]);
    assert s[|w|] == '.' && s[..|w|] == w && s[|w| + 1..] == f;
  }

  // The text of an amount of micro-dollars is a spend cap of that amount.
  lemma TextIsCap(n: nat)
    requires n <= U64_MAX
    ensures var s := ScaledText(n, 6);
      Trim(s, IsRustSpace) == s && IsSpendCap(s) && MinorOf(s) == n
  {
    hide Digits, Padded, Trim, SplitOnce, Value, Pow10;
    DigitsText(n);
    var q, r := Div(n, 1_000_000), n % 1_000_000;
    var w, f := Digits(q), Padded(r, 6);
    var s := w + "." + f;
    ValueOfDigits(q);
    SixPlaces();
    PaddedValueIs(r, 6);
    SplitAtDot(w, f);
    TextEnds(w, f);
    NothingToTrim(s, IsRustSpace);
    hide ScaledText, AllDigits;
    OnePower();
    assert Units(s) == q * 1_000_000 + r;
  }

  lemma OnePower()
    ensures Pow10(0) == 1
  {
  }

  lemma TextEnds(w: string, f: string)
    requires AllDigits(w) && AllDigits(f) && w != "" && f != ""
    ensures var s := w + "." + f; s != "" && IsDigit(s[0]) && IsDigit(s[|s| - 1])
  {
    var s := w + "." + f;
    assert s[0] == w[0] && s[|s| - 1] == f[|f| - 1];
  }

  /** Printing an amount of micro-dollars and reading it back gives the amount. */
  lemma CapRoundTrip(n: nat)
    requires n <= U64_MAX
    ensures FormatScaledAmount(Digits(n), 6).Some?
    ensures ParseSpendCapMinor(FormatScaledAmount(Digits(n), 6).value) == Ok(Digits(n))
  {
    ScaledAmountIsExact(Digits(n), 6);
    ValueOfDigits(n);
    hide Digits, FormatScaledAmount, ParseSpendCapMinor, ScaledText, IsSpendCap, MinorOf, Trim;
    TextIsCap(n);
    CapIsExact(ScaledText(n, 6));
  }

  lemma {:induction false} PaddedValueIs(n: nat, k: nat)
    requires n < Pow10(k)
    ensures Value(Padded(n, k)) == n
    decreases k
  {
    if k > 0 {
      PaddedValueIs(n / 10, k - 1);
      ValueSnoc(Padded(n / 10, k - 1), DigitChar(n % 10));
    }
  }
}
