/** Decimal digit strings and the numbers they stand for. */
module Decimal {
  predicate IsDigit(c: char) {
    '0' <= c <= '9'
  }

  predicate AllDigits(s: string) {
    forall i :: 0 <= i < |s| ==> IsDigit(s[i])
  }

  function DigitValue(c: char): (v: nat)
    requires IsDigit(c)
    ensures v < 10
  {
    c as int - '0' as int
  }

  function DigitChar(v: nat): (c: char)
    requires v < 10
    ensures IsDigit(c) && DigitValue(c) == v
  {
    '0' + v as char
  }

  function Pow10(k: nat): (p: nat)
    ensures p > 0
  {
    if k == 0 then 1 else 10 * Pow10(k - 1)
  }

  function Value(s: string): nat
    requires AllDigits(s)
  {
    if s == "" then 0 else 10 * Value(s[..|s| - 1]) + DigitValue(s[|s| - 1])
  }

  // The usual way to write a number.
  function Digits(n: nat): (s: string)
    ensures AllDigits(s) && s != ""
  {
    if n < 10 then [DigitChar(n)] else Digits(n / 10) + [DigitChar(n % 10)]
  }

  // The k last digits of a number.
  function Padded(n: nat, k: nat): (s: string)
    ensures AllDigits(s) && |s| == k
    decreases k
  {
    if k == 0 then "" else Padded(n / 10, k - 1) + [DigitChar(n % 10)]
  }

  function Zeros(k: nat): (s: string)
    ensures AllDigits(s) && |s| == k
  {
    seq(k, _ => '0')
  }

  lemma Multiple(d: nat, k: int)
    requires k >= 1
    ensures d * k >= d && d * -k <= 0 - d
  {
    assert d * k == d + d * (k - 1);
    assert d * -k == 0 - d * k;
  }

  function Div(n: nat, d: nat): (q: nat)
    requires d > 0
    ensures q == n / d
  {
    var q := n / d;
    assert q >= 0 by {
      assert n == d * q + n % d;
      if q < 0 {
        Multiple(d, -q);
      }
    }
    q
  }

  // A number in units of 10^-k, written out.
  function ScaledText(n: nat, k: nat): string {
    if k == 0 then Digits(n) else Digits(Div(n, Pow10(k))) + "." + Padded(n % Pow10(k), k)
  }

  lemma {:induction false} Pow10Add(a: nat, b: nat)
    ensures Pow10(a + b) == Pow10(a) * Pow10(b)
  {
    if a > 0 {
      Pow10Add(a - 1, b);
      assert Pow10(a + b) == 10 * Pow10(a - 1 + b);
      assert 10 * (Pow10(a - 1) * Pow10(b)) == (10 * Pow10(a - 1)) * Pow10(b);
    }
  }

  lemma {:induction false} ValueBound(s: string)
    requires AllDigits(s)
    ensures Value(s) < Pow10(|s|)
  {
    if s != "" {
      ValueBound(s[..|s| - 1]);
    }
  }

  lemma {:induction false} ValueOfDigits(n: nat)
    ensures Value(Digits(n)) == n
  {
    if n >= 10 {
      ValueOfDigits(n / 10);
      ValueSnoc(Digits(n / 10), DigitChar(n % 10));
    } else {
      ValueSnoc("", DigitChar(n));
      assert "" + [DigitChar(n)] == [DigitChar(n)];
    }
  }

  lemma ValueSnoc(s: string, c: char)
    requires AllDigits(s) && IsDigit(c)
    ensures AllDigits(s + [c]) && Value(s + [c]) == 10 * Value(s) + DigitValue(c)
  {
    assert (s + [c])[..|s|] == s;
  }

  lemma {:induction false} ValueConcat(x: string, y: string)
    requires AllDigits(x) && AllDigits(y)
    ensures AllDigits(x + y) && Value(x + y) == Value(x) * Pow10(|y|) + Value(y)
    decreases |y|
  {
    if y == "" {
      assert x + y == x;
    } else {
      var y', c := y[..|y| - 1], y[|y| - 1];
      ValueConcat(x, y');
      assert x + y == (x + y') + [c] && y == y' + [c];
      ValueSnoc(x + y', c);
      ValueSnoc(y', c);
      var p := Pow10(|y'|);
      assert Pow10(|y|) == 10 * p;
      hide Value, Pow10;
      Shift(Value(x), p, Value(y'), DigitValue(c));
    }
  }

  lemma Shift(a: nat, p: nat, b: nat, c: nat)
    ensures 10 * (a * p + b) + c == a * (10 * p) + (10 * b + c)
  {
    assert a * (10 * p) == 10 * (a * p);
  }

  lemma {:induction false} ValueOfZeros(k: nat)
    ensures Value(Zeros(k)) == 0
  {
    if k > 0 {
      ValueOfZeros(k - 1);
      assert Zeros(k) == Zeros(k - 1) + ['0'];
      ValueSnoc(Zeros(k - 1), '0');
    }
  }

  // Digits of a given number are determined by their count.
  lemma {:induction false} FixedWidth(s: string)
    requires AllDigits(s)
    ensures Padded(Value(s), |s|) == s
  {
    if s != "" {
      var t, c := s[..|s| - 1], s[|s| - 1];
      FixedWidth(t);
      assert s == t + [c];
      assert Value(s) / 10 == Value(t) && Value(s) % 10 == DigitValue(c);
      assert DigitChar(DigitValue(c)) == c;
    }
  }

  // A digit string without a superfluous zero in front is the usual one.
  lemma {:induction false} CanonicalDigits(s: string)
    requires AllDigits(s) && s != "" && (|s| > 1 ==> s[0] != '0')
    ensures Digits(Value(s)) == s
    ensures |s| > 1 ==> Value(s) >= 10
    decreases |s|
  {
    var t, c := s[..|s| - 1], s[|s| - 1];
    assert s == t + [c] && DigitChar(DigitValue(c)) == c;
    if |s| > 1 {
      CanonicalDigits(t);
      assert Value(s) / 10 == Value(t) && Value(s) % 10 == DigitValue(c);
      if |t| == 1 {
        ValueSnoc("", t[0]);
        assert "" + [t[0]] == t;
      }
    }
  }

  lemma {:induction false} DigitsAreCanonical(n: nat)
    ensures |Digits(n)| > 1 ==> Digits(n)[0] != '0'
    ensures n > 0 ==> Digits(n)[0] != '0'
  {
    if n >= 10 {
      DigitsAreCanonical(n / 10);
    }
  }

  // A number below 10^k has at most k digits, for k at least one.
  lemma {:induction false} DigitsLength(n: nat, k: nat)
    requires n < Pow10(k) && k > 0
    ensures |Digits(n)| <= k
    decreases k
  {
    if n >= 10 {
      assert n / 10 < Pow10(k - 1);
      DigitsLength(n / 10, k - 1);
    }
  }

  lemma {:induction false} PaddedZero(k: nat)
    ensures Padded(0, k) == Zeros(k)
  {
    ValueOfZeros(k);
    FixedWidth(Zeros(k));
  }

  // ----- leading zeros

  function TrimZeros(s: string): (t: string)
    requires AllDigits(s)
    ensures AllDigits(t) && |t| <= |s| && (t != "" ==> t[0] != '0')
  {
    if s != "" && s[0] == '0' then TrimZeros(s[1..]) else s
  }

  lemma {:induction false} TrimZerosValue(s: string)
    requires AllDigits(s)
    ensures Value(TrimZeros(s)) == Value(s)
  {
    if s != "" && s[0] == '0' {
      TrimZerosValue(s[1..]);
      assert s == ['0'] + s[1..];
      ValueSnoc("", '0');
      assert "" + ['0'] == ['0'];
      ValueConcat(['0'], s[1..]);
    }
  }

  // Trimming, with "0" for nothing, writes the number in the usual way.
  lemma TrimmedDigits(s: string)
    requires AllDigits(s)
    ensures (if TrimZeros(s) == "" then "0" else TrimZeros(s)) == Digits(Value(s))
  {
    TrimZerosValue(s);
    if TrimZeros(s) == "" {
      assert Value("") == 0;
    } else {
      CanonicalDigits(TrimZeros(s));
    }
  }

  lemma DivModUnique(n: nat, d: nat, q: nat, r: nat)
    requires d > 0 && r < d && n == q * d + r
    ensures n / d == q && n % d == r
  {
    var k := n / d - q;
    assert n == d * (n / d) + n % d;
    assert d * k == d * (n / d) - q * d;
    if k >= 1 {
      Multiple(d, k);
    } else if k <= -1 {
      Multiple(d, -k);
    }
  }

  // Cutting a digit string before its last k digits divides its number by 10^k.
  lemma SplitValue(s: string, k: nat)
    requires AllDigits(s) && k <= |s|
    ensures var w, f := s[..|s| - k], s[|s| - k..];
      AllDigits(w) && AllDigits(f) && Value(w) == Value(s) / Pow10(k) && Value(f) == Value(s) % Pow10(k)
  {
    var w, f := s[..|s| - k], s[|s| - k..];
    assert s == w + f;
    ValueConcat(w, f);
    ValueBound(f);
    DivModUnique(Value(s), Pow10(k), Value(w), Value(f));
  }
}
