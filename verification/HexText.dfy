/** Hexadecimal text, as launcher/src/merkle_verify.rs reads it. Characters are Unicode scalar values. */
module HexText {
  import opened Wrappers
  import opened MerkleEncoding

  // Length of a character in UTF-8.
  function Utf8Bytes(c: char): nat {
    if c as int < 0x80 then 1 else if c as int < 0x800 then 2 else if c as int < 0x1_0000 then 3 else 4
  }

  function Utf8Length(s: string): nat {
    if s == [] then 0 else Utf8Bytes(s[0]) + Utf8Length(s[1..])
  }

  predicate IsHexDigit(c: char) {
    '0' <= c <= '9' || 'a' <= c <= 'f' || 'A' <= c <= 'F'
  }

  function HexNibble(c: char): (n: Option<byte>)
    ensures n.Some? ==> n.value < 16
    ensures n.Some? <==> IsHexDigit(c)
  {
    if '0' <= c <= '9' then Some(c as int - '0' as int)
    else if 'a' <= c <= 'f' then Some(c as int - 'a' as int + 10)
    else if 'A' <= c <= 'F' then Some(c as int - 'A' as int + 10)
    else None
  }

  // The bytes of the pairs of characters; a last character without a partner is not looked at.
  function DecodedPairs(s: string): Option<seq<byte>> {
    if |s| < 2 then Some([]) else
      match (HexNibble(s[0]), HexNibble(s[1]))
      case (Some(h), Some(l)) =>
        (match DecodedPairs(s[2..]) case None => None case Some(rest) => Some([h * 16 + l] + rest))
      case _ => None
  }

  function DecodedHex(s: string): Option<seq<byte>> {
    if Utf8Length(s) % 2 != 0 then None else DecodedPairs(s)
  }

  function Extended(out: seq<byte>, rest: Option<seq<byte>>): Option<seq<byte>> {
    match rest case None => None case Some(bytes) => Some(out + bytes)
  }

  lemma NothingBefore(rest: Option<seq<byte>>)
    ensures Extended([], rest) == rest
  {
    if rest.Some? {
      assert [] + rest.value == rest.value;
    }
  }

  lemma ExtendedByOne(out: seq<byte>, b: byte, rest: Option<seq<byte>>)
    ensures Extended(out + [b], rest) == Extended(out, Extended([b], rest))
  {
    if rest.Some? {
      assert out + [b] + rest.value == out + ([b] + rest.value);
    }
  }

  method HexDecode(hex: string) returns (bytes: Option<seq<byte>>)
    ensures bytes == DecodedHex(hex)
  {
    if Utf8Length(hex) % 2 != 0 {
      return None;
    }
    var out: seq<byte> := [];
    var chars := hex;
    NothingBefore(DecodedPairs(hex));
    while |chars| >= 2
      invariant DecodedPairs(hex) == Extended(out, DecodedPairs(chars))
      decreases |chars|
    {
      var h, l := HexNibble(chars[0]), HexNibble(chars[1]);
      if h.None? || l.None? {
        return None;
      }
      ExtendedByOne(out, h.value * 16 + l.value, DecodedPairs(chars[2..]));
      out := out + [h.value * 16 + l.value];
      chars := chars[2..];
    }
    assert out + [] == out;
    return Some(out);
  }

  method FromHex32(hex: string) returns (digest: Option<Digest>)
    ensures digest.Some? <==> DecodedHex(hex).Some? && |DecodedHex(hex).value| == 32
    ensures digest.Some? ==> digest.value == DecodedHex(hex).value
  {
    var bytes := HexDecode(hex);
    if bytes.None? || |bytes.value| != 32 {
      return None;
    }
    return Some(bytes.value);
  }

  // ----- what hexadecimal text is meant to be

  predicate AllHex(s: string) {
    forall i :: 0 <= i < |s| ==> IsHexDigit(s[i])
  }

  predicate IsHexText(s: string) {
    |s| % 2 == 0 && AllHex(s)
  }

  function Digit(n: byte): char
    requires n < 16
  {
    if n < 10 then '0' + n as char else 'a' + (n - 10) as char
  }

  function HexOf(bytes: seq<byte>): string {
    if bytes == [] then "" else [Digit(bytes[0] / 16), Digit(bytes[0] % 16)] + HexOf(bytes[1..])
  }

  function LowerCase(s: string): string {
    if s == "" then "" else [Lower(s[0])] + LowerCase(s[1..])
  }

  function Lower(c: char): char {
    if 'A' <= c <= 'F' then c - 'A' + 'a' else c
  }

  lemma DigitOfNibble(c: char)
    requires IsHexDigit(c)
    ensures Digit(HexNibble(c).value) == Lower(c)
  {
  }

  lemma {:induction false} AsciiLength(s: string)
    requires AllHex(s)
    ensures Utf8Length(s) == |s|
  {
    if s != [] {
      assert IsHexDigit(s[0]);
      AsciiLength(s[1..]);
    }
  }

  lemma {:induction false} PairsAccepted(s: string)
    ensures DecodedPairs(s).Some? <==> AllHex(s[..|s| - |s| % 2])
    ensures DecodedPairs(s).Some? ==> |DecodedPairs(s).value| == |s| / 2
    decreases |s|
  {
    if |s| >= 2 {
      PairsAccepted(s[2..]);
      var t, u := s[..|s| - |s| % 2], s[2..][..|s[2..]| - |s[2..]| % 2];
      assert t == [s[0], s[1]] + u;
      assert AllHex(t) <==> IsHexDigit(s[0]) && IsHexDigit(s[1]) && AllHex(u) by {
        assert forall i :: 0 <= i < |u| ==> t[i + 2] == u[i];
      }
    }
  }

  /**
   Well-formed text, and no other, is accepted, except for texts of an odd number of characters
   and an even number of bytes whose pairs are hexadecimal: their last character is dropped.
   */
  lemma AcceptsHexText(s: string)
    ensures (DecodedHex(s).Some? <==> IsHexText(s)) <==>
            !(|s| % 2 == 1 && Utf8Length(s) % 2 == 0 && AllHex(s[..|s| - 1]))
  {
    PairsAccepted(s);
    if |s| % 2 == 0 {
      assert s[..|s|] == s;
      if AllHex(s) {
        AsciiLength(s);
      }
    }
  }

  /** A text the original accepts although its third character is not hexadecimal. */
  lemma OddTextAccepted()
    ensures DecodedHex("ab\U{E9}") == Some([0xAB]) && !IsHexText("ab\U{E9}")
  {
    var s := "ab\U{E9}";
    assert s[1..][1..][0] == s[2] && s[2..] == [s[2]];
    assert Utf8Length(s[1..][1..]) == 2;
    assert Utf8Length(s) == 4;
    assert DecodedPairs(s[2..]) == Some([]);
    assert [0xAB as byte] + [] == [0xAB];
  }

  lemma NibbleOfDigit(n: byte)
    requires n < 16
    ensures HexNibble(Digit(n)) == Some(n)
  {
  }

  lemma PairStep(h: char, l: char, rest: string)
    requires HexNibble(h).Some? && HexNibble(l).Some?
    ensures DecodedPairs([h, l] + rest) == Extended([HexNibble(h).value * 16 + HexNibble(l).value], DecodedPairs(rest))
  {
    hide HexNibble;
    var s := [h, l] + rest;
    assert s[2..] == rest && s[0] == h && s[1] == l;
  }

  lemma LowerStep(h: char, l: char, rest: string)
    ensures LowerCase([h, l] + rest) == [Lower(h), Lower(l)] + LowerCase(rest)
  {
    hide Lower;
    var s := [h, l] + rest;
    assert s[1..] == [l] + rest && s[1..][1..] == rest;
    assert LowerCase(s) == [Lower(h)] + ([Lower(l)] + LowerCase(rest));
  }

  lemma {:induction false} PairsOfHex(bytes: seq<byte>)
    ensures AllHex(HexOf(bytes)) && |HexOf(bytes)| == 2 * |bytes|
    ensures DecodedPairs(HexOf(bytes)) == Some(bytes)
  {
    if bytes != [] {
      hide HexNibble, Digit, DecodedPairs;
      PairsOfHex(bytes[1..]);
      var h, l := bytes[0] / 16, bytes[0] % 16;
      NibbleOfDigit(h);
      NibbleOfDigit(l);
      PairStep(Digit(h), Digit(l), HexOf(bytes[1..]));
      assert bytes == [bytes[0]] + bytes[1..];
    }
  }

  /** Decoding inverts encoding on all byte strings. */
  lemma HexRoundTrip(bytes: seq<byte>)
    ensures DecodedHex(HexOf(bytes)) == Some(bytes)
  {
    PairsOfHex(bytes);
    AsciiLength(HexOf(bytes));
  }

  lemma HexOfCons(h: byte, l: byte, bytes: seq<byte>)
    requires h < 16 && l < 16
    ensures HexOf([h * 16 + l] + bytes) == [Digit(h), Digit(l)] + HexOf(bytes)
  {
    assert (h * 16 + l) / 16 == h && (h * 16 + l) % 16 == l;
    assert ([h * 16 + l] + bytes)[1..] == bytes;
  }

  lemma {:induction false} LowerPairs(s: string)
    requires IsHexText(s)
    ensures DecodedPairs(s).Some? && HexOf(DecodedPairs(s).value) == LowerCase(s)
    decreases |s|
  {
    if |s| >= 2 {
      assert IsHexDigit(s[0]) && IsHexDigit(s[1]);
      assert forall i :: 0 <= i < |s[2..]| ==> s[2..][i] == s[i + 2];
      LowerPairs(s[2..]);
      DigitOfNibble(s[0]);
      DigitOfNibble(s[1]);
      hide HexNibble, Digit, Lower, DecodedPairs, LowerCase, HexOf;
      assert s == [s[0], s[1]] + s[2..];
      PairStep(s[0], s[1], s[2..]);
      LowerStep(s[0], s[1], s[2..]);
      HexOfCons(HexNibble(s[0]).value, HexNibble(s[1]).value, DecodedPairs(s[2..]).value);
    }
  }

  /** What is decoded from well-formed text encodes to that text in lower case: nothing is lost but case. */
  lemma HexDecodesToText(s: string)
    requires IsHexText(s)
    ensures DecodedHex(s).Some? && HexOf(DecodedHex(s).value) == LowerCase(s)
  {
    AcceptsHexText(s);
    LowerPairs(s);
  }
}
