/**
 The unpadded base64url encoder of src/broker.ts, and the strict decoder of section 5 of RFC 4648
 for the same alphabet, against which it is proved.
 */
module Base64Url {
  import opened Wrappers

  type Byte = bv8

  const UPPER := "ABCDEFGHIJKLMNOPQRSTUVWXYZ"
  const LOWER := "abcdefghijklmnopqrstuvwxyz"
  const REST := "0123456789-_"
  const ALPHABET := UPPER + LOWER + REST

  lemma SixBits(v: Byte)
    requires v < 64
    ensures v as int < 64 && (v as int) as Byte == v
  {
  }

  function Symbol(v: Byte): char
    requires v < 64
  {
    SixBits(v);
    ALPHABET[v as int]
  }

  // The parts of three bytes, six bits each.
  function First(b0: Byte): (v: Byte)
    ensures v < 64
  {
    b0 >> 2
  }

  function Second(b0: Byte, b1: Byte): (v: Byte)
    ensures v < 64
  {
    ((b0 & 3) << 4) | (b1 >> 4)
  }

  function Third(b1: Byte, b2: Byte): (v: Byte)
    ensures v < 64
  {
    ((b1 & 15) << 2) | (b2 >> 6)
  }

  function Fourth(b2: Byte): (v: Byte)
    ensures v < 64
  {
    b2 & 63
  }

  // One group of at most three bytes.
  function EncodeGroup(g: seq<Byte>): string
    requires 0 < |g| <= 3
  {
    var b1 := if |g| > 1 then g[1] else 0;
    var b2 := if |g| > 2 then g[2] else 0;
    [Symbol(First(g[0])), Symbol(Second(g[0], b1))]
    + (if |g| > 1 then [Symbol(Third(b1, b2))] else [])
    + (if |g| > 2 then [Symbol(Fourth(b2))] else [])
  }

  function Encode(bytes: seq<Byte>): string {
    if bytes == [] then ""
    else if |bytes| <= 3 then EncodeGroup(bytes)
    else EncodeGroup(bytes[..3]) + Encode(bytes[3..])
  }

  /** The encoder: three bytes at a time, absent bytes read as zero and their symbols left out. */
  method EncodeBytes(bytes: seq<Byte>) returns (out: string)
    ensures out == Encode(bytes)
  {
    hide Encode, Symbol, First, Second, Third, Fourth;
    out := "";
    var i := 0;
    while i < |bytes|
      invariant 0 <= i
      invariant i <= |bytes| ==> out + Encode(bytes[i..]) == Encode(bytes)
      invariant i > |bytes| ==> out == Encode(bytes)
      decreases |bytes| - i
    {
      var b0 := bytes[i];
      var b1 := if i + 1 < |bytes| then Some(bytes[i + 1]) else None;
      var b2 := if i + 2 < |bytes| then Some(bytes[i + 2]) else None;
      ghost var before, rest := out, bytes[i..];
      out := out + [Symbol(First(b0))];
      out := out + [Symbol(Second(b0, b1.GetOr(0)))];
      if i + 1 < |bytes| {
        out := out + [Symbol(Third(b1.value, b2.GetOr(0)))];
      }
      if i + 2 < |bytes| {
        out := out + [Symbol(Fourth(b2.value))];
      }
      EncodeSlice(rest);
      assert out == before + EncodeGroup(rest[..if |rest| < 3 then |rest| else 3]);
      hide EncodeGroup;
      i := i + 3;
      if i <= |bytes| {
        assert rest[3..] == bytes[i..];
      } else {
        EncodeNothing(rest);
      }
    }
    EncodeNothing(bytes);
  }

  // Nothing is left to encode at the end.
  lemma EncodeNothing(bytes: seq<Byte>)
    ensures Encode(bytes[|bytes|..]) == ""
  {
  }

  lemma EncodeSlice(bytes: seq<Byte>)
    requires bytes != []
    ensures var n := if |bytes| < 3 then |bytes| else 3;
      Encode(bytes) == EncodeGroup(bytes[..n]) + Encode(bytes[n..])
  {
    hide EncodeGroup;
    if |bytes| <= 3 {
      assert bytes[..|bytes|] == bytes;
      assert EncodeGroup(bytes) + "" == EncodeGroup(bytes);
    }
  }

  // ----- the decoder of RFC 4648

  // The value of a symbol, or 64 for any other character.
  function ValueFrom(c: char, v: Byte): (r: Byte)
    requires v <= 64
    ensures r <= 64 && (r < 64 ==> Symbol(r) == c)
    decreases 64 - v
  {
    if v == 64 || Symbol(v) == c then v else ValueFrom(c, v + 1)
  }

  predicate IsSymbol(c: char) {
    ValueFrom(c, 0) < 64
  }

  function SymbolValue(c: char): (v: Byte)
    requires IsSymbol(c)
    ensures v < 64 && Symbol(v) == c
  {
    ValueFrom(c, 0)
  }

  function Quad0(s0: Byte, s1: Byte): Byte {
    (s0 << 2) | (s1 >> 4)
  }

  function Quad1(s1: Byte, s2: Byte): Byte {
    (s1 << 4) | (s2 >> 2)
  }

  function Quad2(s2: Byte, s3: Byte): Byte {
    (s2 << 6) | s3
  }

  // Two to four symbols. The bits that belong to no byte have to be zero.
  function DecodeGroup(s: string): Option<seq<Byte>>
    requires 2 <= |s| <= 4
  {
    if exists i :: 0 <= i < |s| && !IsSymbol(s[i]) then None else
      var v0, v1 := SymbolValue(s[0]), SymbolValue(s[1]);
      if |s| == 2 then
        if v1 & 15 == 0 then Some([Quad0(v0, v1)]) else None
      else
        var v2 := SymbolValue(s[2]);
        if |s| == 3 then
          if v2 & 3 == 0 then Some([Quad0(v0, v1), Quad1(v1, v2)]) else None
        else
          Some([Quad0(v0, v1), Quad1(v1, v2), Quad2(v2, SymbolValue(s[3]))])
  }

  function Decode(s: string): Option<seq<Byte>> {
    if s == "" then Some([])
    else if |s| == 1 then None
    else if |s| <= 4 then DecodeGroup(s)
    else
      var head, tail := DecodeGroup(s[..4]), Decode(s[4..]);
      if head.Some? && tail.Some? then Some(head.value + tail.value) else None
  }

  // ----- symbols and bits

  function Code(k: nat): int {
    if k < 26 then 65 + k else if k < 52 then 71 + k else if k < 62 then k - 4 else if k == 62 then 45 else 95
  }

  lemma UpperCodes(k: nat)
    requires k < 26
    ensures UPPER[k] as int == 65 + k
  {
  }

  lemma LowerCodes(k: nat)
    requires k < 26
    ensures LOWER[k] as int == 97 + k
  {
  }

  lemma RestCodes(k: nat)
    requires k < 12
    ensures REST[k] as int == Code(k + 52)
  {
  }

  lemma Joint(x: string, y: string, z: string, k: nat)
    requires k < |x| + |y| + |z|
    ensures (x + y + z)[k] == if k < |x| then x[k] else if k < |x| + |y| then y[k - |x|] else z[k - |x| - |y|]
  {
  }

  lemma AlphabetCodes(k: nat)
    requires k < 64
    ensures ALPHABET[k] as int == Code(k)
  {
    assert |UPPER| == 26 && |LOWER| == 26 && |REST| == 12;
    Joint(UPPER, LOWER, REST, k);
    if k < 26 {
      UpperCodes(k);
    } else if k < 52 {
      LowerCodes(k - 26);
    } else {
      RestCodes(k - 52);
    }
  }

  lemma SymbolCode(v: Byte)
    requires v < 64
    ensures v as int < 64 && Symbol(v) as int == Code(v as int)
  {
    SixBits(v);
    AlphabetCodes(v as int);
  }

  /** Table 2 of RFC 4648: capitals, small letters, digits, hyphen and underscore stand for 0 to 63. */
  lemma SymbolTable(v: Byte)
    requires v < 64
    ensures var c, n := Symbol(v), v as int;
      && n < 64
      && (n < 26 ==> 'A' <= c <= 'Z' && c as int - 'A' as int == n)
      && (26 <= n < 52 ==> 'a' <= c <= 'z' && c as int - 'a' as int == n - 26)
      && (52 <= n < 62 ==> '0' <= c <= '9' && c as int - '0' as int == n - 52)
      && (n == 62 ==> c == '-') && (n == 63 ==> c == '_')
  {
    hide Symbol;
    SymbolCode(v);
  }

  type Group = bv24

  // Three bytes, and four values of six bits, as one number, the first the highest.
  function OfBytes(b0: Byte, b1: Byte, b2: Byte): Group {
    ((b0 as Group) << 16) | ((b1 as Group) << 8) | (b2 as Group)
  }

  function OfParts(v0: Byte, v1: Byte, v2: Byte, v3: Byte): Group {
    ((v0 as Group) << 18) | ((v1 as Group) << 12) | ((v2 as Group) << 6) | (v3 as Group)
  }

  lemma SameNumber(b0: Byte, b1: Byte, b2: Byte)
    ensures OfParts(First(b0), Second(b0, b1), Third(b1, b2), Fourth(b2)) == OfBytes(b0, b1, b2)
  {
  }

  /** A full group of symbols writes the 24 bits of its bytes from the highest to the lowest. */
  lemma GroupWritesBits(b0: Byte, b1: Byte, b2: Byte)
    ensures var s := EncodeGroup([b0, b1, b2]);
      && |s| == 4 && IsSymbol(s[0]) && IsSymbol(s[1]) && IsSymbol(s[2]) && IsSymbol(s[3])
      && OfParts(SymbolValue(s[0]), SymbolValue(s[1]), SymbolValue(s[2]), SymbolValue(s[3])) == OfBytes(b0, b1, b2)
  {
    hide First, Second, Third, Fourth, Symbol, IsSymbol, SymbolValue, OfParts, OfBytes;
    SameNumber(b0, b1, b2);
    SymbolInverts(First(b0));
    SymbolInverts(Second(b0, b1));
    SymbolInverts(Third(b1, b2));
    SymbolInverts(Fourth(b2));
  }

  // Different values have different symbols.
  lemma SymbolsDiffer(v: Byte, w: Byte)
    requires v < 64 && w < 64 && Symbol(v) == Symbol(w)
    ensures v == w
  {
    hide Symbol;
    SymbolCode(v);
    SymbolCode(w);
    SixBits(v);
    SixBits(w);
  }

  lemma {:induction false} ValueFound(v: Byte, w: Byte)
    requires w <= v < 64
    ensures ValueFrom(Symbol(v), w) < 64
    decreases 64 - w
  {
    hide Symbol;
    if w < v && Symbol(w) != Symbol(v) {
      ValueFound(v, w + 1);
    }
  }

  // Symbols and six-bit values stand for one another.
  lemma SymbolInverts(v: Byte)
    requires v < 64
    ensures IsSymbol(Symbol(v)) && SymbolValue(Symbol(v)) == v
  {
    hide Symbol, ValueFrom;
    ValueFound(v, 0);
    SymbolsDiffer(v, SymbolValue(Symbol(v)));
  }

  lemma BytesFromParts(b0: Byte, b1: Byte, b2: Byte)
    ensures Quad0(First(b0), Second(b0, b1)) == b0
    ensures Quad1(Second(b0, b1), Third(b1, b2)) == b1
    ensures Quad2(Third(b1, b2), Fourth(b2)) == b2
    ensures Second(b0, 0) & 15 == 0 && Third(b1, 0) & 3 == 0
  {
  }

  lemma PartsFromBytes(v0: Byte, v1: Byte, v2: Byte, v3: Byte)
    requires v0 < 64 && v1 < 64 && v2 < 64 && v3 < 64
    ensures First(Quad0(v0, v1)) == v0
    ensures Second(Quad0(v0, v1), Quad1(v1, v2)) == v1
    ensures Third(Quad1(v1, v2), Quad2(v2, v3)) == v2
    ensures Fourth(Quad2(v2, v3)) == v3
    ensures v1 & 15 == 0 ==> Second(Quad0(v0, v1), 0) == v1
    ensures v2 & 3 == 0 ==> Third(Quad1(v1, v2), 0) == v2
  {
  }

  // ----- inverses

  lemma GroupDecodes(g: seq<Byte>)
    requires 0 < |g| <= 3
    ensures |EncodeGroup(g)| == |g| + 1 && DecodeGroup(EncodeGroup(g)) == Some(g)
  {
    hide First, Second, Third, Fourth, Quad0, Quad1, Quad2, Symbol, IsSymbol, SymbolValue;
    var b1 := if |g| > 1 then g[1] else 0;
    var b2 := if |g| > 2 then g[2] else 0;
    BytesFromParts(g[0], b1, b2);
    SymbolInverts(First(g[0]));
    SymbolInverts(Second(g[0], b1));
    SymbolInverts(Third(b1, b2));
    SymbolInverts(Fourth(b2));
    assert forall i :: 0 <= i < |EncodeGroup(g)| ==> IsSymbol(EncodeGroup(g)[i]);
    assert g == if |g| == 1 then [g[0]] else if |g| == 2 then [g[0], b1] else [g[0], b1, b2];
  }

  lemma GroupEncodes(s: string)
    requires 2 <= |s| <= 4 && DecodeGroup(s).Some?
    ensures |DecodeGroup(s).value| == |s| - 1 && EncodeGroup(DecodeGroup(s).value) == s
  {
    hide First, Second, Third, Fourth, Quad0, Quad1, Quad2, Symbol, IsSymbol, SymbolValue;
    var v0, v1 := SymbolValue(s[0]), SymbolValue(s[1]);
    var v2 := if |s| > 2 then SymbolValue(s[2]) else 0;
    var v3 := if |s| > 3 then SymbolValue(s[3]) else 0;
    PartsFromBytes(v0, v1, v2, v3);
  }

  /** Decoding undoes encoding. */
  lemma {:induction false} DecodeEncode(bytes: seq<Byte>)
    ensures Decode(Encode(bytes)) == Some(bytes)
  {
    hide EncodeGroup, DecodeGroup;
    if bytes == [] {
    } else if |bytes| <= 3 {
      GroupDecodes(bytes);
    } else {
      GroupDecodes(bytes[..3]);
      DecodeEncode(bytes[3..]);
      EncodeLength(bytes[3..]);
      var g := EncodeGroup(bytes[..3]);
      assert Encode(bytes)[..4] == g && Encode(bytes)[4..] == Encode(bytes[3..]);
      assert bytes == bytes[..3] + bytes[3..];
    }
  }

  /** Encoding undoes decoding: no two texts stand for the same bytes. */
  lemma {:induction false} EncodeDecode(s: string)
    requires Decode(s).Some?
    ensures Encode(Decode(s).value) == s
  {
    hide EncodeGroup, DecodeGroup;
    if s == "" {
    } else if |s| <= 4 {
      GroupEncodes(s);
    } else {
      var head, tail := DecodeGroup(s[..4]).value, Decode(s[4..]).value;
      GroupEncodes(s[..4]);
      EncodeDecode(s[4..]);
      assert tail != [];
      assert (head + tail)[..3] == head && (head + tail)[3..] == tail;
      assert s == s[..4] + s[4..];
    }
  }

  /** The encoder is the inverse of the standard's decoder. */
  lemma EncodesExactly(s: string, bytes: seq<Byte>)
    ensures Decode(s) == Some(bytes) <==> Encode(bytes) == s
  {
    DecodeEncode(bytes);
    if Decode(s) == Some(bytes) {
      EncodeDecode(s);
    }
  }

  // ----- shape

  /** Four symbols for every three bytes, rounded up; no padding. */
  lemma {:induction false} EncodeLength(bytes: seq<Byte>)
    ensures |Encode(bytes)| == (4 * |bytes| + 2) / 3
  {
    hide Symbol;
    if |bytes| > 3 {
      EncodeLength(bytes[3..]);
    }
  }

  predicate IsUrlSafe(c: char) {
    'A' <= c <= 'Z' || 'a' <= c <= 'z' || '0' <= c <= '9' || c == '-' || c == '_'
  }

  lemma SymbolIsUrlSafe(v: Byte)
    requires v < 64
    ensures IsUrlSafe(Symbol(v))
  {
    hide Symbol;
    SymbolCode(v);
  }

  lemma GroupIsUrlSafe(g: seq<Byte>)
    requires 0 < |g| <= 3
    ensures forall c :: c in EncodeGroup(g) ==> IsUrlSafe(c)
  {
    hide First, Second, Third, Fourth, Symbol, IsUrlSafe;
    forall v: Byte | v < 64
      ensures IsUrlSafe(Symbol(v))
    {
      SymbolIsUrlSafe(v);
    }
  }

  lemma {:induction false} EncodeIsUrlSafe(bytes: seq<Byte>)
    ensures forall c :: c in Encode(bytes) ==> IsUrlSafe(c)
  {
    hide EncodeGroup, IsUrlSafe;
    if bytes == [] {
    } else if |bytes| <= 3 {
      GroupIsUrlSafe(bytes);
    } else {
      GroupIsUrlSafe(bytes[..3]);
      EncodeIsUrlSafe(bytes[3..]);
    }
  }

  // The unreserved characters of section 4.1 of RFC 7636.
  predicate IsUnreserved(c: char) {
    'A' <= c <= 'Z' || 'a' <= c <= 'z' || '0' <= c <= '9' || c in "-._~"
  }

  predicate IsCodeVerifier(s: string) {
    43 <= |s| <= 128 && forall c :: c in s ==> IsUnreserved(c)
  }

  /** Random bytes make a code verifier of RFC 7636 exactly when there are 32 to 96 of them; the broker takes 64. */
  lemma VerifierLengths(bytes: seq<Byte>)
    ensures IsCodeVerifier(Encode(bytes)) <==> 32 <= |bytes| <= 96
    ensures |bytes| == 64 ==> |Encode(bytes)| == 86
  {
    hide Encode;
    EncodeLength(bytes);
    EncodeIsUrlSafe(bytes);
  }
}
