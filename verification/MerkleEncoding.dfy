/**
 The canonical field encoding of launcher/src/merkle_verify.rs: a kind byte, then the value,
 with little-endian integers and length-prefixed bodies.
 */
module MerkleEncoding {
  import opened Wrappers
  import Decimal

  type byte = x: int | 0 <= x < 256
  type u64 = x: int | 0 <= x < 0x1_0000_0000_0000_0000
  type Digest = d: seq<byte> | |d| == 32 witness seq(32, _ => 0)

  const U32_VALUES := 0x1_0000_0000

  datatype Field =
    | Hash(hash: Digest)
    | U64(u64: u64)
    | Text(utf8: seq<byte>)
    | Bytes(body: seq<byte>)
    | Null
    | U8(u8: byte)
    | Bool(flag: bool)

  // Kind bytes.
  const HASH: byte := 0x01
  const U_64: byte := 0x02
  const STRING: byte := 0x03
  const BYTES: byte := 0x04
  const NULL: byte := 0x05
  const U_8: byte := 0x06
  const BOOL: byte := 0x07

  // ----- little-endian integers

  function Pow256(k: nat): (p: nat)
    ensures p > 0
  {
    if k == 0 then 1 else 256 * Pow256(k - 1)
  }

  // The k low bytes of n, least significant first; higher bytes are cut off.
  function LeBytes(n: nat, k: nat): (bytes: seq<byte>)
    ensures |bytes| == k
    decreases k
  {
    if k == 0 then [] else [n % 256] + LeBytes(n / 256, k - 1)
  }

  function FromLe(bytes: seq<byte>): nat {
    if bytes == [] then 0 else bytes[0] + 256 * FromLe(bytes[1..])
  }

  lemma {:induction false} FromLeBound(bytes: seq<byte>)
    ensures FromLe(bytes) < Pow256(|bytes|)
  {
    if bytes != [] {
      FromLeBound(bytes[1..]);
    }
  }

  lemma {:induction false} LeRoundTrip(n: nat, k: nat)
    requires n < Pow256(k)
    ensures FromLe(LeBytes(n, k)) == n
    decreases k
  {
    if k > 0 {
      assert n / 256 < Pow256(k - 1);
      LeRoundTrip(n / 256, k - 1);
      assert LeBytes(n, k)[1..] == LeBytes(n / 256, k - 1);
    }
  }

  lemma PowersOf256()
    ensures Pow256(4) == U32_VALUES && Pow256(8) == 0x1_0000_0000_0000_0000
  {
    assert Pow256(2) == 0x1_0000;
    assert Pow256(4) == 256 * (256 * Pow256(2));
    assert Pow256(6) == 256 * (256 * Pow256(4));
    assert Pow256(8) == 256 * (256 * Pow256(6));
  }

  // A length cast to 32 bits and written as four bytes: the cast cuts off what does not fit.
  function U32Le(n: nat): (bytes: seq<byte>) {
    LeBytes(n % U32_VALUES, 4)
  }

  // ----- encoding

  function EncodedField(f: Field): seq<byte> {
    match f
    case Hash(hash) => [HASH] + hash
    case U64(value) => [U_64] + LeBytes(value, 8)
    case Text(utf8) => [STRING] + U32Le(|utf8|) + utf8
    case Bytes(body) => [BYTES] + U32Le(|body|) + body
    case Null => [NULL]
    case U8(value) => [U_8, value]
    case Bool(flag) => [BOOL, if flag then 1 else 0]
  }

  // Byte i of a number, the lowest being byte 0.
  function ByteOf(n: nat, i: nat): byte {
    n / Pow256(i) % 256
  }

  // The bytes are the low bytes of a number, lowest first.
  predicate AreLowBytes(x: seq<byte>, n: nat) {
    forall i :: 0 <= i < |x| ==> x[i] == ByteOf(n, i)
  }

  // The bytes of a field, one by one; a length is cut to its four low bytes.
  predicate IsFieldBytes(x: seq<byte>, f: Field) {
    match f
    case Hash(hash) => x == [1] + hash
    case U64(value) => |x| == 9 && x[0] == 2 && AreLowBytes(x[1..], value)
    case Text(utf8) => |x| == 5 + |utf8| && x[0] == 3 && AreLowBytes(x[1..5], |utf8|) && x[5..] == utf8
    case Bytes(body) => |x| == 5 + |body| && x[0] == 4 && AreLowBytes(x[1..5], |body|) && x[5..] == body
    case Null => x == [5]
    case U8(value) => x == [6, value]
    case Bool(flag) => x == [7, if flag then 1 else 0]
  }

  lemma StepDown(n: nat, p: nat)
    requires p > 0
    ensures n / 256 / p == n / (256 * p)
    ensures n % (256 * p) % 256 == n % 256 && n % (256 * p) / 256 == n / 256 % p
  {
    var q, r := n / 256 / p, n / 256 % p;
    assert n / 256 == p * q + r;
    assert n == (256 * p) * q + (256 * r + n % 256);
    Decimal.DivModUnique(n, 256 * p, q, 256 * r + n % 256);
  }

  lemma {:induction false} LeByte(n: nat, k: nat, i: nat)
    requires i < k
    ensures LeBytes(n, k)[i] == ByteOf(n, i)
    decreases k
  {
    if i > 0 {
      LeByte(n / 256, k - 1, i - 1);
      StepDown(n, Pow256(i - 1));
    }
  }

  // Cutting a number first makes no difference to its low bytes.
  lemma {:induction false} LeCut(n: nat, k: nat)
    ensures LeBytes(n % Pow256(k), k) == LeBytes(n, k)
    decreases k
  {
    if k > 0 {
      StepDown(n, Pow256(k - 1));
      LeCut(n / 256, k - 1);
    }
  }

  lemma LowBytes(x: seq<byte>, n: nat)
    ensures x == LeBytes(n, |x|) <==> AreLowBytes(x, n)
  {
    forall i | 0 <= i < |x|
      ensures LeBytes(n, |x|)[i] == ByteOf(n, i)
    {
      LeByte(n, |x|, i);
    }
    hide LeBytes, ByteOf;
  }

  lemma PrefixBytes(n: nat)
    ensures U32Le(n) == LeBytes(n, 4)
  {
    PowersOf256();
    LeCut(n, 4);
    hide LeBytes;
  }

  /** An encoded field is exactly its kind byte and its value, byte by byte. */
  lemma FieldBytesAre(f: Field, x: seq<byte>)
    ensures x == EncodedField(f) <==> IsFieldBytes(x, f)
  {
    hide LeBytes, U32Le, AreLowBytes;
    match f {
      case U64(value) =>
        if |x| == 9 {
          LowBytes(x[1..], value);
          assert x == [x[0]] + x[1..];
        }
      case Text(utf8) => BodyBytes(3, utf8, x);
      case Bytes(body) => BodyBytes(4, body, x);
      case _ =>
    }
  }

  lemma BodyBytes(kind: byte, body: seq<byte>, x: seq<byte>)
    ensures x == [kind] + U32Le(|body|) + body <==>
      |x| == 5 + |body| && x[0] == kind && AreLowBytes(x[1..5], |body|) && x[5..] == body
  {
    PrefixBytes(|body|);
    hide LeBytes, U32Le, AreLowBytes;
    var y := [kind] + U32Le(|body|) + body;
    assert y[1..5] == U32Le(|body|) && y[5..] == body;
    if |x| == 5 + |body| {
      LowBytes(x[1..5], |body|);
      assert x == [x[0]] + x[1..5] + x[5..];
    }
  }

  function EncodedFields(fields: seq<Field>): seq<byte> {
    if fields == [] then [] else EncodedField(fields[0]) + EncodedFields(fields[1..])
  }

  lemma {:induction false} EncodedConcat(x: seq<Field>, y: seq<Field>)
    ensures EncodedFields(x + y) == EncodedFields(x) + EncodedFields(y)
  {
    if x == [] {
      assert x + y == y;
    } else {
      assert (x + y)[1..] == x[1..] + y;
      EncodedConcat(x[1..], y);
    }
  }

  /** Appends one field to the buffer, byte group by byte group. */
  method EncodeField(field: Field, buffer: seq<byte>) returns (out: seq<byte>)
    ensures out == buffer + EncodedField(field)
    ensures IsFieldBytes(out[|buffer|..], field)
  {
    FieldBytesAre(field, EncodedField(field));
    hide LeBytes, U32Le, IsFieldBytes;
    out := buffer;
    match field {
      case Hash(value) =>
        out := out + [HASH];
        out := out + value;
      case U64(value) =>
        out := out + [U_64];
        out := out + LeBytes(value, 8);
      case Text(body) =>
        out := out + [STRING];
        out := out + U32Le(|body|);
        out := out + body;
      case Bytes(body) =>
        out := out + [BYTES];
        out := out + U32Le(|body|);
        out := out + body;
      case Null =>
        out := out + [NULL];
      case U8(value) =>
        out := out + [U_8];
        out := out + [value];
      case Bool(value) =>
        out := out + [BOOL];
        out := out + [if value then 1 else 0];
    }
    assert out == buffer + EncodedField(field) && out[|buffer|..] == EncodedField(field);
  }

  lemma EncodedSnoc(x: seq<Field>, f: Field)
    ensures EncodedFields(x + [f]) == EncodedFields(x) + EncodedField(f)
  {
    EncodedConcat(x, [f]);
    assert [f][1..] == [] && EncodedFields([f]) == EncodedField(f);
  }

  method EncodeFields(fields: seq<Field>) returns (out: seq<byte>)
    ensures out == EncodedFields(fields)
  {
    hide EncodedField;
    out := [];
    assert fields[..0] == [];
    for i := 0 to |fields|
      invariant out == EncodedFields(fields[..i])
    {
      assert fields[..i + 1] == fields[..i] + [fields[i]];
      EncodedSnoc(fields[..i], fields[i]);
      out := EncodeField(fields[i], out);
    }
    assert fields[..|fields|] == fields;
  }

  // ----- decoding: the reference the encoding is measured against

  // The body announced by a four-byte length, and what follows it.
  function TakeBody(bytes: seq<byte>): Option<(seq<byte>, seq<byte>)> {
    if |bytes| < 4 then None else
      var n := FromLe(bytes[..4]);
      if |bytes| - 4 < n then None else Some((bytes[4..4 + n], bytes[4 + n..]))
  }

  // The field of the given kind that the bytes begin with, and what follows it.
  function DecodeValue(kind: byte, rest: seq<byte>): Option<(Field, seq<byte>)> {
    if kind == HASH then
      if |rest| < 32 then None else Some((Hash(rest[..32]), rest[32..]))
    else if kind == U_64 then
      if |rest| < 8 then None else
        FromLeBound(rest[..8]);
        PowersOf256();
        Some((U64(FromLe(rest[..8])), rest[8..]))
    else if kind == STRING then
      match TakeBody(rest) case None => None case Some((body, after)) => Some((Text(body), after))
    else if kind == BYTES then
      match TakeBody(rest) case None => None case Some((body, after)) => Some((Bytes(body), after))
    else if kind == NULL then Some((Null, rest))
    else if kind == U_8 then
      if rest == [] then None else Some((U8(rest[0]), rest[1..]))
    else if kind == BOOL then
      if rest == [] || rest[0] > 1 then None else Some((Bool(rest[0] == 1), rest[1..]))
    else None
  }

  function DecodeField(bytes: seq<byte>): Option<(Field, seq<byte>)> {
    if bytes == [] then None else DecodeValue(bytes[0], bytes[1..])
  }

  function DecodeFields(bytes: seq<byte>): Option<seq<Field>>
    decreases |bytes|
  {
    if bytes == [] then Some([]) else
      match DecodeField(bytes)
      case None => None
      case Some((f, rest)) =>
        if |rest| >= |bytes| then None else
          match DecodeFields(rest) case None => None case Some(fs) => Some([f] + fs)
  }

  // The length prefix can hold the length of the body.
  predicate Short(f: Field) {
    match f
    case Text(utf8) => |utf8| < U32_VALUES
    case Bytes(body) => |body| < U32_VALUES
    case _ => true
  }

  predicate AllShort(fields: seq<Field>) {
    forall f :: f in fields ==> Short(f)
  }

  lemma U32RoundTrip(n: nat)
    requires n < U32_VALUES
    ensures |U32Le(n)| == 4 && FromLe(U32Le(n)) == n
  {
    hide LeBytes, FromLe, Pow256;
    PowersOf256();
    LeRoundTrip(n, 4);
  }

  lemma TakeEncodedBody(body: seq<byte>, rest: seq<byte>)
    requires |body| < U32_VALUES
    ensures TakeBody(U32Le(|body|) + body + rest) == Some((body, rest))
  {
    hide U32Le, FromLe;
    U32RoundTrip(|body|);
    var bytes := U32Le(|body|) + body + rest;
    assert bytes[..4] == U32Le(|body|);
    assert bytes[4..4 + |body|] == body && bytes[4 + |body|..] == rest;
  }

  lemma U64RoundTrip(value: u64)
    ensures FromLe(LeBytes(value, 8)) == value
  {
    hide LeBytes, FromLe, Pow256;
    PowersOf256();
    LeRoundTrip(value, 8);
  }

  // What follows the kind byte of a field.
  function Value(f: Field): seq<byte> {
    EncodedField(f)[1..]
  }

  lemma AfterKind(f: Field, rest: seq<byte>)
    ensures (EncodedField(f) + rest)[0] == EncodedField(f)[0]
    ensures (EncodedField(f) + rest)[1..] == Value(f) + rest
  {
  }

  lemma PrefixOf(x: seq<byte>, rest: seq<byte>)
    ensures (x + rest)[..|x|] == x && (x + rest)[|x|..] == rest
  {
  }

  lemma HashDecodes(hash: Digest, rest: seq<byte>)
    ensures DecodeField(EncodedField(Hash(hash)) + rest) == Some((Hash(hash), rest))
  {
    AfterKind(Hash(hash), rest);
    PrefixOf(hash, rest);
    assert Value(Hash(hash)) == hash;
  }

  lemma U64Decodes(value: u64, rest: seq<byte>)
    ensures DecodeField(EncodedField(U64(value)) + rest) == Some((U64(value), rest))
  {
    U64RoundTrip(value);
    hide LeBytes, FromLe;
    AfterKind(U64(value), rest);
    PrefixOf(LeBytes(value, 8), rest);
    assert Value(U64(value)) == LeBytes(value, 8);
  }

  lemma TextDecodes(body: seq<byte>, rest: seq<byte>)
    requires |body| < U32_VALUES
    ensures DecodeField(EncodedField(Text(body)) + rest) == Some((Text(body), rest))
  {
    hide TakeBody, U32Le;
    TakeEncodedBody(body, rest);
    AfterKind(Text(body), rest);
    assert Value(Text(body)) == U32Le(|body|) + body;
  }

  lemma BytesDecode(body: seq<byte>, rest: seq<byte>)
    requires |body| < U32_VALUES
    ensures DecodeField(EncodedField(Bytes(body)) + rest) == Some((Bytes(body), rest))
  {
    hide TakeBody, U32Le;
    TakeEncodedBody(body, rest);
    AfterKind(Bytes(body), rest);
    assert Value(Bytes(body)) == U32Le(|body|) + body;
  }

  lemma ByteDecodes(f: Field, rest: seq<byte>)
    requires f.Null? || f.U8? || f.Bool?
    ensures DecodeField(EncodedField(f) + rest) == Some((f, rest))
  {
    hide TakeBody, LeBytes, U32Le;
    AfterKind(f, rest);
    PrefixOf(Value(f), rest);
    assert Value(f) == if f.Null? then [] else if f.U8? then [f.u8] else [if f.flag then 1 else 0];
  }

  lemma DecodeEncodedField(f: Field, rest: seq<byte>)
    requires Short(f)
    ensures DecodeField(EncodedField(f) + rest) == Some((f, rest))
  {
    hide EncodedField, DecodeField;
    match f
    case Hash(hash) => HashDecodes(hash, rest);
    case U64(value) => U64Decodes(value, rest);
    case Text(body) => TextDecodes(body, rest);
    case Bytes(body) => BytesDecode(body, rest);
    case _ => ByteDecodes(f, rest);
  }

  lemma FieldNotEmpty(f: Field)
    ensures EncodedField(f) != []
  {
  }

  lemma {:induction false} DecodeEncodedFields(fields: seq<Field>)
    requires AllShort(fields)
    ensures DecodeFields(EncodedFields(fields)) == Some(fields)
  {
    if fields != [] {
      hide EncodedField, DecodeField;
      assert fields[0] in fields;
      FieldNotEmpty(fields[0]);
      DecodeEncodedField(fields[0], EncodedFields(fields[1..]));
      DecodeEncodedFields(fields[1..]);
      assert fields == [fields[0]] + fields[1..];
    }
  }

  lemma {:induction false} DecodedAreShort(bytes: seq<byte>)
    ensures DecodeFields(bytes).Some? ==> AllShort(DecodeFields(bytes).value)
    decreases |bytes|
  {
    if DecodeFields(bytes).Some? && bytes != [] {
      var (f, rest) := DecodeField(bytes).value;
      if (f.Text? || f.Bytes?) && |bytes[1..]| >= 4 {
        FromLeBound(bytes[1..][..4]);
        PowersOf256();
      }
      DecodedAreShort(rest);
    }
  }

  /** A field list can be read back from its encoding exactly when every body fits its length prefix. */
  lemma EncodingDecodes(fields: seq<Field>)
    ensures DecodeFields(EncodedFields(fields)) == Some(fields) <==> AllShort(fields)
  {
    if AllShort(fields) {
      DecodeEncodedFields(fields);
    }
    DecodedAreShort(EncodedFields(fields));
  }

  /** Field lists of any lengths with the same encoding are the same, when their bodies fit. */
  lemma EncodingIsInjective(x: seq<Field>, y: seq<Field>)
    requires AllShort(x) && AllShort(y) && EncodedFields(x) == EncodedFields(y)
    ensures x == y
  {
    EncodingDecodes(x);
    EncodingDecodes(y);
  }

  lemma {:induction false} EncodedNulls(n: nat)
    ensures EncodedFields(seq(n, _ => Null)) == seq(n, _ => NULL)
  {
    if n > 0 {
      assert seq(n, _ => Null)[1..] == seq(n - 1, _ => Null);
      EncodedNulls(n - 1);
    }
  }

  /** The bound is needed: 2^32 null bytes as one body read like an empty body and 2^32 nulls. */
  lemma LongBodiesCollide()
    ensures var long := [Bytes(seq(U32_VALUES, _ => NULL))];
            var many := [Bytes([])] + seq(U32_VALUES, _ => Null);
            long != many && EncodedFields(long) == EncodedFields(many)
  {
    var nulls: seq<byte> := seq(U32_VALUES, _ => NULL);
    var many := [Bytes([])] + seq(U32_VALUES, _ => Null);
    EncodedNulls(U32_VALUES);
    assert many[1..] == seq(U32_VALUES, _ => Null);
    assert EncodedFields([Bytes(nulls)]) == [BYTES] + U32Le(0) + nulls;
    assert EncodedField(Bytes([])) == [BYTES] + U32Le(0);
  }
}
