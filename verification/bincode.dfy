/** The part of the bincode 2 `standard()` wire format the tracker uses:
    variable-length little-endian integers, zigzag signed integers, length-prefixed bytes.

    A decoder takes the bytes still unread and answers the value with the number of bytes it
    consumed, or an error. */
module Bincode {
  import opened Common

  datatype DecodeError = UnexpectedEnd | InvalidTag | InvalidVariant

  /** A decoded value and how many bytes it took. */
  datatype Read<+T> = Read(value: T, size: nat)

  type Decoded<+T> = Result<Read<T>, DecodeError>

  const U16_PREFIX: byte := 251
  const U32_PREFIX: byte := 252
  const U64_PREFIX: byte := 253

  /** Integer widths in bytes. */
  datatype Width = U16 | U32 | U64 {
    function Bound(): nat {
      match this
      case U16 => 0x1_0000
      case U32 => 0x1_0000_0000
      case U64 => 0x1_0000_0000_0000_0000
    }

    function Size(): nat {
      match this
      case U16 => 2
      case U32 => 4
      case U64 => 8
    }
  }

  function LittleEndian(v: nat, n: nat): (b: Bytes)
    ensures |b| == n
  {
    if n == 0 then [] else [v % 256] + LittleEndian(v / 256, n - 1)
  }

  function Pow256(n: nat): (p: nat)
    ensures p > 0
  {
    if n == 0 then 1 else 256 * Pow256(n - 1)
  }

  function FromLittleEndian(b: Bytes): (v: nat)
    ensures v < Pow256(|b|)
  {
    if b == [] then 0 else b[0] + 256 * FromLittleEndian(b[1..])
  }

  lemma {:induction false} LittleEndianRoundTrip(v: nat, n: nat)
    requires v < Pow256(n)
    ensures FromLittleEndian(LittleEndian(v, n)) == v
  {
    if n > 0 {
      LittleEndianRoundTrip(v / 256, n - 1);
    }
  }

  lemma WidthBound(w: Width)
    ensures w.Bound() == Pow256(w.Size())
  {
    assert Pow256(2) == 0x1_0000;
    assert Pow256(4) == 256 * (256 * Pow256(2));
    assert Pow256(6) == 256 * (256 * Pow256(4));
    assert Pow256(8) == 256 * (256 * Pow256(6));
  }

  /** Unsigned integers. Every width is written with the shortest form that holds the value. */
  function EncodeVarint(v: nat): (b: Bytes)
    requires v < U64.Bound()
  {
    if v < 251 then [v]
    else if v < U16.Bound() then [U16_PREFIX] + LittleEndian(v, 2)
    else if v < U32.Bound() then [U32_PREFIX] + LittleEndian(v, 4)
    else [U64_PREFIX] + LittleEndian(v, 8)
  }

  /** What the size-counting writer adds up for one unsigned integer. */
  function VarintSize(v: nat): nat {
    if v < 251 then 1
    else if v < U16.Bound() then 3
    else if v < U32.Bound() then 5
    else 9
  }

  function DecodeFixed(b: Bytes, w: Width): (r: Decoded<nat>)
    ensures r.Ok? ==> r.value.value < w.Bound() && r.value.size <= |b|
  {
    if |b| < 1 + w.Size() then Err(UnexpectedEnd)
    else
      WidthBound(w);
      Ok(Read(FromLittleEndian(b[1..1 + w.Size()]), 1 + w.Size()))
  }

  /** Reads an unsigned integer of width `w`; a prefix for a wider integer is refused. */
  function DecodeVarint(b: Bytes, w: Width): (r: Decoded<nat>)
    ensures r.Ok? ==> r.value.value < w.Bound() && r.value.size <= |b|
  {
    if b == [] then Err(UnexpectedEnd)
    else if b[0] < U16_PREFIX then Ok(Read(b[0], 1))
    else if b[0] == U16_PREFIX then DecodeFixed(b, U16)
    else if b[0] == U32_PREFIX && w != U16 then DecodeFixed(b, U32)
    else if b[0] == U64_PREFIX && w == U64 then DecodeFixed(b, U64)
    else Err(InvalidTag)
  }

  lemma FixedRoundTrip(prefix: byte, v: nat, w: Width, rest: Bytes)
    requires v < w.Bound()
    ensures DecodeFixed([prefix] + LittleEndian(v, w.Size()) + rest, w) == Ok(Read(v, 1 + w.Size()))
  {
    var body := LittleEndian(v, w.Size());
    var b := [prefix] + body + rest;
    assert b[1..1 + w.Size()] == body;
    WidthBound(w);
    LittleEndianRoundTrip(v, w.Size());
  }

  lemma VarintRoundTrip(v: nat, w: Width, rest: Bytes)
    requires v < w.Bound()
    ensures DecodeVarint(EncodeVarint(v) + rest, w) == Ok(Read(v, |EncodeVarint(v)|))
    ensures |EncodeVarint(v)| == VarintSize(v)
  {
    if 251 <= v {
      var fit := if v < U16.Bound() then U16 else if v < U32.Bound() then U32 else U64;
      FixedRoundTrip(EncodeVarint(v)[0], v, fit, rest);
    }
  }

  /** Signed 32-bit integers (`RawFd`). */
  type i32 = n: int | -0x8000_0000 <= n < 0x8000_0000

  function ZigZag(n: i32): (u: nat)
    ensures u < U32.Bound()
  {
    if n >= 0 then 2 * n else -2 * n - 1
  }

  function UnZigZag(u: nat): (n: i32)
    requires u < U32.Bound()
  {
    if u % 2 == 0 then u / 2 else -(u / 2) - 1
  }

  function EncodeI32(n: i32): Bytes {
    EncodeVarint(ZigZag(n))
  }

  function DecodeI32(b: Bytes): (r: Decoded<i32>)
    ensures r.Ok? ==> r.value.size <= |b|
  {
    match DecodeVarint(b, U32)
    case Err(e) => Err(e)
    case Ok(r) => Ok(Read(UnZigZag(r.value), r.size))
  }

  lemma I32RoundTrip(n: i32, rest: Bytes)
    ensures DecodeI32(EncodeI32(n) + rest) == Ok(Read(n, |EncodeI32(n)|))
  {
    VarintRoundTrip(ZigZag(n), U32, rest);
    assert UnZigZag(ZigZag(n)) == n;
  }

  /** `&[u8]` and `Arc<[u8]>`: a length, then the raw bytes. */
  function EncodeSlice(s: Slice): Bytes {
    EncodeVarint(|s|) + s
  }

  function DecodeSlice(b: Bytes): (r: Decoded<Slice>)
    ensures r.Ok? ==> r.value.size <= |b|
  {
    match DecodeVarint(b, U64)
    case Err(e) => Err(e)
    case Ok(r) =>
      if |b| < r.size + r.value || r.value > ISIZE_MAX then Err(UnexpectedEnd)
      else Ok(Read(b[r.size..r.size + r.value], r.size + r.value))
  }

  lemma SliceRoundTrip(s: Slice, rest: Bytes)
    ensures DecodeSlice(EncodeSlice(s) + rest) == Ok(Read(s, |EncodeSlice(s)|))
  {
    var head := EncodeVarint(|s|);
    VarintRoundTrip(|s|, U64, s + rest);
    assert EncodeSlice(s) + rest == head + (s + rest);
    assert (head + (s + rest))[|head|..|head| + |s|] == s;
  }

  /** The bytes of the standard configuration: small numbers in one byte, larger ones behind 251, 252 or 253
      with the least significant byte first. */
  lemma VarintBytes(v: nat)
    requires v < 0x1_0000_0000_0000_0000
    ensures v < 251 ==> EncodeVarint(v) == [v]
    ensures 251 <= v < 0x1_0000 ==> EncodeVarint(v) == [251, v % 256, v / 256]
    ensures 0x1_0000 <= v < 0x1_0000_0000 ==>
      EncodeVarint(v) == [252, v % 256, v / 256 % 256, v / 65536 % 256, v / 16777216]
    ensures 0x1_0000_0000 <= v ==>
      && |EncodeVarint(v)| == 9 && EncodeVarint(v)[0] == 253
      && forall k :: 0 <= k < 8 ==> EncodeVarint(v)[1 + k] == v / Pow256(k) % 256
  {
    LittleEndianTwo(v);
    LittleEndianFour(v);
    forall k | 0 <= k < 8
      ensures LittleEndian(v, 8)[k] == v / Pow256(k) % 256
    {
      LittleEndianAt(v, 8, k);
    }
  }

  lemma LittleEndianTwo(v: nat)
    ensures v < 0x1_0000 ==> LittleEndian(v, 2) == [v % 256, v / 256]
  {
    assert LittleEndian(v / 256, 1) == [v / 256 % 256] + LittleEndian(v / 256 / 256, 0);
  }

  lemma LittleEndianFour(v: nat)
    ensures v < 0x1_0000_0000 ==>
      LittleEndian(v, 4) == [v % 256, v / 256 % 256, v / 65536 % 256, v / 16777216]
  {
    var a, b, c := v / 256, v / 65536, v / 16777216;
    assert a / 256 == b && b / 256 == c;
    assert LittleEndian(c, 1) == [c % 256] + LittleEndian(c / 256, 0);
    assert LittleEndian(b, 2) == [b % 256] + LittleEndian(c, 1);
    assert LittleEndian(a, 3) == [a % 256] + LittleEndian(b, 2);
  }

  lemma {:induction false} LittleEndianAt(v: nat, n: nat, k: nat)
    requires k < n
    ensures LittleEndian(v, n)[k] == v / Pow256(k) % 256
  {
    if k > 0 {
      LittleEndianAt(v / 256, n - 1, k - 1);
      DivideTwice(v, Pow256(k - 1));
    }
  }

  lemma DivideTwice(v: nat, p: nat)
    requires p > 0
    ensures v / 256 / p == v / (256 * p)
  {
    var q, r := v / 256 / p, v / 256 % p;
    assert v / 256 == q * p + r;
    assert v == q * (256 * p) + (256 * r + v % 256);
    assert 0 <= 256 * r + v % 256 < 256 * p;
    QuotientIs(v, 256 * p, q, 256 * r + v % 256);
  }

  lemma QuotientIs(v: nat, d: nat, q: nat, r: nat)
    requires v == q * d + r && r < d
    ensures v / d == q
  {
    ProductBound(v / d - q, d);
    assert v == (v / d) * d + v % d;
    assert (v / d - q) * d == (v / d) * d - q * d;
  }

  lemma ProductBound(e: int, d: nat)
    ensures e >= 1 ==> e * d >= d
    ensures e <= -1 ==> e * d <= -1 * d
  {
  }

  /** Signed numbers: 0, -1, 1, -2, 2 and so on become 0, 1, 2, 3, 4 and so on. */
  lemma SignedBytes(n: i32)
    ensures EncodeI32(n) == EncodeVarint(if n >= 0 then 2 * n else -2 * n - 1)
    ensures EncodeI32(-1) == [1] && EncodeI32(1) == [2] && EncodeI32(-2) == [3]
  {
  }
}
