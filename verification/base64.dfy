/** Unpadded base64 with the standard alphabet, as sections 3.2 and 4 of RFC 4648 describe it, and
    with the strictness of the engine the payload uses: no padding accepted, no other byte accepted,
    unused trailing bits must be zero. */
module Base64 {
  import opened Common

  type sextet = n: nat | n < 64

  function Symbol(n: sextet): byte {
    if n < 26 then 65 + n
    else if n < 52 then 97 + (n - 26)
    else if n < 62 then 48 + (n - 52)
    else if n == 62 then 43
    else 47
  }

  function Index(c: byte): Option<sextet> {
    if 65 <= c < 91 then Some(c - 65)
    else if 97 <= c < 123 then Some(c - 97 + 26)
    else if 48 <= c < 58 then Some(c - 48 + 52)
    else if c == 43 then Some(62)
    else if c == 47 then Some(63)
    else None
  }

  predicate IsSymbol(c: byte) {
    Index(c).Some?
  }

  lemma SymbolIndex(n: sextet)
    ensures Index(Symbol(n)) == Some(n)
  {
  }

  lemma IndexSymbol(c: byte)
    requires Index(c).Some?
    ensures Symbol(Index(c).value) == c
  {
  }

  // A group of three bytes is four sextets. A missing byte counts as zero.

  function Sextet0(b0: byte): sextet { b0 / 4 }
  function Sextet1(b0: byte, b1: byte): sextet { b0 % 4 * 16 + b1 / 16 }
  function Sextet2(b1: byte, b2: byte): sextet { b1 % 16 * 4 + b2 / 64 }
  function Sextet3(b2: byte): sextet { b2 % 64 }

  function Byte0(i0: sextet, i1: sextet): byte { i0 * 4 + i1 / 16 }
  function Byte1(i1: sextet, i2: sextet): byte { i1 % 16 * 16 + i2 / 4 }
  function Byte2(i2: sextet, i3: sextet): byte { i2 % 4 * 64 + i3 }

  /** The trailing bits a short group leaves unused. */
  predicate Unused1(i1: sextet) { i1 % 16 == 0 }
  predicate Unused2(i2: sextet) { i2 % 4 == 0 }

  function Encode(b: Bytes): Bytes {
    if b == [] then []
    else if |b| == 1 then [Symbol(Sextet0(b[0])), Symbol(Sextet1(b[0], 0))]
    else if |b| == 2 then [Symbol(Sextet0(b[0])), Symbol(Sextet1(b[0], b[1])), Symbol(Sextet2(b[1], 0))]
    else
      [Symbol(Sextet0(b[0])), Symbol(Sextet1(b[0], b[1])), Symbol(Sextet2(b[1], b[2])), Symbol(Sextet3(b[2]))]
      + Encode(b[3..])
  }

  datatype DecodeError = InvalidByte | InvalidLength | InvalidLastSymbol

  function Decode(s: Bytes): Result<Bytes, DecodeError> {
    if s == [] then Ok([])
    else if |s| == 1 then Err(InvalidLength)
    else if |s| <= 3 then DecodeTail(s)
    else
      match (Index(s[0]), Index(s[1]), Index(s[2]), Index(s[3]))
      case (Some(i0), Some(i1), Some(i2), Some(i3)) =>
        (match Decode(s[4..])
         case Err(e) => Err(e)
         case Ok(rest) => Ok([Byte0(i0, i1), Byte1(i1, i2), Byte2(i2, i3)] + rest))
      case _ => Err(InvalidByte)
  }

  /** The last, short group: its unused bits must be zero. */
  function DecodeTail(s: Bytes): Result<Bytes, DecodeError>
    requires 2 <= |s| <= 3
  {
    match (Index(s[0]), Index(s[1]), Index(s[|s| - 1]))
    case (Some(i0), Some(i1), Some(last)) =>
      if |s| == 2 then if Unused1(i1) then Ok([Byte0(i0, i1)]) else Err(InvalidLastSymbol)
      else if Unused2(last) then Ok([Byte0(i0, i1), Byte1(i1, last)])
      else Err(InvalidLastSymbol)
    case _ => Err(InvalidByte)
  }

  lemma BytesToSextets(b0: byte, b1: byte, b2: byte)
    ensures Byte0(Sextet0(b0), Sextet1(b0, b1)) == b0
    ensures Byte1(Sextet1(b0, b1), Sextet2(b1, b2)) == b1
    ensures Byte2(Sextet2(b1, b2), Sextet3(b2)) == b2
    ensures Unused1(Sextet1(b0, 0)) && Unused2(Sextet2(b1, 0))
  {
  }

  lemma SextetsToBytes(i0: sextet, i1: sextet, i2: sextet, i3: sextet)
    ensures var b0, b1, b2 := Byte0(i0, i1), Byte1(i1, i2), Byte2(i2, i3);
      && Sextet0(b0) == i0 && Sextet1(b0, b1) == i1 && Sextet2(b1, b2) == i2 && Sextet3(b2) == i3
      && (Unused1(i1) ==> Sextet1(b0, 0) == i1)
      && (Unused2(i2) ==> Sextet2(b1, 0) == i2)
  {
  }

  lemma SymbolsOf(b0: byte, b1: byte, b2: byte)
    ensures Index(Symbol(Sextet0(b0))) == Some(Sextet0(b0))
    ensures Index(Symbol(Sextet1(b0, b1))) == Some(Sextet1(b0, b1))
    ensures Index(Symbol(Sextet2(b1, b2))) == Some(Sextet2(b1, b2))
    ensures Index(Symbol(Sextet3(b2))) == Some(Sextet3(b2))
  {
    SymbolIndex(Sextet0(b0));
    SymbolIndex(Sextet1(b0, b1));
    SymbolIndex(Sextet2(b1, b2));
    SymbolIndex(Sextet3(b2));
  }

  /** Decoding undoes encoding, for every byte string. */
  lemma {:induction false} DecodeEncode(b: Bytes)
    ensures Decode(Encode(b)) == Ok(b)
  {
    hide Symbol, Index, Sextet0, Sextet1, Sextet2, Sextet3, Byte0, Byte1, Byte2, Unused1, Unused2;
    if b != [] {
      var b0, b1, b2 := b[0], if |b| > 1 then b[1] else 0, if |b| > 2 then b[2] else 0;
      BytesToSextets(b0, b1, b2);
      SymbolsOf(b0, b1, b2);
      if |b| > 2 {
        DecodeEncode(b[3..]);
        assert Encode(b)[4..] == Encode(b[3..]);
        assert b == [b0, b1, b2] + b[3..];
      } else {
        assert b == if |b| == 1 then [b0] else [b0, b1];
      }
    }
  }

  /** The text form is unique: whatever decodes is the encoding of what it decodes to. */
  lemma {:induction false} EncodeDecode(s: Bytes)
    requires Decode(s).Ok?
    ensures Encode(Decode(s).value) == s
  {
    hide Symbol, Index, Sextet0, Sextet1, Sextet2, Sextet3, Byte0, Byte1, Byte2, Unused1, Unused2;
    if s != [] {
      IndexSymbol(s[0]);
      IndexSymbol(s[1]);
      var i0, i1 := Index(s[0]).value, Index(s[1]).value;
      if |s| == 2 {
        SextetsToBytes(i0, i1, 0, 0);
        assert s == [s[0], s[1]];
      } else {
        IndexSymbol(s[2]);
        var i2 := Index(s[2]).value;
        if |s| == 3 {
          SextetsToBytes(i0, i1, i2, 0);
          assert s == [s[0], s[1], s[2]];
        } else {
          IndexSymbol(s[3]);
          SextetsToBytes(i0, i1, i2, Index(s[3]).value);
          EncodeDecode(s[4..]);
          assert Decode(s).value[3..] == Decode(s[4..]).value;
          assert s == [s[0], s[1], s[2], s[3]] + s[4..];
        }
      }
    }
  }

  /** The text is made of alphabet symbols only, so it has no NUL, no `=` and no `:`. */
  lemma {:induction false} EncodeIsText(b: Bytes)
    ensures forall i :: 0 <= i < |Encode(b)| ==> IsSymbol(Encode(b)[i])
  {
    if |b| > 2 {
      EncodeIsText(b[3..]);
    }
  }

  lemma SymbolsArePlain(c: byte)
    requires IsSymbol(c)
    ensures c != 0 && c != 61 && c != 58
  {
  }

  /** The alphabet of table 1 of RFC 4648. */
  lemma Alphabet(n: sextet)
    ensures n < 26 ==> Symbol(n) == 'A' as int + n
    ensures 26 <= n < 52 ==> Symbol(n) == 'a' as int + (n - 26)
    ensures 52 <= n < 62 ==> Symbol(n) == '0' as int + (n - 52)
    ensures Symbol(62) == '+' as int && Symbol(63) == '/' as int
  {
  }

  /** The text: four symbols for three bytes, two for a last one, three for a last two, most significant bits
      first. */
  lemma TextBytes(x: byte, y: byte, z: byte, rest: Bytes)
    ensures Encode([x, y, z] + rest)
         == [Symbol(x / 4), Symbol(x % 4 * 16 + y / 16), Symbol(y % 16 * 4 + z / 64), Symbol(z % 64)] + Encode(rest)
    ensures Encode([x, y]) == [Symbol(x / 4), Symbol(x % 4 * 16 + y / 16), Symbol(y % 16 * 4)]
    ensures Encode([x]) == [Symbol(x / 4), Symbol(x % 4 * 16)]
    ensures Encode([]) == []
  {
    hide Symbol;
    assert ([x, y, z] + rest)[3..] == rest;
  }

  /** The text of `Man` is `TWFu`, that of the bytes 251 and 255 is `+/8`. */
  lemma FixedTexts()
    ensures Encode([77, 97, 110]) == [84, 87, 70, 117]
    ensures Encode([251, 255]) == [43, 47, 56]
  {
    TextBytes(77, 97, 110, []);
    assert [77, 97, 110] + [] == [77, 97, 110];
    TextBytes(251, 255, 0, []);
  }
}
