/** The payload a tracked process finds in its environment: its wire form and its text form. */
module Payloads {
  import opened Common
  import opened Bincode
  import Base64

  type u16 = n: nat | n < 0x1_0000
  type u32 = n: nat | n < 0x1_0000_0000

  /** `CodableSockFilter`: one BPF instruction. */
  datatype SockFilter = SockFilter(code: u16, jt: byte, jf: byte, k: u32)

  type Filter = f: seq<SockFilter> | |f| <= ISIZE_MAX

  datatype SeccompPayload = SeccompPayload(ipcFd: i32, filter: Filter)

  datatype Payload = Payload(ipcFd: i32, preloadPath: Slice, seccompPayload: SeccompPayload)

  // ---------------------------------------------------------------------------------------------
  // Wire form
  // ---------------------------------------------------------------------------------------------

  function EncodeSockFilter(f: SockFilter): Bytes {
    EncodeVarint(f.code) + [f.jt, f.jf] + EncodeVarint(f.k)
  }

  function DecodeSockFilter(b: Bytes): (r: Decoded<SockFilter>)
    ensures r.Ok? ==> r.value.size <= |b|
  {
    match DecodeVarint(b, U16)
    case Err(e) => Err(e)
    case Ok(code) =>
      if |b| < code.size + 2 then Err(UnexpectedEnd)
      else
        match DecodeVarint(b[code.size + 2..], U32)
        case Err(e) => Err(e)
        case Ok(k) =>
          Ok(Read(SockFilter(code.value, b[code.size], b[code.size + 1], k.value), code.size + 2 + k.size))
  }

  lemma SockFilterRoundTrip(f: SockFilter, rest: Bytes)
    ensures DecodeSockFilter(EncodeSockFilter(f) + rest) == Ok(Read(f, |EncodeSockFilter(f)|))
  {
    var code, k := EncodeVarint(f.code), EncodeVarint(f.k);
    var b := EncodeSockFilter(f) + rest;
    assert b == code + ([f.jt, f.jf] + k + rest);
    VarintRoundTrip(f.code, U16, [f.jt, f.jf] + k + rest);
    assert b[|code| + 2..] == k + rest;
    VarintRoundTrip(f.k, U32, rest);
    assert b[|code|] == f.jt && b[|code| + 1] == f.jf;
    hide DecodeVarint, EncodeVarint;
  }

  function EncodeInstructions(f: seq<SockFilter>): Bytes {
    if f == [] then [] else EncodeSockFilter(f[0]) + EncodeInstructions(f[1..])
  }

  function DecodeInstructions(b: Bytes, n: nat): (r: Decoded<seq<SockFilter>>)
    ensures r.Ok? ==> r.value.size <= |b| && |r.value.value| == n
    decreases n
  {
    if n == 0 then Ok(Read([], 0))
    else
      match DecodeSockFilter(b)
      case Err(e) => Err(e)
      case Ok(first) =>
        match DecodeInstructions(b[first.size..], n - 1)
        case Err(e) => Err(e)
        case Ok(more) => Ok(Read([first.value] + more.value, first.size + more.size))
  }

  lemma {:induction false} InstructionsRoundTrip(f: seq<SockFilter>, rest: Bytes)
    ensures DecodeInstructions(EncodeInstructions(f) + rest, |f|) == Ok(Read(f, |EncodeInstructions(f)|))
  {
    hide EncodeSockFilter, DecodeSockFilter;
    if f != [] {
      var head, tail := EncodeSockFilter(f[0]), EncodeInstructions(f[1..]);
      SockFilterRoundTrip(f[0], tail + rest);
      assert EncodeInstructions(f) + rest == head + (tail + rest);
      assert (head + (tail + rest))[|head|..] == tail + rest;
      InstructionsRoundTrip(f[1..], rest);
      assert f == [f[0]] + f[1..];
    }
  }

  /** `Filter`: a length, then the instructions. */
  function EncodeFilter(f: Filter): Bytes {
    EncodeVarint(|f|) + EncodeInstructions(f)
  }

  function DecodeFilter(b: Bytes): (r: Decoded<Filter>)
    ensures r.Ok? ==> r.value.size <= |b|
  {
    match DecodeVarint(b, U64)
    case Err(e) => Err(e)
    case Ok(n) =>
      if n.value > ISIZE_MAX then Err(UnexpectedEnd)
      else
        match DecodeInstructions(b[n.size..], n.value)
        case Err(e) => Err(e)
        case Ok(f) => Ok(Read(f.value, n.size + f.size))
  }

  lemma FilterRoundTrip(f: Filter, rest: Bytes)
    ensures DecodeFilter(EncodeFilter(f) + rest) == Ok(Read(f, |EncodeFilter(f)|))
  {
    hide EncodeVarint, DecodeVarint, EncodeInstructions, DecodeInstructions;
    var head, body := EncodeVarint(|f|), EncodeInstructions(f);
    VarintRoundTrip(|f|, U64, body + rest);
    InstructionsRoundTrip(f, rest);
    var b := EncodeFilter(f) + rest;
    assert b == head + (body + rest);
    assert b[|head|..] == body + rest;
  }

  function EncodeSeccomp(p: SeccompPayload): Bytes {
    EncodeI32(p.ipcFd) + EncodeFilter(p.filter)
  }

  function DecodeSeccomp(b: Bytes): (r: Decoded<SeccompPayload>)
    ensures r.Ok? ==> r.value.size <= |b|
  {
    match DecodeI32(b)
    case Err(e) => Err(e)
    case Ok(fd) =>
      match DecodeFilter(b[fd.size..])
      case Err(e) => Err(e)
      case Ok(f) => Ok(Read(SeccompPayload(fd.value, f.value), fd.size + f.size))
  }

  lemma SeccompRoundTrip(p: SeccompPayload, rest: Bytes)
    ensures DecodeSeccomp(EncodeSeccomp(p) + rest) == Ok(Read(p, |EncodeSeccomp(p)|))
  {
    hide EncodeI32, DecodeI32, EncodeFilter, DecodeFilter;
    var head, body := EncodeI32(p.ipcFd), EncodeFilter(p.filter);
    I32RoundTrip(p.ipcFd, body + rest);
    FilterRoundTrip(p.filter, rest);
    var b := EncodeSeccomp(p) + rest;
    assert b == head + (body + rest);
    assert b[|head|..] == body + rest;
  }

  function EncodeWire(p: Payload): Bytes {
    EncodeI32(p.ipcFd) + EncodeSlice(p.preloadPath) + EncodeSeccomp(p.seccompPayload)
  }

  function DecodeWire(b: Bytes): (r: Decoded<Payload>)
    ensures r.Ok? ==> r.value.size <= |b|
  {
    match DecodeI32(b)
    case Err(e) => Err(e)
    case Ok(fd) =>
      match DecodeSlice(b[fd.size..])
      case Err(e) => Err(e)
      case Ok(path) =>
        match DecodeSeccomp(b[fd.size + path.size..])
        case Err(e) => Err(e)
        case Ok(s) => Ok(Read(Payload(fd.value, path.value, s.value), fd.size + path.size + s.size))
  }

  lemma WireRoundTrip(p: Payload, rest: Bytes)
    ensures DecodeWire(EncodeWire(p) + rest) == Ok(Read(p, |EncodeWire(p)|))
  {
    hide *;
    var fd, path, s := EncodeI32(p.ipcFd), EncodeSlice(p.preloadPath), EncodeSeccomp(p.seccompPayload);
    I32RoundTrip(p.ipcFd, path + s + rest);
    SliceRoundTrip(p.preloadPath, s + rest);
    SeccompRoundTrip(p.seccompPayload, rest);
    WireParts(p, fd, path, s, rest);
  }

  lemma WireParts(p: Payload, fd: Bytes, path: Bytes, s: Bytes, rest: Bytes)
    requires fd == EncodeI32(p.ipcFd) && path == EncodeSlice(p.preloadPath) && s == EncodeSeccomp(p.seccompPayload)
    requires DecodeI32(fd + (path + s + rest)) == Ok(Read(p.ipcFd, |fd|))
    requires DecodeSlice(path + (s + rest)) == Ok(Read(p.preloadPath, |path|))
    requires DecodeSeccomp(s + rest) == Ok(Read(p.seccompPayload, |s|))
    ensures DecodeWire(EncodeWire(p) + rest) == Ok(Read(p, |EncodeWire(p)|))
  {
    hide EncodeI32, DecodeI32, EncodeSlice, DecodeSlice, EncodeSeccomp, DecodeSeccomp;
    var b := EncodeWire(p) + rest;
    assert b == fd + (path + s + rest);
    assert b[|fd|..] == path + (s + rest);
    assert b[|fd| + |path|..] == s + rest;
  }

  // ---------------------------------------------------------------------------------------------
  // Text form
  // ---------------------------------------------------------------------------------------------

  datatype EncodedPayload = EncodedPayload(payload: Payload, encodedString: Bytes)

  /** Decoding fails on text that is no base64 or bytes that are no payload, and panics when bytes
      are left over behind the payload. */
  datatype Handoff = Decoded(encoded: EncodedPayload) | Undecodable | LengthMismatch

  function EncodePayload(p: Payload): EncodedPayload {
    EncodedPayload(p, Base64.Encode(EncodeWire(p)))
  }

  function DecodePayload(encodedString: Bytes): Handoff {
    match Base64.Decode(encodedString)
    case Err(_) => Undecodable
    case Ok(bytes) =>
      match DecodeWire(bytes)
      case Err(_) => Undecodable
      case Ok(r) => if |bytes| != r.size then LengthMismatch else Decoded(EncodedPayload(r.value, encodedString))
  }

  /** A child decodes exactly what its parent encoded, with the same text, no byte left over. */
  lemma PayloadHandoff(p: Payload)
    ensures DecodePayload(EncodePayload(p).encodedString) == Decoded(EncodePayload(p))
  {
    hide EncodeWire, DecodeWire;
    Base64.DecodeEncode(EncodeWire(p));
    WireRoundTrip(p, []);
    assert EncodeWire(p) + [] == EncodeWire(p);
  }

  /** Two payloads with the same text are the same payload. */
  lemma PayloadTextIsInjective(p: Payload, q: Payload)
    requires EncodePayload(p).encodedString == EncodePayload(q).encodedString
    ensures p == q
  {
    hide EncodePayload, DecodePayload;
    PayloadHandoff(p);
    PayloadHandoff(q);
    PayloadKept(p);
    PayloadKept(q);
  }

  lemma PayloadKept(p: Payload)
    ensures EncodePayload(p).payload == p
  {
  }

  /** The text survives an environment block: it holds no NUL. */
  lemma PayloadTextHasNoNul(p: Payload)
    ensures 0 !in EncodePayload(p).encodedString
  {
    Base64.EncodeIsText(EncodeWire(p));
    var text := EncodePayload(p).encodedString;
    forall i | 0 <= i < |text|
      ensures text[i] != 0
    {
      Base64.SymbolsArePlain(text[i]);
    }
  }

  /** The wire form: descriptor, length and path, descriptor of the filter, number of instructions, and for each
      its code, the two jumps and the operand. */
  lemma PayloadBytes(path: Slice, code: u16, jt: byte, jf: byte, k: u32)
    requires |path| < 251 && code < 251 && k < 251
    ensures EncodeWire(Payload(20, path, SeccompPayload(21, [SockFilter(code, jt, jf, k)])))
         == [40, |path|] + path + [42, 1, code, jt, jf, k]
    ensures EncodeWire(Payload(-1, path, SeccompPayload(-2, []))) == [1, |path|] + path + [3, 0]
  {
    var f := [SockFilter(code, jt, jf, k)];
    assert f[1..] == [];
    assert EncodeInstructions(f) == [code, jt, jf, k];
    assert EncodeFilter(f) == [1, code, jt, jf, k];
    assert EncodeI32(20) == [40] && EncodeI32(21) == [42];
    assert EncodeSeccomp(SeccompPayload(21, f)) == [42, 1, code, jt, jf, k];
    assert EncodeSlice(path) == [|path|] + path;
  }
}
