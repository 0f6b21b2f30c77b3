/** `AccessMode` and `PathAccess`: one recorded file access and its wire form. */
module PathAccesses {
  import opened Common
  import opened Bincode

  datatype AccessMode = ReadMode | WriteMode | ReadWriteMode | ReadDirMode

  datatype PathAccess = PathAccess(mode: AccessMode, path: Slice)

  /** The enum tag bincode writes, an unsigned 32-bit variant index. */
  function Tag(mode: AccessMode): nat {
    match mode
    case ReadMode => 0
    case WriteMode => 1
    case ReadWriteMode => 2
    case ReadDirMode => 3
  }

  function FromTag(tag: nat): Result<AccessMode, DecodeError> {
    match tag
    case 0 => Ok(ReadMode)
    case 1 => Ok(WriteMode)
    case 2 => Ok(ReadWriteMode)
    case 3 => Ok(ReadDirMode)
    case _ => Err(InvalidVariant)
  }

  function Encode(a: PathAccess): Bytes {
    EncodeVarint(Tag(a.mode)) + EncodeSlice(a.path)
  }

  /** The size pass that runs before the bytes are written. */
  function EncodedSize(a: PathAccess): nat {
    VarintSize(Tag(a.mode)) + VarintSize(|a.path|) + |a.path|
  }

  function Decode(b: Bytes): (r: Decoded<PathAccess>)
    ensures r.Ok? ==> 0 < r.value.size <= |b|
  {
    match DecodeVarint(b, U32)
    case Err(e) => Err(e)
    case Ok(t) =>
      match FromTag(t.value)
      case Err(e) => Err(e)
      case Ok(mode) =>
        match DecodeSlice(b[t.size..])
        case Err(e) => Err(e)
        case Ok(p) => Ok(Read(PathAccess(mode, p.value), t.size + p.size))
  }

  /** Decoding a record followed by anything gives the record back and stops right after it,
      and the size pass agrees with the bytes written. */
  lemma RecordRoundTrip(a: PathAccess, rest: Bytes)
    ensures Decode(Encode(a) + rest) == Ok(Read(a, |Encode(a)|))
    ensures |Encode(a)| == EncodedSize(a)
  {
    var head, body := EncodeVarint(Tag(a.mode)), EncodeSlice(a.path);
    VarintRoundTrip(Tag(a.mode), U32, body + rest);
    assert Encode(a) + rest == head + (body + rest);
    assert (head + (body + rest))[|head|..] == body + rest;
    SliceRoundTrip(a.path, rest);
    VarintRoundTrip(|a.path|, U64, []);
  }

  /** The bytes of a record: 0, 1, 2 or 3 for read, write, read-write or read-directory, the length, the path. */
  lemma RecordBytes(path: Slice)
    ensures |path| < 251 ==>
      && Encode(PathAccess(ReadMode, path)) == [0, |path|] + path
      && Encode(PathAccess(WriteMode, path)) == [1, |path|] + path
      && Encode(PathAccess(ReadWriteMode, path)) == [2, |path|] + path
      && Encode(PathAccess(ReadDirMode, path)) == [3, |path|] + path
    ensures 251 <= |path| < 0x1_0000 ==>
      Encode(PathAccess(ReadMode, path)) == [0, 251, |path| % 256, |path| / 256] + path
    ensures 0x1_0000 <= |path| < 0x1_0000_0000 ==>
      Encode(PathAccess(ReadMode, path))
      == [0, 252, |path| % 256, |path| / 256 % 256, |path| / 65536 % 256, |path| / 16777216] + path
  {
    VarintBytes(|path|);
  }
}
