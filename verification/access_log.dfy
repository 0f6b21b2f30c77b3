/** The byte layout of a shared-memory chunk, and the reader that walks it.

    A chunk is a run of frames, each a flag byte 1 and an encoded record, and the first byte after
    the last published frame is a flag byte 0 unless the chunk is full. */
module AccessLog {
  import opened Common
  import opened Bincode
  import opened PathAccesses

  /** `SHM_CHUNK_SIZE`. */
  const CHUNK_SIZE: nat := 256 * 1024

  /** Paths a send silently drops on Linux: everything below `/dev/`, `/proc/` and `/sys/`. */
  predicate Ignored(path: Bytes) {
    Ascii("/dev/") <= path || Ascii("/proc/") <= path || Ascii("/sys/") <= path
  }

  /** The three prefixes, byte by byte. */
  lemma IgnoredExactly(path: Bytes)
    ensures Ignored(path) <==>
      [47, 100, 101, 118, 47] <= path || [47, 112, 114, 111, 99, 47] <= path || [47, 115, 121, 115, 47] <= path
  {
    assert Ascii("/dev/") == [47, 100, 101, 118, 47];
    assert Ascii("/proc/") == [47, 112, 114, 111, 99, 47];
    assert Ascii("/sys/") == [47, 115, 121, 115, 47];
  }

  /** The smallest request: flag, tag and the length of an empty path take one byte each. */
  const MIN_REQUEST: nat := 3

  function Frame(a: PathAccess): (f: Bytes)
    ensures |f| >= MIN_REQUEST
  {
    RecordRoundTrip(a, []);
    [1] + Encode(a)
  }

  /** A frame, byte by byte. */
  lemma FrameBytes(path: Slice)
    requires |path| < 251
    ensures Frame(PathAccess(ReadMode, path)) == [1, 0, |path|] + path
  {
    RecordBytes(path);
  }

  /** What a send asks the cursor for: the flag byte and the size the size pass counted. */
  function RequestSize(a: PathAccess): (n: nat)
    ensures n == |Frame(a)|
  {
    RecordRoundTrip(a, []);
    1 + EncodedSize(a)
  }

  function Layout(log: seq<PathAccess>): Bytes {
    if log == [] then [] else Frame(log[0]) + Layout(log[1..])
  }

  lemma {:induction false} LayoutConcat(a: seq<PathAccess>, b: seq<PathAccess>)
    ensures Layout(a + b) == Layout(a) + Layout(b)
  {
    if a == [] {
      assert a + b == b;
    } else {
      assert (a + b)[1..] == a[1..] + b;
      LayoutConcat(a[1..], b);
    }
  }

  lemma LayoutAppend(log: seq<PathAccess>, a: PathAccess)
    ensures Layout(log + [a]) == Layout(log) + Frame(a)
  {
    LayoutConcat(log, [a]);
    assert Layout([a]) == Frame(a) + Layout([]);
  }

  /** Where the `k`-th frame lies. */
  lemma LayoutSplit(log: seq<PathAccess>, k: nat)
    requires k < |log|
    ensures Layout(log) == Layout(log[..k]) + Frame(log[k]) + Layout(log[k + 1..])
    ensures Layout(log[..k + 1]) == Layout(log[..k]) + Frame(log[k])
  {
    hide *;
    assert log[..k + 1] == log[..k] + [log[k]];
    LayoutAppend(log[..k], log[k]);
    assert log == log[..k + 1] + log[k + 1..];
    LayoutConcat(log[..k + 1], log[k + 1..]);
  }

  /** `buf` holds exactly the frames of `log`, and the reader can see where they stop. */
  predicate Holds(buf: Bytes, log: seq<PathAccess>) {
    && Layout(log) <= buf
    && (|Layout(log)| < |buf| ==> buf[|Layout(log)|] == 0)
  }

  /** What iterating over a chunk ends in. */
  datatype Outcome = Items(items: seq<PathAccess>) | Panicked

  /** The reader from `position` on. It panics when it slices past the end or when a record that is
      flagged as published does not decode. */
  function ReadFrom(buf: Bytes, position: nat): Outcome
    decreases |buf| - position
  {
    if position > |buf| then Panicked
    else if position == |buf| || buf[position] == 0 then Items([])
    else
      match Decode(buf[position + 1..])
      case Err(_) => Panicked
      case Ok(r) =>
        match ReadFrom(buf, position + r.size + 1)
        case Panicked => Panicked
        case Items(rest) => Items([r.value] + rest)
  }

  /** One step of the reader over a published frame. */
  lemma FrameAt(buf: Bytes, log: seq<PathAccess>, k: nat)
    requires k < |log| && Layout(log) <= buf
    ensures var p := |Layout(log[..k])|;
      && p < |Layout(log)| && buf[p] == 1
      && Decode(buf[p + 1..]) == Ok(Read(log[k], |Encode(log[k])|))
      && |Layout(log[..k + 1])| == p + 1 + |Encode(log[k])| <= |buf|
  {
    hide Encode, Decode;
    LayoutSplit(log, k);
    var p := |Layout(log[..k])|;
    var rest := buf[p + |Frame(log[k])|..];
    assert buf == Layout(log[..k]) + Frame(log[k]) + rest;
    assert buf[p + 1..] == Encode(log[k]) + rest;
    RecordRoundTrip(log[k], rest);
  }

  lemma {:induction false} ReadFromFrame(buf: Bytes, log: seq<PathAccess>, k: nat)
    requires k <= |log| && Holds(buf, log)
    ensures ReadFrom(buf, |Layout(log[..k])|) == Items(log[k..])
    decreases |log| - k
  {
    hide Decode, Frame;
    if k == |log| {
      assert log[..k] == log;
    } else {
      FrameAt(buf, log, k);
      ReadFromFrame(buf, log, k + 1);
      assert log[k..] == [log[k]] + log[k + 1..];
    }
  }

  /** The reader gives back exactly the published records, in order, and never panics. */
  lemma ReaderRecoversLog(buf: Bytes, log: seq<PathAccess>)
    requires Holds(buf, log)
    ensures ReadFrom(buf, 0) == Items(log)
  {
    ReadFromFrame(buf, log, 0);
    assert log[..0] == [] && log[0..] == log;
  }

  /** A chunk holds at most one log. */
  lemma HoldsUnique(buf: Bytes, log: seq<PathAccess>, other: seq<PathAccess>)
    requires Holds(buf, log) && Holds(buf, other)
    ensures log == other
  {
    ReaderRecoversLog(buf, log);
    ReaderRecoversLog(buf, other);
  }

  function Prepend(items: seq<PathAccess>, rest: Outcome): Outcome {
    match rest
    case Panicked => Panicked
    case Items(more) => Items(items + more)
  }

  /** `PathAccessIterable::iter` over one mapped chunk. */
  method ReadChunk(mmap: array<byte>) returns (outcome: Outcome)
    ensures outcome == ReadFrom(mmap[..], 0)
  {
    hide Decode;
    var items: seq<PathAccess> := [];
    var position := 0;
    while position < mmap.Length && mmap[position] != 0
      invariant ReadFrom(mmap[..], 0) == Prepend(items, ReadFrom(mmap[..], position))
      decreases mmap.Length - position
    {
      assert mmap[..][position + 1..] == mmap[position + 1..];
      match Decode(mmap[position + 1..]) {
        case Err(_) => return Panicked;
        case Ok(r) =>
          items := items + [r.value];
          position := position + r.size + 1;
      }
    }
    if position > mmap.Length {
      return Panicked;
    }
    outcome := Items(items);
  }

  /** The outcome over several chunks and then the arenas the supervisor filled itself. */
  function ReadAll(buffers: seq<Bytes>, arenas: seq<seq<PathAccess>>): Outcome {
    if buffers == [] then Items(Flatten(arenas))
    else
      match ReadFrom(buffers[0], 0)
      case Panicked => Panicked
      case Items(items) => Prepend(items, ReadAll(buffers[1..], arenas))
  }

  ghost function Contents(mmaps: seq<array<byte>>): (b: seq<Bytes>)
    reads mmaps
    ensures |b| == |mmaps|
    ensures forall i :: 0 <= i < |mmaps| ==> b[i] == mmaps[i][..]
  {
    seq(|mmaps|, i requires 0 <= i < |mmaps| reads mmaps => mmaps[i][..])
  }

  lemma ReadAllStep(buffers: seq<Bytes>, arenas: seq<seq<PathAccess>>, i: nat)
    requires i < |buffers|
    ensures ReadAll(buffers[i..], arenas)
         == match ReadFrom(buffers[i], 0)
            case Panicked => Panicked
            case Items(items) => Prepend(items, ReadAll(buffers[i + 1..], arenas))
  {
    hide ReadFrom, Flatten;
    assert buffers[i..][0] == buffers[i] && buffers[i..][1..] == buffers[i + 1..];
  }

  /** `PathAccessIterable::iter`: every chunk in the order its descriptor arrived, then the arenas. */
  method ReadEverything(mmaps: seq<array<byte>>, arenas: seq<seq<PathAccess>>) returns (outcome: Outcome)
    ensures outcome == ReadAll(Contents(mmaps), arenas)
  {
    hide ReadFrom, Decode, Contents;
    var items: seq<PathAccess> := [];
    ghost var buffers := Contents(mmaps);
    assert buffers[0..] == buffers;
    for i := 0 to |mmaps|
      invariant ReadAll(buffers, arenas) == Prepend(items, ReadAll(buffers[i..], arenas))
    {
      var chunk := ReadChunk(mmaps[i]);
      ReadAllStep(buffers, arenas, i);
      match chunk {
        case Panicked => return Panicked;
        case Items(more) => items := items + more;
      }
    }
    for i := 0 to |arenas|
      invariant ReadAll(buffers, arenas) == Items(items + Flatten(arenas[i..]))
    {
      assert arenas[i..][1..] == arenas[i + 1..];
      items := items + arenas[i];
    }
    outcome := Items(items);
  }

  /** When every chunk is well formed the whole iteration is the logs, one after the other. */
  lemma {:induction false} ReadAllRecoversLogs(
    buffers: seq<Bytes>, logs: seq<seq<PathAccess>>, arenas: seq<seq<PathAccess>>)
    requires |buffers| == |logs|
    requires forall i :: 0 <= i < |logs| ==> Holds(buffers[i], logs[i])
    ensures ReadAll(buffers, arenas) == Items(Flatten(logs) + Flatten(arenas))
  {
    hide ReadFrom, Layout;
    if buffers != [] {
      ReaderRecoversLog(buffers[0], logs[0]);
      ReadAllRecoversLogs(buffers[1..], logs[1..], arenas);
    }
  }
}
