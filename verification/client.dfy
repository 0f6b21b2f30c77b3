/** The writer as one thread runs it: `ShmCursor`, `new_shm`, `with_shm_buf` and `send`, over real
    buffers, with every operating-system call able to fail. */
module Client {
  import opened Common
  import opened PathAccesses
  import opened AccessLog

  /** The bytes of a chunk written by one live cursor: the frames of `log`, then zeros. */
  ghost predicate Written(b: Bytes, log: seq<PathAccess>) {
    Layout(log) <= b && forall i :: |Layout(log)| <= i < |b| ==> b[i] == 0
  }

  lemma FreshIsWritten(b: Bytes)
    requires AllZero(b)
    ensures Written(b, [])
  {
  }

  /** `logs'` is `logs` with at most some more objects that hold no record. */
  ghost predicate NothingPublished(logs: seq<seq<PathAccess>>, logs': seq<seq<PathAccess>>) {
    logs <= logs' && forall j :: |logs| <= j < |logs'| ==> logs'[j] == []
  }

  /** Storing the bytes from `at` on, one after the other. */
  function StoresOf(data: Bytes, at: nat): (stores: seq<(nat, byte)>)
    ensures |stores| == |data| && forall i :: 0 <= i < |data| ==> stores[i] == (at + i, data[i])
  {
    seq(|data|, i requires 0 <= i < |data| => (at + i, data[i]))
  }

  class ShmCursor {
    const mmap: array<byte>
    var position: nat
    /** Every store made through this cursor, in order. */
    ghost var stores: seq<(nat, byte)>

    constructor (mmap: array<byte>)
      ensures this.mmap == mmap && position == 0 && stores == []
    {
      this.mmap := mmap;
      position := 0;
      stores := [];
    }

    method Store(at: nat, b: byte)
      requires at < mmap.Length
      modifies mmap, this`stores
      ensures mmap[..] == old(mmap[..])[at := b]
      ensures stores == old(stores) + [(at, b)]
    {
      mmap[at] := b;
      stores := stores + [(at, b)];
    }

    /** Reserves the next `len` bytes, if they fit in the chunk and in a `usize`. */
    method Advance(len: nat) returns (start: Option<nat>)
      modifies this`position
      ensures start == if old(position) + len <= mmap.Length && old(position) + len <= USIZE_MAX
                       then Some(old(position)) else None
      ensures position == if start.Some? then old(position) + len else old(position)
    {
      var newPosition := position + len;
      if newPosition > USIZE_MAX || newPosition > mmap.Length {
        return None;
      }
      start := Some(position);
      position := newPosition;
    }

    /** The closure of `send`: every payload byte is stored before the flag byte is. */
    method WriteRecord(start: nat, a: PathAccess)
      requires start + |Frame(a)| <= mmap.Length
      modifies mmap, this`stores
      ensures mmap[..] == Overwritten(old(mmap[..]), start, Frame(a))
      ensures stores == old(stores) + StoresOf(Encode(a), start + 1) + [(start, 1)]
    {
      hide Encode;
      var data := Encode(a);
      for i := 0 to |data|
        invariant mmap[..] == Overwritten(old(mmap[..]), start + 1, data[..i])
        invariant stores == old(stores) + StoresOf(data, start + 1)[..i]
      {
        OverwrittenOneMore(old(mmap[..]), start + 1, data, i);
        Store(start + 1 + i, data[i]);
      }
      assert data[..|data|] == data;
      FlagLast(old(mmap[..]), start, data);
      Store(start, 1);
    }
  }

  function Overwritten(b: Bytes, at: nat, data: Bytes): (b': Bytes)
    requires at + |data| <= |b|
    ensures |b'| == |b|
  {
    b[..at] + data + b[at + |data|..]
  }

  lemma OverwrittenOneMore(b: Bytes, at: nat, data: Bytes, i: nat)
    requires i < |data| && at + |data| <= |b|
    ensures Overwritten(b, at, data[..i])[at + i := data[i]] == Overwritten(b, at, data[..i + 1])
  {
    assert data[..i + 1] == data[..i] + [data[i]];
  }

  lemma FlagLast(b: Bytes, start: nat, data: Bytes)
    requires start + 1 + |data| <= |b|
    ensures Overwritten(b, start + 1, data)[start := 1] == Overwritten(b, start, [1] + data)
  {
  }

  /** Appending a frame behind the published ones keeps the chunk well formed. */
  lemma FrameAppended(b: Bytes, log: seq<PathAccess>, a: PathAccess, b': Bytes)
    requires Written(b, log) && |Layout(log)| + |Frame(a)| <= |b|
    requires b' == Overwritten(b, |Layout(log)|, Frame(a))
    ensures Written(b', log + [a]) && |Layout(log + [a])| == |Layout(log)| + |Frame(a)|
  {
    hide Layout, Frame;
    LayoutAppend(log, a);
  }

  lemma FlattenAppend(logs: seq<seq<PathAccess>>, k: nat, a: PathAccess)
    requires k < |logs| && forall j :: k < j < |logs| ==> logs[j] == []
    ensures Flatten(logs[k := logs[k] + [a]]) == Flatten(logs) + [a]
  {
    var logs' := logs[k := logs[k] + [a]];
    FlattenAround(logs, k);
    FlattenAround(logs', k);
    assert logs'[..k] == logs[..k] && logs'[k + 1..] == logs[k + 1..];
    FlattenEmpty(logs[k + 1..]);
    hide Flatten;
  }

  lemma {:induction false} FlattenEmpty(logs: seq<seq<PathAccess>>)
    requires forall j :: 0 <= j < |logs| ==> logs[j] == []
    ensures Flatten(logs) == []
  {
    if logs != [] {
      FlattenEmpty(logs[1..]);
    }
  }

  lemma FlattenNothingPublished(logs: seq<seq<PathAccess>>, logs': seq<seq<PathAccess>>)
    requires NothingPublished(logs, logs')
    ensures Flatten(logs') == Flatten(logs)
  {
    assert logs' == logs + logs'[|logs|..];
    FlattenConcat(logs, logs'[|logs|..]);
    FlattenEmpty(logs'[|logs|..]);
  }

  /** The largest path one chunk has room for: flag, tag and a five-byte length leave this much. */
  const MAX_PATH: nat := 262137

  lemma RequestFits(a: PathAccess)
    ensures RequestSize(a) <= CHUNK_SIZE <==> |a.path| <= MAX_PATH
    ensures RequestSize(a) <= 262144 <==> |a.path| <= 262137
    ensures CHUNK_SIZE == 262144 && MAX_PATH == 262137
  {
  }

  /** Distinct objects, each holding the records of its log. */
  ghost predicate FilesWritten(sent: seq<array<byte>>, logs: seq<seq<PathAccess>>)
    reads sent
  {
    && |logs| == |sent|
    && (forall i, j :: 0 <= i < j < |sent| ==> sent[i] != sent[j])
    && (forall i :: 0 <= i < |sent| ==> Written(sent[i][..], logs[i]))
  }

  lemma FilesCount(sent: seq<array<byte>>, logs: seq<seq<PathAccess>>)
    requires FilesWritten(sent, logs)
    ensures |logs| == |sent|
  {
  }

  lemma FilesBefore(sent: seq<array<byte>>, logs: seq<seq<PathAccess>>)
    requires FilesWritten(sent, logs)
    ensures |logs| == |sent|
    ensures forall i, j :: 0 <= i < j < |sent| ==> sent[i] != sent[j]
    ensures forall i :: 0 <= i < |sent| ==> Written(Contents(sent)[i], logs[i])
  {
    hide Written;
  }

  /** One object is rewritten. */
  lemma FilesRewritten(
    sent: seq<array<byte>>, before: seq<Bytes>, logs: seq<seq<PathAccess>>, logs': seq<seq<PathAccess>>, k: nat)
    requires k < |sent| == |before| == |logs|
    requires forall i, j :: 0 <= i < j < |sent| ==> sent[i] != sent[j]
    requires forall i :: 0 <= i < |sent| ==> Written(before[i], logs[i])
    requires forall i :: 0 <= i < |sent| && i != k ==> sent[i][..] == before[i]
    requires |logs'| == |logs| && logs' == logs[k := logs'[k]] && Written(sent[k][..], logs'[k])
    ensures FilesWritten(sent, logs')
  {
    hide Written;
  }

  lemma FilesGrow(sent: seq<array<byte>>, logs: seq<seq<PathAccess>>, shm: array<byte>)
    requires FilesWritten(sent, logs) && shm !in sent && Written(shm[..], [])
    ensures FilesWritten(sent + [shm], logs + [[]])
  {
    hide Written;
  }

  /** Which call of `new_shm` fails, if any. */
  datatype ShmFault = NoFault | OpenFault | UnlinkFault | SendFault | TruncateFault | MapFault

  // ---------------------------------------------------------------------------------------------
  // What each operation makes of cursor and objects
  // ---------------------------------------------------------------------------------------------

  /** The object a cursor points into, by its place among those sent, and its position. */
  datatype Place = Place(index: nat, position: nat)

  /** A client as the supervisor and the next send see it. */
  datatype View = View(cursor: Option<Place>, contents: seq<Bytes>)

  /** The sent objects after `new_shm`. */
  function Created(contents: seq<Bytes>, fault: ShmFault): seq<Bytes> {
    match fault
    case OpenFault => contents
    case UnlinkFault => contents
    case SendFault => contents
    case TruncateFault => contents + [[]]
    case MapFault => contents + [Zeros(CHUNK_SIZE)]
    case NoFault => contents + [Zeros(CHUNK_SIZE)]
  }

  lemma CreatedIs(contents: seq<Bytes>, fault: ShmFault)
    ensures Created(contents, fault)
         == if fault.OpenFault? || fault.UnlinkFault? || fault.SendFault? then contents
            else contents + [Zeros(if fault.TruncateFault? then 0 else CHUNK_SIZE)]
  {
    assert Zeros(0) == [];
  }

  /** Creating a chunk and storing its cursor in the slot. */
  function Replaced(v: View, fault: ShmFault): View {
    View(if fault.NoFault? then Some(Place(|v.contents|, 0)) else v.cursor, Created(v.contents, fault))
  }

  /** The cursor can satisfy the request. */
  predicate HasRoomFor(v: View, len: nat) {
    && v.cursor.Some?
    && v.cursor.value.index < |v.contents|
    && v.cursor.value.position + len <= |v.contents[v.cursor.value.index]|
  }

  function Moved(v: View, len: nat): View
    requires v.cursor.Some?
  {
    v.(cursor := Some(v.cursor.value.(position := v.cursor.value.position + len)))
  }

  /** `with_shm_buf` on a slot that needs a chunk. */
  function ReservedFresh(v: View, len: nat, fault: ShmFault): (bool, View) {
    var v' := Replaced(v, fault);
    if fault.NoFault? && HasRoomFor(v', len) then (true, Moved(v', len)) else (false, v')
  }

  /** `with_shm_buf` on a slot that holds a cursor. */
  function ReservedIn(v: View, len: nat, second: ShmFault): (bool, View) {
    if HasRoomFor(v, len) then (true, Moved(v, len)) else ReservedFresh(v, len, second)
  }

  /** `with_shm_buf` up to the call of its closure. */
  function ReservedView(v: View, len: nat, first: ShmFault, second: ShmFault): (bool, View) {
    if v.cursor.Some? then ReservedIn(v, len, second)
    else if first.NoFault? then ReservedIn(Replaced(v, first), len, second)
    else (false, Replaced(v, first))
  }

  /** The closure of `send` on the reservation that ends at the cursor. */
  function PublishedView(v: View, a: PathAccess): View
    requires v.cursor.Some? && v.cursor.value.index < |v.contents|
    requires |Frame(a)| <= v.cursor.value.position <= |v.contents[v.cursor.value.index]|
  {
    var k, b := v.cursor.value.index, v.contents[v.cursor.value.index];
    v.(contents := v.contents[k := Overwritten(b, v.cursor.value.position - |Frame(a)|, Frame(a))])
  }

  lemma ReservedHasRoom(v: View, len: nat, first: ShmFault, second: ShmFault)
    ensures var (ok, v') := ReservedView(v, len, first, second);
      ok ==> v'.cursor.Some? && v'.cursor.value.index < |v'.contents|
             && len <= v'.cursor.value.position <= |v'.contents[v'.cursor.value.index]|
  {
  }

  /** `send`: its result and what it leaves. */
  function SentView(v: View, a: PathAccess, first: ShmFault, second: ShmFault): (bool, View) {
    if Ignored(a.path) then (true, v)
    else
      ReservedHasRoom(v, RequestSize(a), first, second);
      var (ok, v') := ReservedView(v, RequestSize(a), first, second);
      (ok, if ok then PublishedView(v', a) else v')
  }

  lemma SentIs(v: View, a: PathAccess, first: ShmFault, second: ShmFault)
    ensures Ignored(a.path) ==> SentView(v, a, first, second) == (true, v)
    ensures !Ignored(a.path) ==>
      var (ok, v') := ReservedView(v, RequestSize(a), first, second);
      && (!ok ==> SentView(v, a, first, second) == (false, v'))
      && (ok && v'.cursor.Some? && v'.cursor.value.index < |v'.contents|
          && |Frame(a)| <= v'.cursor.value.position <= |v'.contents[v'.cursor.value.index]| ==>
            SentView(v, a, first, second) == (true, PublishedView(v', a)))
  {
    hide Ignored, Frame, ReservedView, PublishedView;
  }

  /** What the atfork handler makes of the copied cursor. */
  function ResetView(v: View): View {
    if v.cursor.Some? && v.cursor.value.index < |v.contents| then
      v.(cursor := Some(v.cursor.value.(position := |v.contents[v.cursor.value.index]|)))
    else v
  }

  lemma ContentsAppend(sent: seq<array<byte>>, shm: array<byte>)
    ensures Contents(sent + [shm]) == Contents(sent) + [shm[..]]
  {
  }

  lemma AllZeroIsZeros(b: Bytes)
    requires AllZero(b)
    ensures b == Zeros(|b|)
  {
  }

  class Client {
    var shmId: nat
    var cursor: ShmCursor?
    /** The shared-memory objects whose descriptor has been sent to the supervisor, in order. One
        whose `ftruncate` failed has no bytes. */
    var sent: seq<array<byte>>
    /** What has been published in each of them. */
    ghost var logs: seq<seq<PathAccess>>
    /** The object the cursor points into. */
    ghost var current: nat

    ghost predicate CursorOk()
      reads this, cursor
    {
      if cursor == null then forall j :: 0 <= j < |logs| ==> logs[j] == []
      else
        && current < |sent| == |logs|
        && cursor.mmap == sent[current]
        && cursor.mmap.Length == CHUNK_SIZE
        && cursor.position <= CHUNK_SIZE
        && (cursor.position == CHUNK_SIZE || cursor.position == |Layout(logs[current])|)
        && forall j :: current < j < |logs| ==> logs[j] == []
    }

    ghost predicate Valid()
      reads this, sent, cursor
    {
      FilesWritten(sent, logs) && CursorOk()
    }

    ghost function Seen(): View
      reads this, sent, cursor
    {
      View(if cursor == null then None else Some(Place(current, cursor.position)), Contents(sent))
    }

    constructor ()
      ensures Valid() && cursor == null && sent == []
    {
      shmId, cursor, sent := 0, null, [];
      logs, current := [], 0;
    }

    /** Creates a chunk. Its descriptor is sent before the chunk is sized or mapped, so a failure
        after that leaves an object without a record with the supervisor. */
    method NewShm(fault: ShmFault) returns (created: ShmCursor?)
      requires Valid()
      modifies this`shmId, this`sent, this`logs
      ensures Valid()
      ensures (created != null) == fault.NoFault?
      ensures fault.OpenFault? || fault.UnlinkFault? || fault.SendFault? ==>
        sent == old(sent) && logs == old(logs)
      ensures fault.NoFault? || fault.TruncateFault? || fault.MapFault? ==>
        && |sent| == |old(sent)| + 1 && sent[..|old(sent)|] == old(sent) && fresh(sent[|old(sent)|])
        && logs == old(logs) + [[]]
      ensures created != null ==>
        && fresh(created) && created.position == 0
        && created.mmap == sent[|old(sent)|] && created.mmap.Length == CHUNK_SIZE
      ensures Contents(sent) == Created(old(Contents(sent)), fault)
      ensures shmId == (old(shmId) + 1) % (USIZE_MAX + 1)
    {
      hide Frame, Written, Layout, FilesWritten, Contents, Created;
      CreatedIs(Contents(sent), fault);
      assert |logs| == |sent| by { FilesCount(sent, logs); }
      shmId := (shmId + 1) % (USIZE_MAX + 1);
      if fault.OpenFault? || fault.UnlinkFault? || fault.SendFault? {
        return null;
      }
      var shm := AddObject(if fault.TruncateFault? then 0 else CHUNK_SIZE);
      if fault.TruncateFault? || fault.MapFault? {
        return null;
      }
      created := new ShmCursor(shm);
    }

    /** An object of `size` zero bytes whose descriptor is sent. */
    method AddObject(size: nat) returns (shm: array<byte>)
      requires Valid()
      modifies this`sent, this`logs
      ensures Valid() && fresh(shm) && shm.Length == size
      ensures sent == old(sent) + [shm] && logs == old(logs) + [[]]
      ensures Contents(sent) == old(Contents(sent)) + [Zeros(size)]
    {
      hide Frame, Written, Layout, FilesWritten, Contents;
      FilesCount(sent, logs);
      ghost var before := Contents(sent);
      shm := new byte[size](_ => 0);
      FreshIsWritten(shm[..]);
      FilesGrow(sent, logs, shm);
      AllZeroIsZeros(shm[..]);
      ContentsAppend(sent, shm);
      assert Contents(sent) == before;
      sent := sent + [shm];
      logs := logs + [[]];
    }

    /** The reservation `start`..`start + len` is behind the published frames, all of it zero. */
    ghost predicate Reserved(start: nat, len: nat)
      reads this, sent, cursor
    {
      && FilesWritten(sent, logs)
      && cursor != null && current < |sent| == |logs|
      && cursor.mmap == sent[current] && cursor.mmap.Length == CHUNK_SIZE
      && start == |Layout(logs[current])|
      && cursor.position == start + len <= CHUNK_SIZE
      && forall j :: current < j < |logs| ==> logs[j] == []
    }

    /** Whether the current cursor can satisfy a request. */
    predicate Fits(len: nat)
      reads this, cursor
    {
      cursor != null && cursor.position + len <= cursor.mmap.Length
    }

    /** `new_shm` stored in the slot. */
    method Replace(fault: ShmFault) returns (ok: bool)
      requires Valid()
      modifies this
      ensures Valid() && ok == fault.NoFault?
      ensures old(sent) <= sent && NothingPublished(old(logs), logs)
      ensures forall j :: |old(sent)| <= j < |sent| ==> fresh(sent[j])
      ensures !ok ==> cursor == old(cursor) && current == old(current)
      ensures ok ==>
        && fresh(cursor) && cursor.position == 0 && cursor.mmap.Length == CHUNK_SIZE
        && |sent| == |old(sent)| + 1 && logs == old(logs) + [[]]
        && current == |old(sent)| && fresh(sent[current])
      ensures Seen() == Replaced(old(Seen()), fault)
    {
      hide Written, Frame, FilesWritten, Contents;
      assert Layout([]) == [];
      hide Layout;
      FilesCount(sent, logs);
      var created := NewShm(fault);
      ok := created != null;
      if ok {
        cursor, current := created, |sent| - 1;
      }
    }

    /** `with_shm_buf` when the slot needs a chunk: it is created and the request tried on it. */
    method ReserveFresh(len: nat, second: ShmFault) returns (start: Option<nat>)
      requires Valid() && len > 0
      modifies this
      ensures start.Some? == (len <= CHUNK_SIZE && second.NoFault?)
      ensures start.Some? ==> Reserved(start.value, len)
      ensures old(sent) <= sent && NothingPublished(old(logs), logs)
      ensures forall j :: |old(sent)| <= j < |sent| ==> fresh(sent[j])
      ensures start.None? ==> Valid()
      ensures start.Some? ==>
        && |sent| == |old(sent)| + 1 && logs == old(logs) + [[]]
        && current == |old(sent)| && fresh(cursor) && fresh(sent[current])
      ensures cursor == old(cursor) || (cursor != null && fresh(cursor))
      ensures (start.Some?, Seen()) == ReservedFresh(old(Seen()), len, second)
    {
      assert Layout([]) == [];
      hide Written, Frame, FilesWritten, Layout, Contents;
      var created := Replace(second);
      if !created {
        return None;
      }
      start := cursor.Advance(len);
    }

    /** `with_shm_buf` once the slot holds a cursor. `second` is the fate of the chunk created when the
        request does not fit. */
    method ReserveInSlot(len: nat, second: ShmFault) returns (start: Option<nat>)
      requires Valid() && len > 0 && cursor != null
      modifies this, cursor
      ensures start.Some? == (old(Fits(len)) || (len <= CHUNK_SIZE && second.NoFault?))
      ensures start.Some? ==> Reserved(start.value, len)
      ensures old(sent) <= sent && NothingPublished(old(logs), logs)
      ensures forall j :: |old(sent)| <= j < |sent| ==> fresh(sent[j])
      ensures cursor != null && (cursor == old(cursor) || fresh(cursor))
      ensures start.None? ==> Valid()
      ensures old(Fits(len)) ==>
        sent == old(sent) && logs == old(logs) && cursor == old(cursor) && current == old(current)
      ensures start.Some? && !old(Fits(len)) ==>
        && |sent| == |old(sent)| + 1 && logs == old(logs) + [[]]
        && current == |old(sent)| && fresh(cursor) && fresh(sent[current])
      ensures (start.Some?, Seen()) == ReservedIn(old(Seen()), len, second)
    {
      hide Written, Frame, FilesWritten, Layout, Contents, ReservedFresh;
      start := cursor.Advance(len);
      if start.None? {
        start := ReserveFresh(len, second);
      }
    }

    /** `with_shm_buf` up to the call of its closure. `first` is the fate of the chunk a slot without
        a cursor creates, `second` that of the chunk created when the request does not fit. */
    method Reserve(len: nat, first: ShmFault, second: ShmFault) returns (start: Option<nat>)
      requires Valid() && len > 0
      modifies this, cursor
      ensures start.Some? ==
        (old(Fits(len)) || (len <= CHUNK_SIZE && (if old(cursor) == null then first else second).NoFault?))
      ensures start.Some? ==> Reserved(start.value, len)
      ensures old(sent) <= sent && NothingPublished(old(logs), logs)
      ensures forall j :: |old(sent)| <= j < |sent| ==> fresh(sent[j])
      ensures start.None? ==> Valid()
      ensures start.Some? && old(Fits(len)) ==>
        sent == old(sent) && logs == old(logs) && cursor == old(cursor) && current == old(current)
      ensures start.Some? && !old(Fits(len)) ==>
        && |sent| == |old(sent)| + 1 && logs == old(logs) + [[]]
        && current == |old(sent)| && fresh(cursor) && fresh(sent[current])
      ensures cursor == old(cursor) || (cursor != null && fresh(cursor))
      ensures (start.Some?, Seen()) == ReservedView(old(Seen()), len, first, second)
    {
      hide Written, Frame, FilesWritten, Layout, Contents, ReservedIn;
      if cursor == null {
        var created := Replace(first);
        if !created {
          return None;
        }
      }
      start := ReserveInSlot(len, second);
    }

    /** The closure of `send` run on a reservation. */
    method Publish(start: nat, a: PathAccess)
      requires Reserved(start, |Frame(a)|)
      modifies this`logs, cursor.mmap, cursor`stores
      ensures Valid() && |logs| == |sent|
      ensures logs == old(logs)[current := old(logs)[current] + [a]]
      ensures cursor.position == |Layout(logs[current])|
      ensures var v := old(Seen());
        && v.cursor.value.index < |v.contents|
        && |Frame(a)| <= v.cursor.value.position <= |v.contents[v.cursor.value.index]|
        && Seen() == PublishedView(v, a)
    {
      hide Frame, Written, Layout, FilesWritten;
      ghost var before := Contents(sent);
      FilesBefore(sent, logs);
      cursor.WriteRecord(start, a);
      FrameAppended(before[current], logs[current], a, sent[current][..]);
      FilesRewritten(sent, before, logs, logs[current := logs[current] + [a]], current);
      logs := logs[current := logs[current] + [a]];
    }

    /** What a send does to the logs when nothing is ignored and the reservation succeeds. */
    ghost function Placed(a: PathAccess): seq<seq<PathAccess>>
      requires |logs| == |sent| && (cursor != null ==> current < |logs|)
      reads this, cursor
    {
      if Fits(RequestSize(a)) then logs[current := logs[current] + [a]] else logs + [[a]]
    }

    /** `Client::send`. An ignored path succeeds without a trace. Otherwise the send succeeds exactly
        when the record fits the current chunk, or fits a chunk at all and the calls that create one
        succeed; then the record is published last. A failed send publishes nothing. */
    method Send(a: PathAccess, first: ShmFault, second: ShmFault) returns (ok: bool)
      requires Valid()
      modifies this, cursor, sent
      ensures Valid()
      ensures old(sent) <= sent && |logs| == |sent| && forall j :: |old(sent)| <= j < |sent| ==> fresh(sent[j])
      ensures Ignored(a.path) ==> ok && sent == old(sent) && logs == old(logs) && cursor == old(cursor)
      ensures Ignored(a.path) ==> current == old(current) && Seen() == old(Seen())
      ensures cursor == old(cursor) || (cursor != null && fresh(cursor))
      ensures ok == (
        || Ignored(a.path)
        || old(Fits(RequestSize(a)))
        || (|a.path| <= MAX_PATH && (if old(cursor) == null then first else second).NoFault?))
      ensures Flatten(logs) == Flatten(old(logs)) + (if ok && !Ignored(a.path) then [a] else [])
      ensures ok && !Ignored(a.path) ==>
        && logs == old(Placed(a))
        && cursor != null && (cursor == old(cursor) || fresh(cursor))
        && current == (if old(Fits(RequestSize(a))) then old(current) else |logs| - 1)
        && cursor.position == |Layout(logs[current])|
      ensures (ok, Seen()) == SentView(old(Seen()), a, first, second)
      ensures
        || [47, 100, 101, 118, 47] <= a.path
        || [47, 112, 114, 111, 99, 47] <= a.path
        || [47, 115, 121, 115, 47] <= a.path ==>
          ok && sent == old(sent) && logs == old(logs)
      ensures
        && !([47, 100, 101, 118, 47] <= a.path)
        && !([47, 112, 114, 111, 99, 47] <= a.path)
        && !([47, 115, 121, 115, 47] <= a.path)
        && |a.path| <= 262137 && first.NoFault? && second.NoFault? ==>
          ok && Flatten(logs) == Flatten(old(logs)) + [a]
    {
      IgnoredExactly(a.path);
      hide Frame, Written, Layout, Flatten, Ignored, FilesWritten, Contents, ReservedView, PublishedView, SentView;
      SentIs(Seen(), a, first, second);
      FilesCount(sent, logs);
      if Ignored(a.path) {
        return true;
      }
      RequestFits(a);
      var start := Reserve(RequestSize(a), first, second);
      FlattenNothingPublished(old(logs), logs);
      if start.None? {
        FilesCount(sent, logs);
        return false;
      }
      ghost var k, reserved := current, logs;
      Publish(start.value, a);
      FlattenAppend(reserved, k, a);
      assert [] + [a] == [a];
      ok := true;
    }

    /** `reset_shm_atfork`: from here on every request needs a fresh chunk. */
    method ResetAtFork()
      requires Valid()
      modifies cursor
      ensures Valid() && forall len: nat :: len > 0 ==> !Fits(len)
      ensures Seen() == ResetView(old(Seen()))
    {
      hide FilesWritten;
      if cursor != null {
        cursor.position := cursor.mmap.Length;
      }
    }
  }

  /** Whatever was sent, forked or failed before, the supervisor reads back exactly what this client
      published, in order. */
  lemma SupervisorReads(c: Client, arenas: seq<seq<PathAccess>>)
    requires c.Valid()
    ensures ReadAll(Contents(c.sent), arenas) == Items(Flatten(c.logs) + Flatten(arenas))
  {
    hide ReadAll;
    FilesBefore(c.sent, c.logs);
    forall i | 0 <= i < |c.sent|
      ensures Holds(Contents(c.sent)[i], c.logs[i])
    {
    }
    ReadAllRecoversLogs(Contents(c.sent), c.logs, arenas);
  }
}
