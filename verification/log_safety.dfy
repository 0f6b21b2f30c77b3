/** What every step of the access-log machine keeps, and what follows for whole runs. */
module LogSafety {
  import opened Common
  import opened Bincode
  import opened PathAccesses
  import opened AccessLog
  import opened LogMachine

  // ---------------------------------------------------------------------------------------------
  // The invariant, part by part
  // ---------------------------------------------------------------------------------------------

  /** A chunk is not yet sized and empty, or it holds exactly the frames of its log. */
  ghost predicate ChunkOk(c: Chunk) {
    || (c.bytes == [] && c.log == [])
    || (|c.bytes| == CHUNK_SIZE && Holds(c.bytes, c.Records()))
  }

  ghost predicate ChunksOk(s: State) {
    forall c :: 0 <= c < |s.chunks| ==> ChunkOk(s.chunks[c])
  }

  /** A descriptor is sent at most once, and always before its chunk is sized. */
  ghost predicate QueueOk(s: State) {
    && (forall i :: 0 <= i < |s.queue| ==> s.queue[i] < |s.chunks|)
    && (forall i, j :: 0 <= i < j < |s.queue| ==> s.queue[i] != s.queue[j])
    && (forall c :: 0 <= c < |s.chunks| && s.chunks[c].bytes != [] ==> c in s.queue)
  }

  /** During a write the reservation starts where the frames end, the flag byte is still zero, the
      payload bytes written so far are right and everything behind the reservation is zero. */
  ghost predicate MidWrite(cursor: Cursor, a: PathAccess, start: nat, written: set<nat>, chunks: seq<Chunk>) {
    && CursorOk(cursor, chunks)
    && var b := chunks[cursor.chunk].bytes;
    && start == chunks[cursor.chunk].End()
    && cursor.position == start + |Frame(a)|
    && b[start] == 0
    && (forall i :: i in written ==> i < |Encode(a)| && b[start + 1 + i] == Encode(a)[i])
    && ZeroFrom(b, cursor.position)
  }

  ghost predicate FreshChunk(c: nat, stage: Stage, chunks: seq<Chunk>, queue: seq<nat>) {
    && c < |chunks|
    && chunks[c].log == []
    && (c in queue <==> stage != Opened)
    && (stage != Sized ==> chunks[c].bytes == [])
    && (stage == Sized ==> |chunks[c].bytes| == CHUNK_SIZE && AllZero(chunks[c].bytes))
  }

  ghost predicate ThreadOk(th: Thread, chunks: seq<Chunk>, queue: seq<nat>) {
    match th.pc
    case Writing(a, start, written) => th.tls.Some? && MidWrite(th.tls.value, a, start, written, chunks)
    case Creating(_, _, c, stage) =>
      (th.tls.Some? ==> AtRest(th.tls.value, chunks)) && FreshChunk(c, stage, chunks, queue)
    case Advancing(_, _) => th.tls.Some? && AtRest(th.tls.value, chunks)
    case Opening(_, _) => th.tls.Some? ==> AtRest(th.tls.value, chunks)
    case Idle => th.tls.Some? ==> AtRest(th.tls.value, chunks)
    case Ended => th.tls.Some? ==> if th.shared then CursorOk(th.tls.value, chunks) else AtRest(th.tls.value, chunks)
  }

  ghost predicate ThreadsOk(s: State) {
    forall t :: t in s.threads ==> t < s.nextTid && ThreadOk(s.threads[t], s.chunks, s.queue)
  }

  /** Single writer: no chunk is owned by two threads, of one process or of several. */
  ghost predicate Exclusive(s: State) {
    forall t, u, c :: t in s.threads && u in s.threads && t != u && Owns(s.threads[t], c) ==> !Owns(s.threads[u], c)
  }

  ghost predicate Mentions(log: seq<Event>, tid: nat) {
    exists i :: 0 <= i < |log| && log[i].writer == tid
  }

  /** Slot `tid` has published nothing in a chunk sent after chunk `c`. */
  ghost predicate NothingAfter(tid: nat, c: nat, chunks: seq<Chunk>, queue: seq<nat>) {
    forall i, j :: 0 <= i < j < |queue| && queue[i] == c && queue[j] < |chunks| ==> !Mentions(chunks[queue[j]].log, tid)
  }

  ghost predicate OrderedFor(tid: nat, th: Thread, chunks: seq<Chunk>, queue: seq<nat>) {
    && (th.tls.Some? ==> NothingAfter(tid, th.tls.value.chunk, chunks, queue))
    && (th.pc.Creating? && th.pc.stage != Opened ==> NothingAfter(tid, th.pc.chunk, chunks, queue))
  }

  ghost predicate OrderOk(s: State) {
    forall t :: t in s.threads ==> OrderedFor(t, s.threads[t], s.chunks, s.queue)
  }

  ghost predicate WritersKnown(s: State) {
    forall c, t :: 0 <= c < |s.chunks| && t >= s.nextTid ==> !Mentions(s.chunks[c].log, t)
  }

  ghost predicate ReaderOk(r: Reader, chunks: seq<Chunk>) {
    && r.chunk < |chunks|
    && var log := chunks[r.chunk].Records();
    && (r.length == 0 || r.length == |chunks[r.chunk].bytes| == CHUNK_SIZE)
    && |r.items| <= |log| && r.floor <= |log|
    && r.items == log[..|r.items|]
    && r.position == |Layout(r.items)|
    && (r.length == 0 ==> r.items == [] && r.floor == 0 && r.pc != AtRecord)
    && (r.pc == AtRecord ==> |r.items| < |log|)
    && (r.pc == Finished ==> r.floor <= |r.items|)
    && r.pc != Crashed
  }

  ghost predicate ReadersOk(s: State) {
    forall r :: r in s.readers ==> ReaderOk(s.readers[r], s.chunks)
  }

  // ---------------------------------------------------------------------------------------------
  // The history and what the supervisor will output
  // ---------------------------------------------------------------------------------------------

  /** The flag stores that went to chunk `c`, in order. */
  function StoredIn(history: seq<(nat, Event)>, c: nat): seq<Event> {
    if history == [] then []
    else
      var last := history[|history| - 1];
      StoredIn(history[..|history| - 1], c) + (if last.0 == c then [last.1] else [])
  }

  function Events(history: seq<(nat, Event)>): (r: seq<Event>)
    ensures |r| == |history|
  {
    seq(|history|, i requires 0 <= i < |history| => history[i].1)
  }

  /** The events of one slot, in order. */
  function By(log: seq<Event>, tid: nat): seq<Event> {
    if log == [] then [] else (if log[0].writer == tid then [log[0]] else []) + By(log[1..], tid)
  }

  function SentLogs(chunks: seq<Chunk>, queue: seq<nat>): (r: seq<seq<Event>>)
    requires forall i :: 0 <= i < |queue| ==> queue[i] < |chunks|
    ensures |r| == |queue|
    ensures forall i :: 0 <= i < |queue| ==> r[i] == chunks[queue[i]].log
  {
    seq(|queue|, i requires 0 <= i < |queue| => chunks[queue[i]].log)
  }

  /** The logs of all sent chunks, one after the other in the order the descriptors were sent. */
  function Output(chunks: seq<Chunk>, queue: seq<nat>): seq<Event>
    requires forall i :: 0 <= i < |queue| ==> queue[i] < |chunks|
  {
    Flatten(SentLogs(chunks, queue))
  }

  ghost predicate HistoryOk(s: State)
    requires QueueOk(s)
  {
    && (forall i :: 0 <= i < |s.history| ==> s.history[i].0 < |s.chunks|)
    && (forall c :: 0 <= c < |s.chunks| ==> s.chunks[c].log == StoredIn(s.history, c))
    && multiset(Output(s.chunks, s.queue)) == multiset(Events(s.history))
    && (forall t: nat :: By(Output(s.chunks, s.queue), t) == By(Events(s.history), t))
  }

  ghost predicate Inv(s: State) {
    && ChunksOk(s)
    && QueueOk(s)
    && ThreadsOk(s)
    && Exclusive(s)
    && OrderOk(s)
    && WritersKnown(s)
    && ReadersOk(s)
    && HistoryOk(s)
  }

  // ---------------------------------------------------------------------------------------------
  // Sequence facts
  // ---------------------------------------------------------------------------------------------

  lemma {:induction false} ByConcat(a: seq<Event>, b: seq<Event>, tid: nat)
    ensures By(a + b, tid) == By(a, tid) + By(b, tid)
  {
    if a == [] {
      assert a + b == b;
    } else {
      var first := if a[0].writer == tid then [a[0]] else [];
      ByConcat(a[1..], b, tid);
      assert (a + b)[1..] == a[1..] + b;
      assert By(a + b, tid) == first + By(a[1..] + b, tid);
      assert By(a, tid) == first + By(a[1..], tid);
    }
  }

  lemma {:induction false} ByNobody(log: seq<Event>, tid: nat)
    requires !Mentions(log, tid)
    ensures By(log, tid) == []
  {
    if log != [] {
      assert log[0].writer != tid;
      assert forall i :: 0 <= i < |log[1..]| ==> log[1..][i] == log[i + 1];
      ByNobody(log[1..], tid);
    }
  }

  lemma {:induction false} ByNobodyFlat(logs: seq<seq<Event>>, tid: nat)
    requires forall i :: 0 <= i < |logs| ==> !Mentions(logs[i], tid)
    ensures By(Flatten(logs), tid) == []
  {
    if logs != [] {
      ByNobody(logs[0], tid);
      ByNobodyFlat(logs[1..], tid);
      ByConcat(logs[0], Flatten(logs[1..]), tid);
    }
  }

  lemma EventsAppend(history: seq<(nat, Event)>, c: nat, e: Event)
    ensures Events(history + [(c, e)]) == Events(history) + [e]
  {
  }

  lemma AccessesAppend(log: seq<Event>, e: Event)
    ensures Accesses(log + [e]) == Accesses(log) + [e.access]
  {
  }

  lemma {:induction false} StoredInNone(history: seq<(nat, Event)>, c: nat)
    requires forall i :: 0 <= i < |history| ==> history[i].0 != c
    ensures StoredIn(history, c) == []
  {
    if history != [] {
      StoredInNone(history[..|history| - 1], c);
    }
  }

  lemma StoredInAppend(history: seq<(nat, Event)>, at: nat, e: Event, c: nat)
    ensures StoredIn(history + [(at, e)], c) == StoredIn(history, c) + (if at == c then [e] else [])
  {
    assert (history + [(at, e)])[..|history|] == history;
  }

  // ---------------------------------------------------------------------------------------------
  // Steps that change threads only
  // ---------------------------------------------------------------------------------------------

  ghost predicate OwnedByNone(s: State, c: nat) {
    forall t :: t in s.threads ==> !Owns(s.threads[t], c)
  }

  lemma UntouchedHistory(s: State, s': State)
    requires QueueOk(s) && HistoryOk(s)
    requires s'.chunks == s.chunks && s'.queue == s.queue && s'.history == s.history
    ensures QueueOk(s') && HistoryOk(s')
  {
  }

  lemma ReplaceThread(s: State, tid: nat, th: Thread)
    requires Inv(s) && tid in s.threads
    requires ThreadOk(th, s.chunks, s.queue) && OrderedFor(tid, th, s.chunks, s.queue)
    requires forall c :: Owns(th, c) ==> Owns(s.threads[tid], c) || OwnedByNone(s, c)
    ensures Inv(SetThread(s, tid, th))
  {
    hide ThreadOk, OrderedFor, Owns, HistoryOk, ReaderOk, ChunkOk;
    var s' := SetThread(s, tid, th);
    UntouchedHistory(s, s');
    assert forall u, c :: u in s.threads && u != tid && Owns(s.threads[u], c) ==> !Owns(th, c);
  }

  lemma AddThread(s: State, th: Thread)
    requires Inv(s)
    requires ThreadOk(th, s.chunks, s.queue) && !th.pc.Creating?
    requires forall c :: !Owns(th, c)
    ensures Inv(AddSlot(s, th))
  {
    hide ThreadOk, Owns, HistoryOk, ReaderOk, ChunkOk;
    var s' := AddSlot(s, th);
    UntouchedHistory(s, s');
  }

  lemma RemoveProcess(s: State, pid: nat)
    requires Inv(s)
    ensures Inv(s.(threads := WithoutProcess(s, pid)))
  {
    hide ThreadOk, Owns, HistoryOk, ReaderOk, ChunkOk, OrderedFor;
    var s' := s.(threads := WithoutProcess(s, pid));
    UntouchedHistory(s, s');
  }

  lemma AdvanceKeeps(s: State, tid: nat)
    requires Inv(s) && Enabled(s, Advance(tid))
    ensures Inv(Step(s, Advance(tid)))
  {
    hide Frame, Layout, Encode, HistoryOk;
    var th := s.threads[tid];
    var th' := AdvanceThread(th, |s.chunks[th.tls.value.chunk].bytes|);
    assert ThreadOk(th, s.chunks, s.queue);
    assert ThreadOk(th', s.chunks, s.queue);
    ReplaceThread(s, tid, th');
  }

  lemma MapChunkKeeps(s: State, tid: nat)
    requires Inv(s) && Enabled(s, MapChunk(tid))
    ensures Inv(Step(s, MapChunk(tid)))
  {
    hide Frame, Encode, HistoryOk;
    var th := s.threads[tid];
    var th' := Thread(th.pid, Some(Cursor(th.pc.chunk, 0)), Advancing(th.pc.access, th.pc.replacing), false);
    assert ThreadOk(th, s.chunks, s.queue) && OrderedFor(tid, th, s.chunks, s.queue);
    assert s.chunks[th.pc.chunk].End() == 0;
    ReplaceThread(s, tid, th');
  }

  /** Copied slots come behind the ones that are there. */
  lemma {:induction false} AddEndedAdds(s: State, pid: nat, slots: seq<Option<Cursor>>)
    ensures var s' := AddEnded(s, pid, slots);
      && s'.nextTid == s.nextTid + |slots|
      && (forall t :: t in s.threads && t < s.nextTid ==> t in s'.threads && s'.threads[t] == s.threads[t])
      && (forall t :: s.nextTid <= t < s'.nextTid ==>
            t in s'.threads && s'.threads[t] == Thread(pid, slots[t - s.nextTid], Ended, true))
      && (forall t :: t in s'.threads ==> t in s.threads || s.nextTid <= t < s'.nextTid)
    decreases |slots|
  {
    if slots != [] {
      AddEndedAdds(AddSlot(s, Thread(pid, slots[0], Ended, true)), pid, slots[1..]);
    }
  }

  lemma ShareOnly(s: State, ended: seq<nat>)
    ensures Share(s, ended) == s.(threads := Share(s, ended).threads)
    ensures Share(s, ended).threads.Keys == s.threads.Keys
    ensures forall t :: t in s.threads ==>
      Share(s, ended).threads[t] == if t in ended then s.threads[t].(shared := true) else s.threads[t]
  {
  }

  /** What a fork does to the slots. */
  lemma ForkAdds(s: State, tid: nat, childPid: nat, ended: seq<nat>)
    requires Enabled(s, Fork(tid, childPid, ended))
    ensures var s' := Step(s, Fork(tid, childPid, ended));
      && s' == s.(threads := s'.threads, nextTid := s'.nextTid)
      && s'.nextTid == s.nextTid + 1 + |ended|
      && (forall t :: t in s.threads && t < s.nextTid ==>
            t in s'.threads && s'.threads[t] == if t in ended then s.threads[t].(shared := true) else s.threads[t])
      && s.nextTid in s'.threads
      && s'.threads[s.nextTid] == Thread(childPid, ForkedCursor(s, s.threads[tid].tls), Idle, false)
      && (forall t :: s.nextTid < t < s'.nextTid ==>
            t in s'.threads
            && s'.threads[t] == Thread(childPid, s.threads[ended[t - s.nextTid - 1]].tls, Ended, true))
      && (forall t :: t in s'.threads ==> t in s.threads || s.nextTid <= t < s'.nextTid)
  {
    hide Share, AddEnded, ForkedCursor;
    ShareOnly(s, ended);
    var child := Thread(childPid, ForkedCursor(s, s.threads[tid].tls), Idle, false);
    AddEndedAdds(AddSlot(Share(s, ended), child), childPid, SlotsOf(s, ended));
  }

  /** Shared slots of ended threads own nothing. */
  lemma ShareKeeps(s: State, ended: seq<nat>)
    requires Inv(s)
    requires forall i :: 0 <= i < |ended| ==> ended[i] in s.threads && s.threads[ended[i]].pc.Ended?
    ensures Inv(Share(s, ended))
  {
    hide HistoryOk, ReaderOk, ChunkOk;
    var s' := Share(s, ended);
    UntouchedHistory(s, s');
    forall t | t in s'.threads
      ensures t < s'.nextTid && ThreadOk(s'.threads[t], s'.chunks, s'.queue)
      ensures OrderedFor(t, s'.threads[t], s'.chunks, s'.queue)
      ensures forall c :: Owns(s'.threads[t], c) ==> Owns(s.threads[t], c)
    {
      assert ThreadOk(s.threads[t], s.chunks, s.queue) && OrderedFor(t, s.threads[t], s.chunks, s.queue);
    }
    hide Owns, ThreadOk, OrderedFor;
  }

  /** Copied slots own nothing. */
  lemma {:induction false} AddEndedKeeps(s: State, pid: nat, slots: seq<Option<Cursor>>)
    requires Inv(s)
    requires forall i :: 0 <= i < |slots| && slots[i].Some? ==> CursorOk(slots[i].value, s.chunks)
    ensures Inv(AddEnded(s, pid, slots))
    decreases |slots|
  {
    hide Inv, CursorOk;
    if slots != [] {
      AddThread(s, Thread(pid, slots[0], Ended, true));
      AddEndedKeeps(AddSlot(s, Thread(pid, slots[0], Ended, true)), pid, slots[1..]);
    }
  }

  /** The child of a fork owns nothing: its copied cursor has no room left, and the slots copied with it are
      not in use. */
  lemma ForkKeeps(s: State, tid: nat, childPid: nat, ended: seq<nat>)
    requires Inv(s) && Enabled(s, Fork(tid, childPid, ended))
    ensures Inv(Step(s, Fork(tid, childPid, ended)))
  {
    CursorsOk(s, tid);
    forall i | 0 <= i < |ended|
      ensures s.threads[ended[i]].tls.Some? ==> CursorOk(s.threads[ended[i]].tls.value, s.chunks)
    {
      CursorsOk(s, ended[i]);
    }
    hide Inv, Share;
    var th := Thread(childPid, ForkedCursor(s, s.threads[tid].tls), Idle, false);
    ShareKeeps(s, ended);
    ShareOnly(s, ended);
    AddThread(Share(s, ended), th);
    AddEndedKeeps(AddSlot(Share(s, ended), th), childPid, SlotsOf(s, ended));
  }

  lemma CursorsOk(s: State, tid: nat)
    requires Inv(s) && tid in s.threads
    ensures s.threads[tid].tls.Some? ==> CursorOk(s.threads[tid].tls.value, s.chunks)
  {
    hide HistoryOk, ChunksOk, ReadersOk, OrderOk, Exclusive, WritersKnown, Layout, Encode;
    assert ThreadOk(s.threads[tid], s.chunks, s.queue);
  }

  lemma EndKeeps(s: State, tid: nat)
    requires Inv(s) && tid in s.threads && s.threads[tid].pc.Idle?
    ensures Inv(SetPc(s, tid, Ended))
  {
    hide Layout, HistoryOk, ChunksOk, ReadersOk;
    var th := s.threads[tid];
    assert ThreadOk(th, s.chunks, s.queue) && OrderedFor(tid, th, s.chunks, s.queue);
    ReplaceThread(s, tid, th.(pc := Ended));
  }

  lemma ReuseKeeps(s: State, tid: nat)
    requires Inv(s) && Enabled(s, ReuseSlot(tid)) && SafeReuse(s, ReuseSlot(tid))
    ensures Inv(SetPc(s, tid, Idle))
  {
    hide Layout, HistoryOk, ChunksOk, ReadersOk;
    var th := s.threads[tid];
    assert ThreadOk(th, s.chunks, s.queue) && OrderedFor(tid, th, s.chunks, s.queue);
    ReplaceThread(s, tid, th.(pc := Idle));
  }

  lemma ExecKeeps(s: State, pid: nat)
    requires Inv(s) && Enabled(s, Exec(pid))
    ensures Inv(Step(s, Exec(pid)))
  {
    RemoveProcess(s, pid);
    AddThread(s.(threads := WithoutProcess(s, pid)), Thread(pid, None, Idle, false));
  }

  // ---------------------------------------------------------------------------------------------
  // Steps that change a chunk but no log
  // ---------------------------------------------------------------------------------------------

  /** Only bytes of chunk `c` differ. */
  ghost predicate SameLogs(chunks: seq<Chunk>, chunks': seq<Chunk>) {
    |chunks'| == |chunks| && forall i :: 0 <= i < |chunks| ==> chunks'[i].log == chunks[i].log
  }

  lemma SameLogsKeepHistory(s: State, s': State)
    requires QueueOk(s) && HistoryOk(s)
    requires SameLogs(s.chunks, s'.chunks) && s'.queue == s.queue && s'.history == s.history
    requires QueueOk(s')
    ensures HistoryOk(s')
  {
    assert SentLogs(s'.chunks, s'.queue) == SentLogs(s.chunks, s.queue);
  }

  /** A thread that does not own chunk `c` does not notice that its bytes change, as long as a sized
      chunk keeps its size. */
  lemma OtherThreadUnaffected(th: Thread, chunks: seq<Chunk>, queue: seq<nat>, c: nat, chunk': Chunk)
    requires c < |chunks| && ThreadOk(th, chunks, queue) && !Owns(th, c)
    requires |chunks[c].bytes| == CHUNK_SIZE ==> |chunk'.bytes| == CHUNK_SIZE
    ensures ThreadOk(th, chunks[c := chunk'], queue)
  {
    hide Frame, Layout, Encode;
  }

  lemma OtherOrderUnaffected(tid: nat, th: Thread, chunks: seq<Chunk>, chunks': seq<Chunk>, queue: seq<nat>)
    requires OrderedFor(tid, th, chunks, queue) && SameLogs(chunks, chunks')
    ensures OrderedFor(tid, th, chunks', queue)
  {
  }

  /** A thread may change the bytes of a chunk it owns. */
  lemma ChangeBytes(s: State, tid: nat, c: nat, chunk': Chunk, th': Thread)
    requires Inv(s) && tid in s.threads && c < |s.chunks| && Owns(s.threads[tid], c)
    requires chunk'.log == s.chunks[c].log && ChunkOk(chunk')
    requires |s.chunks[c].bytes| == CHUNK_SIZE ==> |chunk'.bytes| == CHUNK_SIZE
    requires chunk'.bytes != [] ==> c in s.queue
    requires ThreadOk(th', s.chunks[c := chunk'], s.queue) && OrderedFor(tid, th', s.chunks, s.queue)
    requires forall d :: Owns(th', d) ==> Owns(s.threads[tid], d)
    ensures Inv(SetThread(SetChunk(s, c, chunk'), tid, th'))
  {
    hide HistoryOk, ThreadOk, OrderedFor, Owns, ChunkOk, ReaderOk;
    var s' := SetThread(SetChunk(s, c, chunk'), tid, th');
    assert SameLogs(s.chunks, s'.chunks);
    SameLogsKeepHistory(s, s');
    forall t | t in s'.threads
      ensures t < s'.nextTid && ThreadOk(s'.threads[t], s'.chunks, s'.queue)
    {
      if t != tid {
        OtherThreadUnaffected(s.threads[t], s.chunks, s.queue, c, chunk');
      }
    }
    forall t | t in s'.threads
      ensures OrderedFor(t, s'.threads[t], s'.chunks, s'.queue)
    {
      OtherOrderUnaffected(t, s'.threads[t], s.chunks, s'.chunks, s.queue);
    }
    forall r | r in s'.readers
      ensures ReaderOk(s'.readers[r], s'.chunks)
    {
      ReaderSeesBytes(s.readers[r], s.chunks, c, chunk');
    }
  }

  lemma ReaderSeesBytes(r: Reader, chunks: seq<Chunk>, c: nat, chunk': Chunk)
    requires ReaderOk(r, chunks) && c < |chunks| && chunk'.log == chunks[c].log
    requires |chunks[c].bytes| == CHUNK_SIZE ==> |chunk'.bytes| == CHUNK_SIZE
    ensures ReaderOk(r, chunks[c := chunk'])
  {
  }

  lemma TruncateKeeps(s: State, tid: nat)
    requires Inv(s) && Enabled(s, Truncate(tid))
    ensures Inv(Step(s, Truncate(tid)))
  {
    hide HistoryOk, Frame, Encode;
    var th := s.threads[tid];
    var c := th.pc.chunk;
    var chunk' := s.chunks[c].(bytes := Zeros(CHUNK_SIZE));
    var th' := th.(pc := th.pc.(stage := Sized));
    assert ThreadOk(th, s.chunks, s.queue) && OrderedFor(tid, th, s.chunks, s.queue);
    assert chunk'.Records() == [] && Layout([]) == [];
    ChangeBytes(s, tid, c, chunk', th');
    assert SetThread(SetChunk(s, c, chunk'), tid, th') == Step(s, Truncate(tid));
  }

  /** A payload byte lands behind the flag byte and inside the reservation. */
  lemma PayloadByte(
    cursor: Cursor, a: PathAccess, start: nat, written: set<nat>, chunks: seq<Chunk>, index: nat, chunk': Chunk)
    requires MidWrite(cursor, a, start, written, chunks) && ChunkOk(chunks[cursor.chunk]) && index < |Encode(a)|
    requires cursor.position <= |chunks[cursor.chunk].bytes|
    requires chunk' == chunks[cursor.chunk].(bytes := chunks[cursor.chunk].bytes[start + 1 + index := Encode(a)[index]])
    ensures ChunkOk(chunk') && |chunk'.bytes| == CHUNK_SIZE
    ensures MidWrite(cursor, a, start, written + {index}, chunks[cursor.chunk := chunk'])
  {
    hide Layout, Encode, Accesses;
    assert chunk'.Records() == chunks[cursor.chunk].Records();
  }

  lemma WriteByteKeeps(s: State, tid: nat, index: nat)
    requires Inv(s) && Enabled(s, WriteByte(tid, index))
    ensures Inv(Step(s, WriteByte(tid, index)))
  {
    hide HistoryOk, Layout, Encode, ChunkOk, MidWrite, ReaderOk;
    var th := s.threads[tid];
    var c := th.tls.value.chunk;
    var at := th.pc.start + 1 + index;
    assert ThreadOk(th, s.chunks, s.queue) && OrderedFor(tid, th, s.chunks, s.queue);
    var chunk' := s.chunks[c].(bytes := s.chunks[c].bytes[at := Encode(th.pc.access)[index]]);
    WriterCursor(th.tls.value, th.pc.access, th.pc.start, th.pc.written, s.chunks);
    PayloadByte(th.tls.value, th.pc.access, th.pc.start, th.pc.written, s.chunks, index, chunk');
    ChangeBytes(s, tid, c, chunk', th.(pc := th.pc.(written := th.pc.written + {index})));
  }

  lemma WriterCursor(cursor: Cursor, a: PathAccess, start: nat, written: set<nat>, chunks: seq<Chunk>)
    requires MidWrite(cursor, a, start, written, chunks)
    ensures cursor.position <= |chunks[cursor.chunk].bytes| == CHUNK_SIZE
  {
  }

  // ---------------------------------------------------------------------------------------------
  // Creating a chunk and sending its descriptor
  // ---------------------------------------------------------------------------------------------

  lemma ThreadSeesNewChunk(th: Thread, chunks: seq<Chunk>, queue: seq<nat>, chunk: Chunk)
    requires ThreadOk(th, chunks, queue)
    ensures ThreadOk(th, chunks + [chunk], queue)
    ensures !Owns(th, |chunks|)
  {
    hide Frame, Layout, Encode;
  }

  lemma OrderSeesNewChunk(tid: nat, th: Thread, chunks: seq<Chunk>, queue: seq<nat>)
    requires OrderedFor(tid, th, chunks, queue)
    requires forall i :: 0 <= i < |queue| ==> queue[i] < |chunks|
    ensures OrderedFor(tid, th, chunks + [Chunk([], [])], queue)
  {
  }

  lemma OpenShmHistory(s: State, s': State)
    requires QueueOk(s) && HistoryOk(s)
    requires s'.chunks == s.chunks + [Chunk([], [])] && s'.queue == s.queue && s'.history == s.history
    ensures QueueOk(s') && HistoryOk(s')
  {
    hide By, Flatten, Events, StoredIn;
    assert QueueOk(s');
    assert SentLogs(s'.chunks, s'.queue) == SentLogs(s.chunks, s.queue);
    assert Output(s'.chunks, s'.queue) == Output(s.chunks, s.queue);
    StoredInNone(s.history, |s.chunks|);
  }

  /** A new, unsent, empty chunk appears; nobody owns it yet. */
  lemma ChunkAppears(s: State)
    requires Inv(s)
    ensures Inv(s.(chunks := s.chunks + [Chunk([], [])])) && OwnedByNone(s, |s.chunks|)
  {
    hide HistoryOk, Holds, Owns, ThreadOk, OrderedFor, ReaderOk;
    var s' := s.(chunks := s.chunks + [Chunk([], [])]);
    OpenShmHistory(s, s');
    forall t | t in s.threads
      ensures ThreadOk(s.threads[t], s'.chunks, s'.queue) && OrderedFor(t, s.threads[t], s'.chunks, s'.queue)
      ensures !Owns(s.threads[t], |s.chunks|)
    {
      ThreadSeesNewChunk(s.threads[t], s.chunks, s.queue, Chunk([], []));
      OrderSeesNewChunk(t, s.threads[t], s.chunks, s.queue);
    }
    forall r | r in s.readers
      ensures ReaderOk(s.readers[r], s'.chunks)
    {
      ReaderSeesNewChunk(s.readers[r], s.chunks);
    }
  }

  lemma ReaderSeesNewChunk(r: Reader, chunks: seq<Chunk>)
    requires ReaderOk(r, chunks)
    ensures ReaderOk(r, chunks + [Chunk([], [])])
  {
  }

  lemma OpenerThread(tid: nat, th: Thread, chunks: seq<Chunk>, queue: seq<nat>)
    requires ThreadOk(th, chunks, queue) && OrderedFor(tid, th, chunks, queue) && th.pc.Opening?
    requires forall i :: 0 <= i < |queue| ==> queue[i] < |chunks|
    ensures var th' := th.(pc := Creating(th.pc.access, th.pc.replacing, |chunks|, Opened));
      && ThreadOk(th', chunks + [Chunk([], [])], queue)
      && OrderedFor(tid, th', chunks + [Chunk([], [])], queue)
      && forall d :: Owns(th', d) ==> Owns(th, d) || d == |chunks|
  {
    hide Frame, Layout, Encode;
  }

  lemma OpenShmKeeps(s: State, tid: nat)
    requires Inv(s) && Enabled(s, OpenShm(tid))
    ensures Inv(Step(s, OpenShm(tid)))
  {
    hide HistoryOk, ChunkOk, ReaderOk, ThreadOk, OrderedFor, Owns;
    var th := s.threads[tid];
    ChunkAppears(s);
    OpenerThread(tid, th, s.chunks, s.queue);
    ReplaceThread(s.(chunks := s.chunks + [Chunk([], [])]), tid,
                  th.(pc := Creating(th.pc.access, th.pc.replacing, |s.chunks|, Opened)));
  }

  lemma SendFdHistory(s: State, s': State, c: nat)
    requires QueueOk(s) && HistoryOk(s)
    requires c < |s.chunks| && c !in s.queue && s.chunks[c].log == []
    requires s'.chunks == s.chunks && s'.queue == s.queue + [c] && s'.history == s.history
    ensures QueueOk(s') && HistoryOk(s')
  {
    assert QueueOk(s');
    assert SentLogs(s'.chunks, s'.queue) == SentLogs(s.chunks, s.queue) + [[]];
    FlattenConcat(SentLogs(s.chunks, s.queue), [[]]);
    assert Output(s'.chunks, s'.queue) == Output(s.chunks, s.queue);
  }

  lemma ThreadSeesSend(tid: nat, th: Thread, chunks: seq<Chunk>, queue: seq<nat>, c: nat)
    requires ThreadOk(th, chunks, queue) && OrderedFor(tid, th, chunks, queue)
    requires !(th.pc.Creating? && th.pc.chunk == c)
    requires c < |chunks| && chunks[c].log == []
    ensures ThreadOk(th, chunks, queue + [c]) && OrderedFor(tid, th, chunks, queue + [c])
  {
    hide Frame, Layout, Encode;
  }

  lemma SenderAdvances(tid: nat, th: Thread, chunks: seq<Chunk>, queue: seq<nat>)
    requires ThreadOk(th, chunks, queue) && OrderedFor(tid, th, chunks, queue)
    requires th.pc.Creating? && th.pc.stage == Opened
    ensures var th' := th.(pc := th.pc.(stage := Sent));
      ThreadOk(th', chunks, queue + [th.pc.chunk]) && OrderedFor(tid, th', chunks, queue + [th.pc.chunk])
  {
    hide Frame, Layout, Encode;
  }

  lemma SenderFacts(s: State, tid: nat, t: nat)
    requires Inv(s) && Enabled(s, SendFd(tid)) && t in s.threads && t != tid
    ensures !(s.threads[t].pc.Creating? && s.threads[t].pc.chunk == s.threads[tid].pc.chunk)
  {
    hide ThreadOk, HistoryOk, ChunkOk, ReaderOk, OrderedFor;
    assert Owns(s.threads[tid], s.threads[tid].pc.chunk);
  }

  lemma SenderOwns(th: Thread)
    requires th.pc.Creating?
    ensures forall d :: Owns(th.(pc := th.pc.(stage := Sent)), d) <==> Owns(th, d)
  {
  }

  lemma SenderChunk(th: Thread, chunks: seq<Chunk>, queue: seq<nat>)
    requires ThreadOk(th, chunks, queue) && th.pc.Creating? && th.pc.stage == Opened
    ensures th.pc.chunk < |chunks| && th.pc.chunk !in queue && chunks[th.pc.chunk].log == []
  {
  }

  lemma SendFdKeeps(s: State, tid: nat)
    requires Inv(s) && Enabled(s, SendFd(tid))
    ensures Inv(Step(s, SendFd(tid)))
  {
    hide HistoryOk, ChunkOk, ReaderOk, ThreadOk, OrderedFor, Owns;
    var s' := Step(s, SendFd(tid));
    var th := s.threads[tid];
    var c := th.pc.chunk;
    SenderChunk(th, s.chunks, s.queue);
    SendFdHistory(s, s', c);
    SenderAdvances(tid, th, s.chunks, s.queue);
    SenderOwns(th);
    forall t | t in s.threads
      ensures ThreadOk(s'.threads[t], s'.chunks, s'.queue)
      ensures OrderedFor(t, s'.threads[t], s'.chunks, s'.queue)
    {
      if t != tid {
        SenderFacts(s, tid, t);
        ThreadSeesSend(t, s.threads[t], s.chunks, s.queue, c);
      }
    }
  }

  // ---------------------------------------------------------------------------------------------
  // Publishing
  // ---------------------------------------------------------------------------------------------

  /** Storing the flag turns the written reservation into one more frame. */
  lemma FlagPublishes(
    chunks: seq<Chunk>, cursor: Cursor, a: PathAccess, start: nat, written: set<nat>, chunk': Chunk, tid: nat)
    requires MidWrite(cursor, a, start, written, chunks) && ChunkOk(chunks[cursor.chunk])
    requires forall i: nat :: i < |Encode(a)| ==> i in written
    requires chunk' == Chunk(chunks[cursor.chunk].bytes[start := 1], chunks[cursor.chunk].log + [Event(tid, a)])
    ensures ChunkOk(chunk') && chunk'.Records() == chunks[cursor.chunk].Records() + [a]
    ensures |chunk'.bytes| == CHUNK_SIZE
    ensures chunk'.End() == cursor.position && ZeroFrom(chunk'.bytes, cursor.position)
  {
    hide Layout, Encode;
    var chunk := chunks[cursor.chunk];
    AccessesAppend(chunk.log, Event(tid, a));
    LayoutAppend(chunk.Records(), a);
    var b, b' := chunk.bytes, chunk'.bytes;
    var end := start + |Frame(a)|;
    assert b'[start + 1..end] == Encode(a) by {
      forall i | 0 <= i < |Encode(a)|
        ensures b'[start + 1 + i] == Encode(a)[i]
      {
        assert i in written;
      }
    }
    assert b'[start..end] == Frame(a);
    assert b'[..start] == b[..start] == Layout(chunk.Records());
    assert b'[..end] == b'[..start] + b'[start..end];
  }

  /** Appending an event to the `k`-th log, when later logs hold nothing of its writer. */
  lemma FlattenGrows(logs: seq<seq<Event>>, k: nat, e: Event, tid: nat)
    requires k < |logs|
    requires forall i :: k < i < |logs| ==> !Mentions(logs[i], e.writer)
    ensures multiset(Flatten(logs[k := logs[k] + [e]])) == multiset(Flatten(logs)) + multiset{e}
    ensures By(Flatten(logs[k := logs[k] + [e]]), tid) == By(Flatten(logs), tid) + By([e], tid)
  {
    hide Mentions, Flatten;
    var logs' := logs[k := logs[k] + [e]];
    var before, after := Flatten(logs[..k]) + logs[k], Flatten(logs[k + 1..]);
    assert logs'[..k] == logs[..k] && logs'[k + 1..] == logs[k + 1..];
    FlattenAround(logs, k);
    FlattenAround(logs', k);
    assert Flatten(logs[..k]) + (logs[k] + [e]) + after == before + [e] + after;
    ByConcat(before, after, tid);
    ByConcat(before + [e], after, tid);
    ByConcat(before, [e], tid);
    if tid == e.writer {
      var later := logs[k + 1..];
      assert forall i :: 0 <= i < |later| ==> later[i] == logs[k + 1 + i];
      ByNobodyFlat(later, tid);
    }
  }

  /** The output grows by the event, at the end of what its writer had published. */
  lemma OutputGrows(chunks: seq<Chunk>, queue: seq<nat>, c: nat, e: Event, chunk': Chunk, tid: nat)
    requires forall i :: 0 <= i < |queue| ==> queue[i] < |chunks|
    requires forall i, j :: 0 <= i < j < |queue| ==> queue[i] != queue[j]
    requires c < |chunks| && c in queue && chunk'.log == chunks[c].log + [e]
    requires NothingAfter(e.writer, c, chunks, queue)
    ensures multiset(Output(chunks[c := chunk'], queue)) == multiset(Output(chunks, queue)) + multiset{e}
    ensures By(Output(chunks[c := chunk'], queue), tid) == By(Output(chunks, queue), tid) + By([e], tid)
  {
    hide Flatten, By;
    var k :| 0 <= k < |queue| && queue[k] == c;
    var logs := SentLogs(chunks, queue);
    assert SentLogs(chunks[c := chunk'], queue) == logs[k := logs[k] + [e]];
    forall i | k < i < |logs|
      ensures !Mentions(logs[i], e.writer)
    {
      assert logs[i] == chunks[queue[i]].log;
    }
    FlattenGrows(logs, k, e, tid);
  }

  lemma StoreFlagHistory(s: State, s': State, c: nat, e: Event)
    requires QueueOk(s) && HistoryOk(s)
    requires c < |s.chunks| && c in s.queue && NothingAfter(e.writer, c, s.chunks, s.queue)
    requires s'.queue == s.queue && s'.history == s.history + [(c, e)]
    requires |s'.chunks| == |s.chunks| && s'.chunks == s.chunks[c := s'.chunks[c]]
    requires s'.chunks[c].log == s.chunks[c].log + [e]
    ensures QueueOk(s') && HistoryOk(s')
  {
    hide By, Flatten, Mentions, Output;
    assert QueueOk(s');
    EventsAppend(s.history, c, e);
    forall d | 0 <= d < |s'.chunks|
      ensures s'.chunks[d].log == StoredIn(s'.history, d)
    {
      StoredInAppend(s.history, c, e, d);
    }
    OutputGrows(s.chunks, s.queue, c, e, s'.chunks[c], 0);
    forall t: nat
      ensures By(Output(s'.chunks, s'.queue), t) == By(Events(s'.history), t)
    {
      OutputGrows(s.chunks, s.queue, c, e, s'.chunks[c], t);
      ByConcat(Events(s.history), [e], t);
    }
  }

  lemma MentionsAppend(log: seq<Event>, e: Event, t: nat)
    ensures Mentions(log + [e], t) <==> Mentions(log, t) || e.writer == t
  {
    if e.writer == t {
      assert (log + [e])[|log|].writer == t;
    }
    if Mentions(log, t) {
      var i :| 0 <= i < |log| && log[i].writer == t;
      assert (log + [e])[i].writer == t;
    }
  }

  lemma NothingAfterPublish(
    t: nat, d: nat, chunks: seq<Chunk>, queue: seq<nat>, c: nat, e: Event, chunk': Chunk)
    requires NothingAfter(t, d, chunks, queue)
    requires forall i, j :: 0 <= i < j < |queue| ==> queue[i] != queue[j]
    requires c < |chunks| && chunk'.log == chunks[c].log + [e]
    requires e.writer != t || d == c
    ensures NothingAfter(t, d, chunks[c := chunk'], queue)
  {
    MentionsAppend(chunks[c].log, e, t);
  }

  lemma ReaderSeesPublish(r: Reader, chunks: seq<Chunk>, c: nat, a: PathAccess, chunk': Chunk)
    requires ReaderOk(r, chunks) && c < |chunks|
    requires chunk'.Records() == chunks[c].Records() + [a]
    requires |chunk'.bytes| == |chunks[c].bytes|
    ensures ReaderOk(r, chunks[c := chunk'])
  {
    hide Layout, Accesses;
  }

  lemma WriterOwns(th: Thread)
    requires th.pc.Writing? && th.tls.Some?
    ensures Owns(th, th.tls.value.chunk)
  {
  }

  /** What storing the flag leaves of every thread. */
  lemma StoreFlagThread(s: State, tid: nat, t: nat)
    requires Inv(s) && Enabled(s, StoreFlag(tid)) && t in s.threads
    requires var s' := Step(s, StoreFlag(tid));
      |s'.chunks[s.threads[tid].tls.value.chunk].bytes| == CHUNK_SIZE
      && ThreadOk(s'.threads[tid], s'.chunks, s'.queue)
    ensures var s' := Step(s, StoreFlag(tid));
      ThreadOk(s'.threads[t], s'.chunks, s'.queue) && OrderedFor(t, s'.threads[t], s'.chunks, s'.queue)
  {
    hide ThreadOk, Owns, HistoryOk, ChunkOk, ReaderOk, Mentions, Encode, Frame, NothingAfter;
    var s' := Step(s, StoreFlag(tid));
    var th := s.threads[t];
    var c := s.threads[tid].tls.value.chunk;
    var e := Event(tid, s.threads[tid].pc.access);
    if t != tid {
      WriterOwns(s.threads[tid]);
      OtherThreadUnaffected(th, s.chunks, s.queue, c, s'.chunks[c]);
    }
    if th.tls.Some? {
      NothingAfterPublish(t, th.tls.value.chunk, s.chunks, s.queue, c, e, s'.chunks[c]);
    }
    if t != tid && th.pc.Creating? && th.pc.stage != Opened {
      NothingAfterPublish(t, th.pc.chunk, s.chunks, s.queue, c, e, s'.chunks[c]);
    }
  }

  lemma StoreFlagKeeps(s: State, tid: nat)
    requires Inv(s) && Enabled(s, StoreFlag(tid))
    ensures Inv(Step(s, StoreFlag(tid)))
  {
    hide HistoryOk, Layout, Encode, Frame, Mentions, ChunkOk, Accesses, ReaderOk, ZeroFrom;
    var s' := Step(s, StoreFlag(tid));
    var th := s.threads[tid];
    var cursor, c := th.tls.value, th.tls.value.chunk;
    var e := Event(tid, th.pc.access);
    assert ThreadOk(th, s.chunks, s.queue);
    assert MidWrite(cursor, th.pc.access, th.pc.start, th.pc.written, s.chunks);
    FlagPublishes(s.chunks, cursor, th.pc.access, th.pc.start, th.pc.written, s'.chunks[c], tid);
    assert ThreadOk(s'.threads[tid], s'.chunks, s'.queue);
    assert forall t, d :: t in s.threads && Owns(s'.threads[t], d) ==> Owns(s.threads[t], d);
    hide ThreadOk, Owns;
    StoreFlagHistory(s, s', c, e);
    forall t | t in s.threads
      ensures ThreadOk(s'.threads[t], s'.chunks, s'.queue)
      ensures OrderedFor(t, s'.threads[t], s'.chunks, s'.queue)
    {
      StoreFlagThread(s, tid, t);
    }
    forall d, t | 0 <= d < |s'.chunks| && t >= s'.nextTid
      ensures !Mentions(s'.chunks[d].log, t)
    {
      MentionsAppend(s.chunks[c].log, e, t);
    }
    forall r | r in s'.readers
      ensures ReaderOk(s'.readers[r], s'.chunks)
    {
      ReaderSeesPublish(s.readers[r], s.chunks, c, th.pc.access, s'.chunks[c]);
    }
  }

  // ---------------------------------------------------------------------------------------------
  // Readers
  // ---------------------------------------------------------------------------------------------

  lemma FlagByteTellsTheRest(r: Reader, chunks: seq<Chunk>)
    requires ReaderOk(r, chunks) && ChunkOk(chunks[r.chunk]) && r.length == CHUNK_SIZE
    ensures r.position <= r.length
    ensures |r.items| < |chunks[r.chunk].log|
            <==> r.position < r.length && chunks[r.chunk].bytes[r.position] != 0
  {
    hide Decode, Encode, Frame;
    var log := chunks[r.chunk].Records();
    if |r.items| < |log| {
      FrameAt(chunks[r.chunk].bytes, log, |r.items|);
    } else {
      assert r.items == log;
    }
  }

  lemma UpdateReader(s: State, rid: nat, r: Reader)
    requires Inv(s) && ReaderOk(r, s.chunks)
    ensures Inv(s.(readers := s.readers[rid := r]))
  {
    hide HistoryOk, ThreadOk, OrderedFor, Owns, ReaderOk, ChunkOk;
    UntouchedHistory(s, s.(readers := s.readers[rid := r]));
  }

  lemma FlagLoaded(s: State, r: Reader)
    requires ReaderOk(r, s.chunks) && ChunkOk(s.chunks[r.chunk]) && r.pc == AtFlag
    ensures r.length <= |s.chunks[r.chunk].bytes| && ReaderOk(LoadFlagReader(s, r), s.chunks)
  {
    if r.length == CHUNK_SIZE {
      FlagByteTellsTheRest(r, s.chunks);
    }
    hide ChunkOk, Accesses;
  }

  lemma LoadFlagKeeps(s: State, rid: nat)
    requires Inv(s) && Enabled(s, LoadFlag(rid))
    ensures Inv(Step(s, LoadFlag(rid)))
  {
    hide HistoryOk, ThreadOk, OrderedFor, Owns, ReaderOk, ChunkOk;
    FlagLoaded(s, s.readers[rid]);
    UpdateReader(s, rid, LoadFlagReader(s, s.readers[rid]));
  }

  lemma DecodeFinds(r: Reader, chunks: seq<Chunk>)
    requires ReaderOk(r, chunks) && ChunkOk(chunks[r.chunk]) && r.pc == AtRecord && r.position < r.length
    ensures var log := chunks[r.chunk].Records();
      && Decode(chunks[r.chunk].bytes[r.position + 1..r.length])
         == Ok(Read(log[|r.items|], |Encode(log[|r.items|])|))
      && |Layout(log[..|r.items| + 1])| == r.position + 1 + |Encode(log[|r.items|])|
  {
    hide Decode, Encode, Frame;
    var b := chunks[r.chunk].bytes;
    FrameAt(b, chunks[r.chunk].Records(), |r.items|);
    assert b[r.position + 1..r.length] == b[r.position + 1..];
  }

  lemma DecodeRecordKeeps(s: State, rid: nat)
    requires Inv(s) && Enabled(s, DecodeRecord(rid))
    ensures Inv(Step(s, DecodeRecord(rid)))
  {
    hide HistoryOk, ThreadOk, OrderedFor, Owns, Layout, Holds, Decode, Encode;
    var r := s.readers[rid];
    DecodeFinds(r, s.chunks);
    var log := s.chunks[r.chunk].Records();
    assert log[..|r.items| + 1] == r.items + [log[|r.items|]];
    UpdateReader(s, rid, DecodeReader(s, r));
  }

  lemma StartReaderKeeps(s: State, rid: nat, chunk: nat)
    requires Inv(s) && Enabled(s, StartReader(rid, chunk))
    ensures Inv(Step(s, StartReader(rid, chunk)))
  {
    hide HistoryOk, ThreadOk, OrderedFor, Owns, Holds;
    assert ChunkOk(s.chunks[chunk]);
    UpdateReader(s, rid, Reader(chunk, |s.chunks[chunk].bytes|, 0, AtFlag, [], |s.chunks[chunk].log|));
  }

  // ---------------------------------------------------------------------------------------------
  // Every step, every run
  // ---------------------------------------------------------------------------------------------

  lemma BeginKeeps(s: State, tid: nat, access: PathAccess)
    requires Inv(s) && Enabled(s, Begin(tid, access))
    ensures Inv(Step(s, Begin(tid, access)))
  {
    hide HistoryOk, AtRest;
    assert ThreadOk(s.threads[tid], s.chunks, s.queue);
    ReplaceThread(s, tid, s.threads[tid].(pc := BeginPc(s.threads[tid], access)));
  }

  lemma FailOsKeeps(s: State, tid: nat)
    requires Inv(s) && Enabled(s, FailOs(tid))
    ensures Inv(Step(s, FailOs(tid)))
  {
    hide HistoryOk, AtRest;
    assert ThreadOk(s.threads[tid], s.chunks, s.queue);
    ReplaceThread(s, tid, s.threads[tid].(pc := Idle));
  }

  lemma StepKeepsInv(s: State, a: Action)
    requires Inv(s) && Enabled(s, a) && SafeReuse(s, a)
    ensures Inv(Step(s, a))
  {
    hide Inv;
    match a
    case Begin(tid, access) => BeginKeeps(s, tid, access);
    case Advance(tid) => AdvanceKeeps(s, tid);
    case OpenShm(tid) => OpenShmKeeps(s, tid);
    case SendFd(tid) => SendFdKeeps(s, tid);
    case Truncate(tid) => TruncateKeeps(s, tid);
    case MapChunk(tid) => MapChunkKeeps(s, tid);
    case FailOs(tid) => FailOsKeeps(s, tid);
    case WriteByte(tid, index) => WriteByteKeeps(s, tid, index);
    case StoreFlag(tid) => StoreFlagKeeps(s, tid);
    case Fork(tid, childPid, ended) => ForkKeeps(s, tid, childPid, ended);
    case SpawnThread(tid) => AddThread(s, Thread(s.threads[tid].pid, None, Idle, false));
    case EndThread(tid) => EndKeeps(s, tid);
    case ReuseSlot(tid) => ReuseKeeps(s, tid);
    case Exec(pid) => ExecKeeps(s, pid);
    case Die(pid) => RemoveProcess(s, pid);
    case StartReader(rid, chunk) => StartReaderKeeps(s, rid, chunk);
    case LoadFlag(rid) => LoadFlagKeeps(s, rid);
    case DecodeRecord(rid) => DecodeRecordKeeps(s, rid);
  }

  lemma InitIsSafe(s: State)
    requires Init(s)
    ensures Inv(s)
  {
  }

  /** Every state of every run satisfies the invariant. */
  lemma {:induction false} RunKeepsInv(run: seq<State>, i: nat)
    requires IsRun(run) && i < |run|
    ensures Inv(run[i])
  {
    hide Inv, Step, Enabled, Init, SafeReuse;
    if i == 0 {
      InitIsSafe(run[0]);
    } else {
      RunKeepsInv(run, i - 1);
      assert Next(run[i - 1], run[i - 1 + 1]);
      var a :| Enabled(run[i - 1], a) && SafeReuse(run[i - 1], a) && run[i] == Step(run[i - 1], a);
      StepKeepsInv(run[i - 1], a);
    }
  }
}
