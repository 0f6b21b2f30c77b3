/** What the access-log invariant means for whole runs: exactness, single writer, readers. */
module LogTheorems {
  import opened Common
  import opened PathAccesses
  import opened AccessLog
  import opened LogMachine
  import opened LogSafety

  // ---------------------------------------------------------------------------------------------
  // Exactness
  // ---------------------------------------------------------------------------------------------

  /** Decoding a chunk at any moment yields exactly the accesses whose flag byte was stored in it,
      in order, and a chunk whose descriptor has not been sent holds none. */
  lemma ChunkDecodesToStores(run: seq<State>, i: nat, c: nat)
    requires IsRun(run) && i < |run| && c < |run[i].chunks|
    ensures ReadFrom(run[i].chunks[c].bytes, 0) == Items(Accesses(StoredIn(run[i].history, c)))
    ensures StoredIn(run[i].history, c) != [] ==> c in run[i].queue
  {
    hide IsRun, ReadFrom, ThreadsOk, OrderOk, ReadersOk, Exclusive, StoredIn;
    RunKeepsInv(run, i);
    assert ChunkOk(run[i].chunks[c]);
    assert run[i].chunks[c].log == StoredIn(run[i].history, c);
    ChunkReads(run[i].chunks[c]);
  }

  lemma ChunkReads(c: Chunk)
    requires ChunkOk(c)
    ensures ReadFrom(c.bytes, 0) == Items(c.Records())
    ensures Holds(c.bytes, c.Records())
  {
    hide Decode, Frame;
    if c.bytes == [] {
      assert c.Records() == [];
      assert Layout([]) == [];
    }
    ReaderRecoversLog(c.bytes, c.Records());
  }

  /** The bytes of every sent chunk, in the order the descriptors arrive. */
  function SentBytes(s: State): (r: seq<Bytes>)
    requires forall i :: 0 <= i < |s.queue| ==> s.queue[i] < |s.chunks|
    ensures |r| == |s.queue|
    ensures forall i :: 0 <= i < |r| ==> r[i] == s.chunks[s.queue[i]].bytes
  {
    seq(|s.queue|, i requires 0 <= i < |s.queue| => s.chunks[s.queue[i]].bytes)
  }

  function Records(logs: seq<seq<Event>>): (r: seq<seq<PathAccess>>)
    ensures |r| == |logs|
    ensures forall i :: 0 <= i < |r| ==> r[i] == Accesses(logs[i])
  {
    seq(|logs|, i requires 0 <= i < |logs| => Accesses(logs[i]))
  }

  lemma AccessesConcat(a: seq<Event>, b: seq<Event>)
    ensures Accesses(a + b) == Accesses(a) + Accesses(b)
  {
  }

  lemma {:induction false} FlattenRecords(logs: seq<seq<Event>>)
    ensures Flatten(Records(logs)) == Accesses(Flatten(logs))
  {
    if logs != [] {
      assert Records(logs)[1..] == Records(logs[1..]);
      FlattenRecords(logs[1..]);
      AccessesConcat(logs[0], Flatten(logs[1..]));
    }
  }

  lemma AccessesOmit(b: seq<Event>, k: nat)
    requires k < |b|
    ensures Accesses(Omit(b, k)) == Omit(Accesses(b), k)
  {
  }

  lemma {:induction false} AccessesMultiset(a: seq<Event>, b: seq<Event>)
    requires multiset(a) == multiset(b)
    ensures multiset(Accesses(a)) == multiset(Accesses(b))
    decreases |a|
  {
    if a == [] {
      assert |multiset(b)| == 0;
    } else {
      assert a[0] in multiset(b);
      var k :| 0 <= k < |b| && b[k] == a[0];
      OmitEvents(a, 0);
      OmitEvents(b, k);
      hide Accesses, Omit;
      AccessesMultiset(Omit(a, 0), Omit(b, k));
    }
  }

  lemma OmitEvents(b: seq<Event>, k: nat)
    requires k < |b|
    ensures |Omit(b, k)| == |b| - 1
    ensures multiset(Omit(b, k)) == multiset(b) - multiset{b[k]}
    ensures multiset(Accesses(b)) == multiset(Accesses(Omit(b, k))) + multiset{b[k].access}
  {
    OmitMultiset(b, k);
    OmitMultiset(Accesses(b), k);
    AccessesOmit(b, k);
  }

  /** In every reachable state, iterating over the sent chunks panics nowhere and yields exactly the
      multiset of published accesses (then the arenas). Filtering the output events by writer gives
      what that writer published, in the order it published. */
  lemma OutputIsHistory(run: seq<State>, i: nat, arenas: seq<seq<PathAccess>>, tid: nat)
    requires IsRun(run) && i < |run|
    ensures QueueOk(run[i])
    ensures var output := Output(run[i].chunks, run[i].queue);
      && ReadAll(SentBytes(run[i]), arenas) == Items(Accesses(output) + Flatten(arenas))
      && multiset(Accesses(output)) == multiset(Accesses(Events(run[i].history)))
      && By(output, tid) == By(Events(run[i].history), tid)
  {
    hide IsRun, ReadAll, ThreadsOk, OrderOk, ReadersOk, Exclusive, By, StoredIn, Holds, Flatten, ChunkOk;
    RunKeepsInv(run, i);
    var s := run[i];
    var logs := SentLogs(s.chunks, s.queue);
    forall k | 0 <= k < |s.queue|
      ensures Holds(SentBytes(s)[k], Records(logs)[k])
    {
      ChunkReads(s.chunks[s.queue[k]]);
    }
    ReadAllRecoversLogs(SentBytes(s), Records(logs), arenas);
    FlattenRecords(logs);
    AccessesMultiset(Output(s.chunks, s.queue), Events(s.history));
  }

  // ---------------------------------------------------------------------------------------------
  // Single writer
  // ---------------------------------------------------------------------------------------------

  /** A slot with room left in chunk `c`. */
  predicate HasRoomIn(th: Thread, c: nat) {
    HasRoom(th) && th.tls.value.chunk == c
  }

  /** At most one slot that a thread has, or has had and nobody else, has room left in any chunk. */
  lemma SingleWriter(run: seq<State>, i: nat, t: nat, u: nat, c: nat)
    requires IsRun(run) && i < |run| && t in run[i].threads && u in run[i].threads
    requires HasRoomIn(run[i].threads[t], c) && HasRoomIn(run[i].threads[u], c)
    requires !(run[i].threads[t].pc.Ended? && run[i].threads[t].shared)
    requires !(run[i].threads[u].pc.Ended? && run[i].threads[u].shared)
    ensures t == u
  {
    hide IsRun, ThreadsOk, HistoryOk, ReadersOk, OrderOk;
    RunKeepsInv(run, i);
    assert Owns(run[i].threads[t], c) && Owns(run[i].threads[u], c);
  }

  /** A step of slot `tid` that stores into a chunk touches no published byte of it, and no other
      slot has room in that chunk or is writing to it. */
  lemma WritesAreExclusive(run: seq<State>, i: nat, tid: nat, index: nat, u: nat)
    requires IsRun(run) && i < |run| && Enabled(run[i], WriteByte(tid, index))
    requires u in run[i].threads && u != tid
    ensures var c := run[i].threads[tid].tls.value.chunk;
      && run[i].chunks[c].End() <= run[i].threads[tid].pc.start
      && run[i].threads[tid].pc.start + 1 + index < |run[i].chunks[c].bytes|
      && !Owns(run[i].threads[u], c)
  {
    hide IsRun, HistoryOk, ReadersOk, OrderOk, Encode, Layout;
    RunKeepsInv(run, i);
    var th := run[i].threads[tid];
    assert ThreadOk(th, run[i].chunks, run[i].queue);
    WriterOwns(th);
  }

  /** Why the fork rule suffices: whatever the child sends first, its copied cursor refuses it and
      the child goes on to create a chunk of its own. */
  lemma ForkForcesFreshChunk(run: seq<State>, i: nat, tid: nat, childPid: nat, ended: seq<nat>, a: PathAccess)
    requires IsRun(run) && i < |run| && Enabled(run[i], Fork(tid, childPid, ended)) && !Ignored(a.path)
    ensures var child := run[i].nextTid;
      var s1 := Step(run[i], Fork(tid, childPid, ended));
      && child !in run[i].threads
      && Enabled(s1, Begin(child, a))
      && var s2 := Step(s1, Begin(child, a));
      if run[i].threads[tid].tls.None? then s2.threads[child].pc == Opening(a, false)
      else Enabled(s2, Advance(child)) && Step(s2, Advance(child)).threads[child].pc == Opening(a, true)
  {
    hide IsRun, Inv, Step, Ignored;
    RunKeepsInv(run, i);
    var s := run[i];
    CursorsOk(s, tid);
    SlotsKnown(s);
    ForkAdds(s, tid, childPid, ended);
    ChildStartsFresh(s, Step(s, Fork(tid, childPid, ended)), tid, childPid, a);
  }

  lemma SlotsKnown(s: State)
    requires Inv(s)
    ensures s.nextTid !in s.threads
  {
    hide HistoryOk, ReadersOk, OrderOk, Exclusive, ChunksOk, WritersKnown, ThreadOk;
  }

  lemma ChildStartsFresh(s: State, s1: State, tid: nat, childPid: nat, a: PathAccess)
    requires tid in s.threads && s1.chunks == s.chunks && s.nextTid in s1.threads && !Ignored(a.path)
    requires s.threads[tid].tls.Some? ==> CursorOk(s.threads[tid].tls.value, s.chunks)
    requires s1.threads[s.nextTid] == Thread(childPid, ForkedCursor(s, s.threads[tid].tls), Idle, false)
    ensures Enabled(s1, Begin(s.nextTid, a))
    ensures var child, s2 := s.nextTid, Step(s1, Begin(s.nextTid, a));
      if s.threads[tid].tls.None? then s2.threads[child].pc == Opening(a, false)
      else Enabled(s2, Advance(child)) && Step(s2, Advance(child)).threads[child].pc == Opening(a, true)
  {
    hide Ignored, Frame, RequestSize;
  }

  // ---------------------------------------------------------------------------------------------
  // Readers
  // ---------------------------------------------------------------------------------------------

  /** How a later state extends an earlier one. */
  ghost predicate Extends(s: State, s': State) {
    && |s.chunks| <= |s'.chunks|
    && (forall c :: 0 <= c < |s.chunks| ==> s.chunks[c].log <= s'.chunks[c].log)
    && s.queue <= s'.queue
    && s.history <= s'.history
    && s.readers.Keys <= s'.readers.Keys
    && (forall r :: r in s.readers ==> ReaderExtends(s.readers[r], s'.readers[r]))
    && (forall r :: r in s'.readers && r !in s.readers ==> StartedAfter(s, s'.readers[r]))
  }

  predicate ReaderExtends(r: Reader, r': Reader) {
    && r'.chunk == r.chunk && r'.floor == r.floor && r.items <= r'.items
    && (r.pc == Finished ==> r' == r)
  }

  predicate StartedAfter(s: State, r: Reader) {
    r.chunk < |s.chunks| ==> |s.chunks[r.chunk].log| <= r.floor
  }

  lemma ThreadStepExtends(s: State, s': State)
    requires s'.chunks == s.chunks && s.queue <= s'.queue && s'.history == s.history && s'.readers == s.readers
    ensures Extends(s, s')
  {
  }

  lemma ChunkStepExtends(s: State, s': State, c: nat)
    requires |s'.chunks| == |s.chunks| && c < |s.chunks| && s'.chunks == s.chunks[c := s'.chunks[c]]
    requires s.chunks[c].log <= s'.chunks[c].log
    requires s'.queue == s.queue && s.history <= s'.history && s'.readers == s.readers
    ensures Extends(s, s')
  {
  }

  lemma ReaderStepExtends(s: State, s': State, rid: nat, r: Reader)
    requires s' == s.(readers := s.readers[rid := r])
    requires if rid in s.readers then ReaderExtends(s.readers[rid], r) else StartedAfter(s, r)
    ensures Extends(s, s')
  {
  }

  lemma StepExtends(s: State, a: Action)
    requires Enabled(s, a)
    ensures Extends(s, Step(s, a))
  {
    hide Extends, Decode, Encode, Frame, Ignored;
    var s' := Step(s, a);
    match a
    case OpenShm(_) => OpenExtends(s, s');
    case Truncate(tid) => ChunkStepExtends(s, s', s.threads[tid].pc.chunk);
    case WriteByte(tid, _) => ChunkStepExtends(s, s', s.threads[tid].tls.value.chunk);
    case StoreFlag(tid) => ChunkStepExtends(s, s', s.threads[tid].tls.value.chunk);
    case StartReader(rid, _) => ReaderStepExtends(s, s', rid, s'.readers[rid]);
    case LoadFlag(rid) => ReaderStepExtends(s, s', rid, s'.readers[rid]);
    case DecodeRecord(rid) => ReaderStepExtends(s, s', rid, s'.readers[rid]);
    case _ => ThreadStepExtends(s, s');
  }

  lemma OpenExtends(s: State, s': State)
    requires s'.chunks == s.chunks + [Chunk([], [])]
    requires s'.queue == s.queue && s'.history == s.history && s'.readers == s.readers
    ensures Extends(s, s')
  {
  }

  lemma ExtendsReflexive(s: State)
    ensures Extends(s, s)
  {
  }

  lemma ExtendsTransitive(s: State, t: State, u: State)
    requires Extends(s, t) && Extends(t, u)
    ensures Extends(s, u)
  {
    forall c | 0 <= c < |s.chunks|
      ensures s.chunks[c].log <= u.chunks[c].log
    {
      assert s.chunks[c].log <= t.chunks[c].log && t.chunks[c].log <= u.chunks[c].log;
    }
    forall r | r in s.readers
      ensures r in u.readers && ReaderExtends(s.readers[r], u.readers[r])
    {
      assert ReaderExtends(s.readers[r], t.readers[r]) && ReaderExtends(t.readers[r], u.readers[r]);
    }
    forall r | r in u.readers && r !in s.readers
      ensures StartedAfter(s, u.readers[r])
    {
      if r in t.readers {
        assert StartedAfter(s, t.readers[r]) && ReaderExtends(t.readers[r], u.readers[r]);
      } else {
        assert StartedAfter(t, u.readers[r]);
        if u.readers[r].chunk < |s.chunks| {
          assert s.chunks[u.readers[r].chunk].log <= t.chunks[u.readers[r].chunk].log;
        }
      }
    }
  }

  /** Published records, sent descriptors and history only ever grow, along every run. */
  lemma {:induction false} RunExtends(run: seq<State>, i: nat, j: nat)
    requires IsRun(run) && i <= j < |run|
    ensures Extends(run[i], run[j])
    decreases j
  {
    hide Extends, Step, Enabled, Init;
    if i == j {
      ExtendsReflexive(run[i]);
    } else {
      RunExtends(run, i, j - 1);
      assert Next(run[j - 1], run[j - 1 + 1]);
      var a :| Enabled(run[j - 1], a) && SafeReuse(run[j - 1], a) && run[j] == Step(run[j - 1], a);
      StepExtends(run[j - 1], a);
      ExtendsTransitive(run[i], run[j - 1], run[j]);
    }
  }

  /** A reader interleaved with the writers never slices out of range and never meets a record that
      does not decode; what it has read is a prefix of the chunk's log in every later state. When it
      stops it has at least every record published before it started. */
  lemma ReadersAreSafe(run: seq<State>, i: nat, j: nat, rid: nat)
    requires IsRun(run) && i <= j < |run| && rid in run[i].readers
    ensures var r := run[i].readers[rid];
      && r.pc != Crashed
      && r.chunk < |run[j].chunks|
      && r.items <= run[j].chunks[r.chunk].Records()
      && (r.pc == AtFlag ==> r.position <= r.length)
      && (r.pc == AtRecord ==> Enabled(run[i], DecodeRecord(rid)))
      && (r.pc == Finished ==> r.floor <= |r.items|)
  {
    hide IsRun, HistoryOk, ThreadsOk, OrderOk, Exclusive, WritersKnown, Decode, Encode, Frame, Extends;
    RunKeepsInv(run, i);
    RunExtends(run, i, j);
    var r := run[i].readers[rid];
    assert ReaderOk(r, run[i].chunks) && ChunkOk(run[i].chunks[r.chunk]);
    LogsGrow(run[i], run[j], r.chunk);
    if r.length == CHUNK_SIZE {
      FlagByteTellsTheRest(r, run[i].chunks);
    }
  }

  lemma LogsGrow(s: State, s': State, c: nat)
    requires Extends(s, s') && c < |s.chunks|
    ensures c < |s'.chunks| && s.chunks[c].Records() <= s'.chunks[c].Records()
  {
    assert s.chunks[c].log <= s'.chunks[c].log;
  }

  /** A read that starts after another one of the same chunk finished extends what that one gave. */
  lemma LaterReadExtends(run: seq<State>, i: nat, j: nat, first: nat, second: nat)
    requires IsRun(run) && i <= j < |run|
    requires first in run[i].readers && run[i].readers[first].pc == Finished
    requires second !in run[i].readers && second in run[j].readers && run[j].readers[second].pc == Finished
    requires run[j].readers[second].chunk == run[i].readers[first].chunk
    ensures run[i].readers[first].items <= run[j].readers[second].items
  {
    hide IsRun, HistoryOk, ThreadsOk, OrderOk, Exclusive, ChunksOk, WritersKnown, Extends, Layout;
    RunKeepsInv(run, i);
    RunKeepsInv(run, j);
    RunExtends(run, i, j);
    var r, q := run[i].readers[first], run[j].readers[second];
    assert ReaderOk(r, run[i].chunks) && ReaderOk(q, run[j].chunks);
    LogsGrow(run[i], run[j], r.chunk);
    LaterFloor(run[i], run[j], second);
  }

  lemma LaterFloor(s: State, s': State, rid: nat)
    requires Extends(s, s') && rid in s'.readers && rid !in s.readers
    ensures StartedAfter(s, s'.readers[rid])
  {
  }
}
