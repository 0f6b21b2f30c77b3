/** The shared-memory access log as a state machine over its real steps.

    Any number of processes and threads send accesses, create chunks, fork, exec and die between
    any two steps, while any number of readers walk chunks whose descriptor has been received.

    A `tid` names one slot of the writer's thread-local cursor. When its thread ends the slot keeps the
    cursor, and a later thread of the process may be given the slot again. A fork copies the slots of ended
    threads, but its handler resets only the slot of the thread that forks. Runs of the machine fork freely;
    what they assume is that a copied cursor is not used again while it is out of date (`SafeReuse`). */
module LogMachine {
  import opened Common
  import opened PathAccesses
  import opened AccessLog

  /** One published access, with the slot that published it. */
  datatype Event = Event(writer: nat, access: PathAccess)

  function Accesses(log: seq<Event>): (r: seq<PathAccess>)
    ensures |r| == |log|
    ensures forall i :: 0 <= i < |log| ==> r[i] == log[i].access
  {
    seq(|log|, i requires 0 <= i < |log| => log[i].access)
  }

  /** A shared-memory object. `bytes` is empty until `ftruncate`; `log` is auxiliary: the events
      whose flag byte has been stored in this chunk. */
  datatype Chunk = Chunk(bytes: Bytes, log: seq<Event>) {
    function Records(): seq<PathAccess> {
      Accesses(log)
    }

    /** Where the published frames end. */
    function End(): nat {
      |Layout(Records())|
    }
  }

  /** `ShmCursor`: the mapped chunk and the next unreserved position. */
  datatype Cursor = Cursor(chunk: nat, position: nat)

  /** How far `new_shm` has come with the chunk it creates. */
  datatype Stage = Opened | Sent | Sized

  datatype Pc =
    | Idle
    | Advancing(access: PathAccess, replaced: bool)
    | Opening(access: PathAccess, replacing: bool)
    | Creating(access: PathAccess, replacing: bool, chunk: nat, stage: Stage)
    | Writing(access: PathAccess, start: nat, written: set<nat>)
    | Ended

  /** `shared` is auxiliary: a fork has copied the slot with this cursor in it. */
  datatype Thread = Thread(pid: nat, tls: Option<Cursor>, pc: Pc, shared: bool)

  datatype ReaderPc = AtFlag | AtRecord | Finished | Crashed

  /** A reader of one chunk, over the `length` bytes the chunk had when it was mapped. `floor` is
      auxiliary: how many records were published at that time. */
  datatype Reader = Reader(chunk: nat, length: nat, position: nat, pc: ReaderPc, items: seq<PathAccess>, floor: nat)

  /** `queue` lists the chunks whose descriptor was sent, in order. `history` is auxiliary: every
      flag store so far, with the chunk it went to. */
  datatype State = State(
    chunks: seq<Chunk>,
    queue: seq<nat>,
    threads: map<nat, Thread>,
    nextTid: nat,
    history: seq<(nat, Event)>,
    readers: map<nat, Reader>)

  datatype Action =
    | Begin(tid: nat, access: PathAccess)
    | Advance(tid: nat)
    | OpenShm(tid: nat)
    | SendFd(tid: nat)
    | Truncate(tid: nat)
    | MapChunk(tid: nat)
    | FailOs(tid: nat)
    | WriteByte(tid: nat, index: nat)
    | StoreFlag(tid: nat)
    | Fork(tid: nat, childPid: nat, ended: seq<nat>)
    | SpawnThread(tid: nat)
    | EndThread(tid: nat)
    | ReuseSlot(tid: nat)
    | Exec(pid: nat)
    | Die(pid: nat)
    | StartReader(rid: nat, chunk: nat)
    | LoadFlag(rid: nat)
    | DecodeRecord(rid: nat)

  ghost predicate Init(s: State) {
    exists pid: nat :: s == State([], [], map[0 := Thread(pid, None, Idle, false)], 1, [], map[])
  }

  predicate CursorMapped(s: State, th: Thread) {
    th.tls.Some? && th.tls.value.chunk < |s.chunks|
  }

  predicate CreatingAt(s: State, tid: nat, stage: Stage) {
    && tid in s.threads
    && s.threads[tid].pc.Creating?
    && s.threads[tid].pc.stage == stage
    && s.threads[tid].pc.chunk < |s.chunks|
  }

  predicate WritingIn(s: State, tid: nat) {
    && tid in s.threads
    && s.threads[tid].pc.Writing?
    && CursorMapped(s, s.threads[tid])
    && s.threads[tid].pc.start + |Frame(s.threads[tid].pc.access)|
       <= |s.chunks[s.threads[tid].tls.value.chunk].bytes|
  }

  predicate ReaderAt(s: State, rid: nat, pc: ReaderPc) {
    && rid in s.readers
    && s.readers[rid].pc == pc
    && s.readers[rid].chunk < |s.chunks|
    && s.readers[rid].length <= |s.chunks[s.readers[rid].chunk].bytes|
  }

  /** The slots of the process whose threads have ended, each once. */
  predicate AreEnded(s: State, pid: nat, ended: seq<nat>) {
    && (forall i :: 0 <= i < |ended| ==>
          ended[i] in s.threads && s.threads[ended[i]].pid == pid && s.threads[ended[i]].pc.Ended?)
    && (forall i, j :: 0 <= i < j < |ended| ==> ended[i] != ended[j])
    && (forall t :: t in s.threads && s.threads[t].pid == pid && s.threads[t].pc.Ended? ==> t in ended)
  }

  predicate Enabled(s: State, a: Action) {
    match a
    case Begin(tid, access) => tid in s.threads && s.threads[tid].pc.Idle? && !Ignored(access.path)
    case Advance(tid) =>
      tid in s.threads && s.threads[tid].pc.Advancing? && CursorMapped(s, s.threads[tid])
    case OpenShm(tid) => tid in s.threads && s.threads[tid].pc.Opening?
    case SendFd(tid) => CreatingAt(s, tid, Opened)
    case Truncate(tid) => CreatingAt(s, tid, Sent)
    case MapChunk(tid) => CreatingAt(s, tid, Sized)
    case FailOs(tid) => tid in s.threads && (s.threads[tid].pc.Opening? || s.threads[tid].pc.Creating?)
    case WriteByte(tid, index) => WritingIn(s, tid) && index < |Encode(s.threads[tid].pc.access)|
    case StoreFlag(tid) =>
      WritingIn(s, tid) && forall i: nat :: i < |Encode(s.threads[tid].pc.access)| ==> i in s.threads[tid].pc.written
    case Fork(tid, childPid, ended) =>
      && tid in s.threads && s.threads[tid].pc.Idle?
      && (s.threads[tid].tls.Some? ==> CursorMapped(s, s.threads[tid]))
      && AreEnded(s, s.threads[tid].pid, ended)
      && forall t :: t in s.threads ==> s.threads[t].pid != childPid
    case SpawnThread(tid) => tid in s.threads && !s.threads[tid].pc.Ended?
    case EndThread(tid) => tid in s.threads && s.threads[tid].pc.Idle?
    case ReuseSlot(tid) => tid in s.threads && s.threads[tid].pc.Ended?
    case Exec(pid) => exists t :: t in s.threads && s.threads[t].pid == pid
    case Die(pid) => true
    case StartReader(rid, chunk) => rid !in s.readers && chunk in s.queue && chunk < |s.chunks|
    case LoadFlag(rid) => ReaderAt(s, rid, AtFlag)
    case DecodeRecord(rid) =>
      ReaderAt(s, rid, AtRecord) && s.readers[rid].position < s.readers[rid].length
  }

  function SetThread(s: State, tid: nat, th: Thread): State {
    s.(threads := s.threads[tid := th])
  }

  function SetPc(s: State, tid: nat, pc: Pc): State
    requires tid in s.threads
  {
    SetThread(s, tid, s.threads[tid].(pc := pc))
  }

  function SetChunk(s: State, c: nat, chunk: Chunk): State
    requires c < |s.chunks|
  {
    s.(chunks := s.chunks[c := chunk])
  }

  /** The start of `send` and of `with_shm_buf`: a slot without a cursor creates its first chunk. */
  function BeginPc(th: Thread, a: PathAccess): Pc {
    if th.tls.None? then Opening(a, false) else Advancing(a, false)
  }

  /** `ShmCursor::advance`, and what `with_shm_buf` does when it fails. */
  function AdvanceThread(th: Thread, length: nat): Thread
    requires th.tls.Some? && th.pc.Advancing?
  {
    var cursor := th.tls.value;
    var newPosition := cursor.position + RequestSize(th.pc.access);
    if newPosition <= USIZE_MAX && newPosition <= length then
      th.(tls := Some(cursor.(position := newPosition)), pc := Writing(th.pc.access, cursor.position, {}))
    else if !th.pc.replaced then th.(pc := Opening(th.pc.access, true))
    else th.(pc := Idle)
  }

  /** The atfork handler of the child: the copied cursor is pushed to the end of its chunk. */
  function ForkedCursor(s: State, tls: Option<Cursor>): Option<Cursor>
    requires tls.Some? ==> tls.value.chunk < |s.chunks|
  {
    match tls
    case None => None
    case Some(cursor) => Some(cursor.(position := |s.chunks[cursor.chunk].bytes|))
  }

  function AddSlot(s: State, th: Thread): State {
    SetThread(s, s.nextTid, th).(nextTid := s.nextTid + 1)
  }

  /** The slots of ended threads are copied from here on. */
  function Share(s: State, ended: seq<nat>): State {
    s.(threads := map t | t in s.threads :: if t in ended then s.threads[t].(shared := true) else s.threads[t])
  }

  /** The copied slots of ended threads, untouched by the handler. */
  function AddEnded(s: State, pid: nat, slots: seq<Option<Cursor>>): (s': State)
    ensures s' == s.(threads := s'.threads, nextTid := s'.nextTid)
    decreases |slots|
  {
    if slots == [] then s else AddEnded(AddSlot(s, Thread(pid, slots[0], Ended, true)), pid, slots[1..])
  }

  function SlotsOf(s: State, ended: seq<nat>): (slots: seq<Option<Cursor>>)
    requires forall i :: 0 <= i < |ended| ==> ended[i] in s.threads
    ensures |slots| == |ended| && forall i :: 0 <= i < |ended| ==> slots[i] == s.threads[ended[i]].tls
  {
    seq(|ended|, i requires 0 <= i < |ended| => s.threads[ended[i]].tls)
  }

  function ForkStep(s: State, tid: nat, childPid: nat, ended: seq<nat>): State
    requires Enabled(s, Fork(tid, childPid, ended))
  {
    var child := Thread(childPid, ForkedCursor(s, s.threads[tid].tls), Idle, false);
    AddEnded(AddSlot(Share(s, ended), child), childPid, SlotsOf(s, ended))
  }

  function WithoutProcess(s: State, pid: nat): map<nat, Thread> {
    map t | t in s.threads && s.threads[t].pid != pid :: s.threads[t]
  }

  function WriteByteStep(s: State, tid: nat, index: nat): State
    requires WritingIn(s, tid) && index < |Encode(s.threads[tid].pc.access)|
  {
    var th := s.threads[tid];
    var c := th.tls.value.chunk;
    var at := th.pc.start + 1 + index;
    SetThread(
      SetChunk(s, c, s.chunks[c].(bytes := s.chunks[c].bytes[at := Encode(th.pc.access)[index]])),
      tid, th.(pc := th.pc.(written := th.pc.written + {index})))
  }

  function StoreFlagStep(s: State, tid: nat): State
    requires WritingIn(s, tid)
  {
    var th := s.threads[tid];
    var c := th.tls.value.chunk;
    var event := Event(tid, th.pc.access);
    var chunk := Chunk(s.chunks[c].bytes[th.pc.start := 1], s.chunks[c].log + [event]);
    SetThread(SetChunk(s, c, chunk), tid, th.(pc := Idle)).(history := s.history + [(c, event)])
  }

  function LoadFlagReader(s: State, r: Reader): Reader
    requires r.chunk < |s.chunks| && r.length <= |s.chunks[r.chunk].bytes|
  {
    if r.position > r.length then r.(pc := Crashed)
    else if r.position == r.length || s.chunks[r.chunk].bytes[r.position] == 0 then r.(pc := Finished)
    else r.(pc := AtRecord)
  }

  function DecodeReader(s: State, r: Reader): Reader
    requires r.chunk < |s.chunks| && r.position < r.length <= |s.chunks[r.chunk].bytes|
  {
    match Decode(s.chunks[r.chunk].bytes[r.position + 1..r.length])
    case Err(_) => r.(pc := Crashed)
    case Ok(d) => r.(position := r.position + d.size + 1, pc := AtFlag, items := r.items + [d.value])
  }

  function Step(s: State, a: Action): State
    requires Enabled(s, a)
  {
    match a
    case Begin(tid, access) => SetPc(s, tid, BeginPc(s.threads[tid], access))
    case Advance(tid) =>
      var th := s.threads[tid];
      SetThread(s, tid, AdvanceThread(th, |s.chunks[th.tls.value.chunk].bytes|))
    case OpenShm(tid) =>
      var pc := s.threads[tid].pc;
      SetPc(s, tid, Creating(pc.access, pc.replacing, |s.chunks|, Opened)).(chunks := s.chunks + [Chunk([], [])])
    case SendFd(tid) =>
      var pc := s.threads[tid].pc;
      SetPc(s, tid, pc.(stage := Sent)).(queue := s.queue + [pc.chunk])
    case Truncate(tid) =>
      var pc := s.threads[tid].pc;
      SetChunk(SetPc(s, tid, pc.(stage := Sized)), pc.chunk, s.chunks[pc.chunk].(bytes := Zeros(CHUNK_SIZE)))
    case MapChunk(tid) =>
      var th := s.threads[tid];
      SetThread(s, tid, Thread(th.pid, Some(Cursor(th.pc.chunk, 0)), Advancing(th.pc.access, th.pc.replacing), false))
    case FailOs(tid) => SetPc(s, tid, Idle)
    case WriteByte(tid, index) => WriteByteStep(s, tid, index)
    case StoreFlag(tid) => StoreFlagStep(s, tid)
    case Fork(tid, childPid, ended) => ForkStep(s, tid, childPid, ended)
    case SpawnThread(tid) => AddSlot(s, Thread(s.threads[tid].pid, None, Idle, false))
    case EndThread(tid) => SetPc(s, tid, Ended)
    case ReuseSlot(tid) => SetPc(s, tid, Idle)
    case Exec(pid) =>
      s.(threads := WithoutProcess(s, pid)[s.nextTid := Thread(pid, None, Idle, false)], nextTid := s.nextTid + 1)
    case Die(pid) => s.(threads := WithoutProcess(s, pid))
    case StartReader(rid, chunk) =>
      s.(readers := s.readers[rid :=
        Reader(chunk, |s.chunks[chunk].bytes|, 0, AtFlag, [], |s.chunks[chunk].log|)])
    case LoadFlag(rid) => s.(readers := s.readers[rid := LoadFlagReader(s, s.readers[rid])])
    case DecodeRecord(rid) => s.(readers := s.readers[rid := DecodeReader(s, s.readers[rid])])
  }

  // ---------------------------------------------------------------------------------------------
  // Runs
  // ---------------------------------------------------------------------------------------------

  /** There is room for a request behind the position. */
  predicate HasRoomAt(position: nat) {
    position + MIN_REQUEST <= CHUNK_SIZE
  }

  /** The slot has a cursor that could still satisfy some request. */
  predicate HasRoom(th: Thread) {
    th.tls.Some? && HasRoomAt(th.tls.value.position)
  }

  /** The bytes of `b` from `from` on are all zero. */
  ghost predicate ZeroFrom(b: Bytes, from: nat) {
    forall i :: from <= i < |b| ==> b[i] == 0
  }

  /** The cursor points into a sized chunk. */
  ghost predicate CursorOk(cursor: Cursor, chunks: seq<Chunk>) {
    && cursor.chunk < |chunks|
    && |chunks[cursor.chunk].bytes| == CHUNK_SIZE
    && cursor.position <= CHUNK_SIZE
  }

  /** Between sends a cursor with room left is right behind the last frame, with only zeros ahead. */
  ghost predicate AtRest(cursor: Cursor, chunks: seq<Chunk>) {
    && CursorOk(cursor, chunks)
    && (HasRoomAt(cursor.position) ==>
          cursor.position == chunks[cursor.chunk].End() && ZeroFrom(chunks[cursor.chunk].bytes, cursor.position))
  }

  /** The chunks a thread may still write to. A shared slot of an ended thread claims none until it is
      reused. */
  ghost predicate Owns(th: Thread, c: nat) {
    || (th.tls.Some? && th.tls.value.chunk == c && (th.pc.Writing? || HasRoom(th)) && !(th.pc.Ended? && th.shared))
    || (th.pc.Creating? && th.pc.chunk == c)
  }

  /** A shared slot that is reused while it has room is still at the end of its chunk, and nobody else
      writes there. */
  ghost predicate SafeReuse(s: State, a: Action)
    requires Enabled(s, a)
  {
    a.ReuseSlot? ==>
      var th := s.threads[a.tid];
      th.shared && HasRoom(th) ==>
        && AtRest(th.tls.value, s.chunks)
        && forall t :: t in s.threads ==> !Owns(s.threads[t], th.tls.value.chunk)
  }

  ghost predicate Next(s: State, s': State) {
    exists a :: Enabled(s, a) && SafeReuse(s, a) && s' == Step(s, a)
  }

  /** A finite run: the first state is initial and each state steps to the one after it. */
  ghost predicate IsRun(run: seq<State>) {
    && run != []
    && Init(run[0])
    && forall i :: 0 <= i < |run| - 1 ==> Next(run[i], run[i + 1])
  }
}
