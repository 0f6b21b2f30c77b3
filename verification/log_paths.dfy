/** The imperative client is a slot of the log machine: whatever a send comes to is a path of steps of one
    slot, with the same effect on cursor and objects. */
module LogPaths {
  import opened Common
  import opened PathAccesses
  import opened AccessLog
  import opened LogMachine
  import opened LogSafety
  import opened Client

  /** The actions lead from one state to the other, each possible where it is taken. */
  ghost predicate Leads(s: State, actions: seq<Action>, s': State)
    decreases |actions|
  {
    if actions == [] then s' == s
    else Enabled(s, actions[0]) && SafeReuse(s, actions[0]) && Leads(Step(s, actions[0]), actions[1..], s')
  }

  /** A step that the slot takes for a send. */
  predicate IsSendStep(a: Action, tid: nat) {
    match a
    case Begin(t, _) => t == tid
    case Advance(t) => t == tid
    case OpenShm(t) => t == tid
    case SendFd(t) => t == tid
    case Truncate(t) => t == tid
    case MapChunk(t) => t == tid
    case FailOs(t) => t == tid
    case WriteByte(t, _) => t == tid
    case StoreFlag(t) => t == tid
    case _ => false
  }

  /** A path of the slot's own steps; `faults` says whether a call of it may fail. */
  ghost predicate Path(s: State, tid: nat, actions: seq<Action>, s': State, faults: bool) {
    && Leads(s, actions, s')
    && forall i :: 0 <= i < |actions| ==> IsSendStep(actions[i], tid) && (actions[i].FailOs? ==> faults)
  }

  lemma EmptyPath(s: State, tid: nat, faults: bool)
    ensures Path(s, tid, [], s, faults)
  {
  }

  lemma PathOne(s: State, tid: nat, a: Action, faults: bool)
    requires Enabled(s, a) && IsSendStep(a, tid) && (a.FailOs? ==> faults)
    ensures Path(s, tid, [a], Step(s, a), faults)
  {
    assert SafeReuse(s, a);
    hide Enabled, Step, SafeReuse;
    assert [a][1..] == [];
    assert Leads(Step(s, a), [], Step(s, a));
  }

  lemma {:induction false} LeadsOn(s: State, before: seq<Action>, s1: State, after: seq<Action>, s2: State)
    requires Leads(s, before, s1) && Leads(s1, after, s2)
    ensures Leads(s, before + after, s2)
    decreases |before|
  {
    hide Enabled, Step, SafeReuse;
    if before == [] {
      assert before + after == after;
    } else {
      assert (before + after)[0] == before[0] && (before + after)[1..] == before[1..] + after;
      LeadsOn(Step(s, before[0]), before[1..], s1, after, s2);
    }
  }

  lemma PathOn(s: State, tid: nat, before: seq<Action>, s1: State, after: seq<Action>, s2: State, faults: bool)
    requires Path(s, tid, before, s1, faults) && Path(s1, tid, after, s2, faults)
    ensures Path(s, tid, before + after, s2, faults)
  {
    hide Leads;
    LeadsOn(s, before, s1, after, s2);
  }

  lemma PathMayFail(s: State, tid: nat, actions: seq<Action>, s': State, some: bool, faults: bool)
    requires Path(s, tid, actions, s', some) && (some ==> faults)
    ensures Path(s, tid, actions, s', faults)
  {
    hide Leads;
  }

  lemma {:induction false} LeadsKeepsInv(s: State, actions: seq<Action>, s': State)
    requires Inv(s) && Leads(s, actions, s')
    ensures Inv(s')
    decreases |actions|
  {
    hide Inv, Enabled, Step, SafeReuse;
    if actions != [] {
      StepKeepsInv(s, actions[0]);
      LeadsKeepsInv(Step(s, actions[0]), actions[1..], s');
    }
  }

  /** A path from the end of a run extends the run, so what is proved of runs holds at its end. */
  lemma {:induction false} PathExtendsRun(run: seq<State>, actions: seq<Action>, s': State) returns (run': seq<State>)
    requires IsRun(run) && Leads(run[|run| - 1], actions, s')
    ensures IsRun(run') && run <= run' && run'[|run'| - 1] == s'
    decreases |actions|
  {
    hide Enabled, Step, SafeReuse, Init;
    if actions == [] {
      run' := run;
    } else {
      var next := Step(run[|run| - 1], actions[0]);
      RunGoesOn(run, next);
      run' := PathExtendsRun(run + [next], actions[1..], s');
    }
  }

  lemma RunGoesOn(run: seq<State>, next: State)
    requires IsRun(run) && Next(run[|run| - 1], next)
    ensures IsRun(run + [next])
  {
    hide Next, Init;
    var run' := run + [next];
    forall i | 0 <= i < |run'| - 1
      ensures Next(run'[i], run'[i + 1])
    {
      if i < |run| - 1 {
        assert Next(run[i], run[i + 1]);
      }
    }
  }

  // ---------------------------------------------------------------------------------------------
  // A client in the machine
  // ---------------------------------------------------------------------------------------------

  ghost predicate SameCursor(tls: Option<Cursor>, ids: seq<nat>, place: Option<Place>) {
    match place
    case None => tls == None
    case Some(p) => p.index < |ids| && tls == Some(Cursor(ids[p.index], p.position))
  }

  /** Slot `tid` is the client `v`: `ids` are the chunks its objects are. */
  ghost predicate Linked(s: State, tid: nat, ids: seq<nat>, v: View) {
    && Inv(s)
    && tid in s.threads
    && |ids| == |v.contents|
    && (forall i :: 0 <= i < |ids| ==>
          ids[i] < |s.chunks| && ids[i] in s.queue && s.chunks[ids[i]].bytes == v.contents[i])
    && (forall i, j :: 0 <= i < j < |ids| ==> ids[i] != ids[j])
    && SameCursor(s.threads[tid].tls, ids, v.cursor)
  }

  lemma CreatingFacts(s: State, tid: nat)
    requires Inv(s) && tid in s.threads && s.threads[tid].pc.Creating?
    ensures var pc := s.threads[tid].pc;
      && pc.chunk < |s.chunks| && CreatingAt(s, tid, pc.stage)
      && (pc.chunk in s.queue <==> pc.stage != Opened)
      && (pc.stage != Sized ==> s.chunks[pc.chunk].bytes == [])
      && (pc.stage == Sized ==> s.chunks[pc.chunk].bytes == Zeros(CHUNK_SIZE))
  {
    hide HistoryOk, ChunksOk, ReadersOk, OrderOk, Exclusive, WritersKnown, Layout;
    assert ThreadOk(s.threads[tid], s.chunks, s.queue);
    AllZeroSized(s.chunks[s.threads[tid].pc.chunk].bytes);
  }

  lemma AllZeroSized(b: Bytes)
    ensures |b| == CHUNK_SIZE && AllZero(b) ==> b == Zeros(CHUNK_SIZE)
  {
  }

  lemma OpenLinked(s: State, tid: nat, ids: seq<nat>, v: View)
    requires Linked(s, tid, ids, v) && s.threads[tid].pc.Opening?
    ensures Enabled(s, OpenShm(tid))
    ensures var pc, s' := s.threads[tid].pc, Step(s, OpenShm(tid));
      && Linked(s', tid, ids, v) && s'.history == s.history
      && s'.threads[tid].pc == Creating(pc.access, pc.replacing, |s.chunks|, Opened)
  {
    hide Inv;
    StepKeepsInv(s, OpenShm(tid));
  }

  lemma SendLinked(s: State, tid: nat, ids: seq<nat>, v: View)
    requires Linked(s, tid, ids, v) && s.threads[tid].pc.Creating? && s.threads[tid].pc.stage == Opened
    ensures Enabled(s, SendFd(tid))
    ensures var pc, s' := s.threads[tid].pc, Step(s, SendFd(tid));
      && Linked(s', tid, ids + [pc.chunk], v.(contents := v.contents + [[]])) && s'.history == s.history
      && s'.threads[tid].pc == pc.(stage := Sent)
  {
    hide Inv;
    CreatingFacts(s, tid);
    StepKeepsInv(s, SendFd(tid));
  }

  lemma SizeLinked(s: State, tid: nat, ids: seq<nat>, c: nat, v: View)
    requires Linked(s, tid, ids + [c], v.(contents := v.contents + [[]]))
    requires s.threads[tid].pc.Creating? && s.threads[tid].pc.stage == Sent && s.threads[tid].pc.chunk == c
    ensures Enabled(s, Truncate(tid))
    ensures var s' := Step(s, Truncate(tid));
      && Linked(s', tid, ids + [c], v.(contents := v.contents + [Zeros(CHUNK_SIZE)])) && s'.history == s.history
      && s'.threads[tid].pc == s.threads[tid].pc.(stage := Sized)
  {
    hide Inv;
    CreatingFacts(s, tid);
    StepKeepsInv(s, Truncate(tid));
    var all := ids + [c];
    assert all[|ids|] == c;
    forall i | 0 <= i < |ids|
      ensures ids[i] != c && ids[i] < |s.chunks| && ids[i] in s.queue && s.chunks[ids[i]].bytes == v.contents[i]
    {
      assert all[i] == ids[i] && all[i] != all[|ids|];
    }
  }

  lemma MapLinked(s: State, tid: nat, ids: seq<nat>, c: nat, v: View)
    requires Linked(s, tid, ids + [c], v.(contents := v.contents + [Zeros(CHUNK_SIZE)])) && |ids| == |v.contents|
    requires s.threads[tid].pc.Creating? && s.threads[tid].pc.stage == Sized && s.threads[tid].pc.chunk == c
    ensures Enabled(s, MapChunk(tid))
    ensures var pc, s' := s.threads[tid].pc, Step(s, MapChunk(tid));
      && Linked(s', tid, ids + [c], View(Some(Place(|ids|, 0)), v.contents + [Zeros(CHUNK_SIZE)]))
      && s'.history == s.history && s'.threads[tid].pc == Advancing(pc.access, pc.replacing)
  {
    hide Inv;
    CreatingFacts(s, tid);
    StepKeepsInv(s, MapChunk(tid));
  }

  lemma FailLinked(s: State, tid: nat, ids: seq<nat>, v: View)
    requires Linked(s, tid, ids, v) && (s.threads[tid].pc.Opening? || s.threads[tid].pc.Creating?)
    ensures Enabled(s, FailOs(tid))
    ensures var s' := Step(s, FailOs(tid));
      Linked(s', tid, ids, v) && s'.history == s.history && s'.threads[tid].pc == Idle
  {
    hide Inv;
    StepKeepsInv(s, FailOs(tid));
  }

  // ---------------------------------------------------------------------------------------------
  // Creating a chunk
  // ---------------------------------------------------------------------------------------------

  /** A failing call in the middle of creating a chunk. */
  lemma FailPath(s: State, tid: nat, ids: seq<nat>, v: View) returns (s': State)
    requires Linked(s, tid, ids, v) && (s.threads[tid].pc.Opening? || s.threads[tid].pc.Creating?)
    ensures Path(s, tid, [FailOs(tid)], s', true)
    ensures Linked(s', tid, ids, v) && s'.history == s.history && s'.threads[tid].pc == Idle
  {
    hide Linked, Path, Step, Enabled;
    LinkedThread(s, tid, ids, v);
    FailLinked(s, tid, ids, v);
    s' := Step(s, FailOs(tid));
    PathOne(s, tid, FailOs(tid), true);
  }

  lemma LinkedThread(s: State, tid: nat, ids: seq<nat>, v: View)
    requires Linked(s, tid, ids, v)
    ensures Inv(s) && tid in s.threads && |ids| == |v.contents|
    ensures SameCursor(s.threads[tid].tls, ids, v.cursor)
  {
    hide Inv, SameCursor;
  }

  /** From the sized chunk on. */
  lemma MapPath(s: State, tid: nat, ids: seq<nat>, c: nat, v: View, fault: ShmFault)
    returns (actions: seq<Action>, s': State)
    requires Linked(s, tid, ids + [c], v.(contents := v.contents + [Zeros(CHUNK_SIZE)])) && |ids| == |v.contents|
    requires s.threads[tid].pc.Creating? && s.threads[tid].pc.stage == Sized && s.threads[tid].pc.chunk == c
    requires fault.MapFault? || fault.NoFault?
    ensures Path(s, tid, actions, s', !fault.NoFault?)
    ensures Linked(s', tid, ids + [c], Replaced(v, fault)) && s'.history == s.history
    ensures s'.threads[tid].pc
         == if fault.NoFault? then Advancing(s.threads[tid].pc.access, s.threads[tid].pc.replacing) else Idle
  {
    hide Linked, Path, Step, Enabled;
    if fault.NoFault? {
      MapLinked(s, tid, ids, c, v);
      actions, s' := [MapChunk(tid)], Step(s, MapChunk(tid));
      PathOne(s, tid, MapChunk(tid), false);
    } else {
      s' := FailPath(s, tid, ids + [c], v.(contents := v.contents + [Zeros(CHUNK_SIZE)]));
      actions := [FailOs(tid)];
    }
  }

  /** From the sent chunk on. */
  lemma SizePath(s: State, tid: nat, ids: seq<nat>, c: nat, v: View, fault: ShmFault)
    returns (actions: seq<Action>, s': State)
    requires Linked(s, tid, ids + [c], v.(contents := v.contents + [[]])) && |ids| == |v.contents|
    requires s.threads[tid].pc.Creating? && s.threads[tid].pc.stage == Sent && s.threads[tid].pc.chunk == c
    requires fault.TruncateFault? || fault.MapFault? || fault.NoFault?
    ensures Path(s, tid, actions, s', !fault.NoFault?)
    ensures Linked(s', tid, ids + [c], Replaced(v, fault)) && s'.history == s.history
    ensures s'.threads[tid].pc
         == if fault.NoFault? then Advancing(s.threads[tid].pc.access, s.threads[tid].pc.replacing) else Idle
  {
    hide Linked, Path, Step, Enabled;
    if fault.TruncateFault? {
      s' := FailPath(s, tid, ids + [c], v.(contents := v.contents + [[]]));
      actions := [FailOs(tid)];
    } else {
      SizeLinked(s, tid, ids, c, v);
      var s1 := Step(s, Truncate(tid));
      PathOne(s, tid, Truncate(tid), !fault.NoFault?);
      actions, s' := MapPath(s1, tid, ids, c, v, fault);
      PathOn(s, tid, [Truncate(tid)], s1, actions, s', !fault.NoFault?);
      actions := [Truncate(tid)] + actions;
    }
  }

  /** `new_shm` stored in the slot, with any of its calls failing. */
  lemma OpenPath(s: State, tid: nat, ids: seq<nat>, v: View, fault: ShmFault)
    returns (actions: seq<Action>, s': State, ids': seq<nat>)
    requires Linked(s, tid, ids, v) && s.threads[tid].pc.Opening?
    ensures ids <= ids'
    ensures Path(s, tid, actions, s', !fault.NoFault?)
    ensures Linked(s', tid, ids', Replaced(v, fault)) && s'.history == s.history
    ensures s'.threads[tid].pc
         == if fault.NoFault? then Advancing(s.threads[tid].pc.access, s.threads[tid].pc.replacing) else Idle
  {
    hide Linked, Path, Step, Enabled;
    LinkedThread(s, tid, ids, v);
    if fault.OpenFault? {
      s' := FailPath(s, tid, ids, v);
      return [FailOs(tid)], s', ids;
    }
    OpenLinked(s, tid, ids, v);
    var c, s1 := |s.chunks|, Step(s, OpenShm(tid));
    PathOne(s, tid, OpenShm(tid), !fault.NoFault?);
    if fault.UnlinkFault? || fault.SendFault? {
      s' := FailPath(s1, tid, ids, v);
      PathOn(s, tid, [OpenShm(tid)], s1, [FailOs(tid)], s', true);
      return [OpenShm(tid)] + [FailOs(tid)], s', ids;
    }
    SendLinked(s1, tid, ids, v);
    var s2 := Step(s1, SendFd(tid));
    PathOne(s1, tid, SendFd(tid), !fault.NoFault?);
    actions, s' := SizePath(s2, tid, ids, c, v, fault);
    PathOn(s1, tid, [SendFd(tid)], s2, actions, s', !fault.NoFault?);
    PathOn(s, tid, [OpenShm(tid)], s1, [SendFd(tid)] + actions, s', !fault.NoFault?);
    actions, ids' := [OpenShm(tid)] + ([SendFd(tid)] + actions), ids + [c];
  }

  // ---------------------------------------------------------------------------------------------
  // Reserving
  // ---------------------------------------------------------------------------------------------

  lemma CursorFacts(s: State, tid: nat)
    requires Inv(s) && tid in s.threads
    ensures s.threads[tid].tls.Some? ==>
      CursorMapped(s, s.threads[tid]) && |s.chunks[s.threads[tid].tls.value.chunk].bytes| == CHUNK_SIZE
    ensures s.threads[tid].pc.Advancing? || s.threads[tid].pc.Writing? ==> s.threads[tid].tls.Some?
    ensures s.threads[tid].pc.Writing? ==> WritingIn(s, tid)
  {
    hide HistoryOk, ChunksOk, ReadersOk, OrderOk, Exclusive, WritersKnown, Layout, Encode, Frame;
    assert ThreadOk(s.threads[tid], s.chunks, s.queue);
  }

  lemma BeginLinked(s: State, tid: nat, ids: seq<nat>, v: View, a: PathAccess)
    requires Linked(s, tid, ids, v) && s.threads[tid].pc.Idle? && !Ignored(a.path)
    ensures Enabled(s, Begin(tid, a))
    ensures var s' := Step(s, Begin(tid, a));
      && Linked(s', tid, ids, v) && s'.history == s.history
      && s'.threads[tid].pc == if v.cursor.None? then Opening(a, false) else Advancing(a, false)
  {
    hide Inv, Ignored;
    StepKeepsInv(s, Begin(tid, a));
  }

  lemma AdvanceLinked(s: State, tid: nat, ids: seq<nat>, v: View)
    requires Linked(s, tid, ids, v) && s.threads[tid].pc.Advancing?
    ensures Enabled(s, Advance(tid)) && v.cursor.Some?
    ensures var pc, s', len := s.threads[tid].pc, Step(s, Advance(tid)), RequestSize(s.threads[tid].pc.access);
      && s'.history == s.history
      && Linked(s', tid, ids, if HasRoomFor(v, len) then Moved(v, len) else v)
      && s'.threads[tid].pc
         == if HasRoomFor(v, len) then Writing(pc.access, v.cursor.value.position, {})
            else if !pc.replaced then Opening(pc.access, true) else Idle
  {
    hide Inv, RequestSize;
    CursorFacts(s, tid);
    StepKeepsInv(s, Advance(tid));
  }

  /** What reserving leaves of the slot's state. */
  function AfterReserve(a: PathAccess, ok: bool, v: View): Pc {
    if ok && v.cursor.Some? && RequestSize(a) <= v.cursor.value.position then
      Writing(a, v.cursor.value.position - RequestSize(a), {})
    else Idle
  }

  /** `with_shm_buf` on a slot that needs a chunk. */
  lemma ReserveFreshPath(s: State, tid: nat, ids: seq<nat>, v: View, a: PathAccess, fault: ShmFault)
    returns (actions: seq<Action>, s': State, ids': seq<nat>)
    requires Linked(s, tid, ids, v) && s.threads[tid].pc == Opening(a, true)
    ensures ids <= ids'
    ensures Path(s, tid, actions, s', !fault.NoFault?) && s'.history == s.history
    ensures var (ok, v') := ReservedFresh(v, RequestSize(a), fault);
      Linked(s', tid, ids', v') && s'.threads[tid].pc == AfterReserve(a, ok, v')
  {
    hide Linked, Path, Step, Enabled, RequestSize;
    actions, s', ids' := OpenPath(s, tid, ids, v, fault);
    if fault.NoFault? {
      var s1, before := s', actions;
      AdvanceLinked(s1, tid, ids', Replaced(v, fault));
      PathOne(s1, tid, Advance(tid), false);
      s' := Step(s1, Advance(tid));
      PathOn(s, tid, before, s1, [Advance(tid)], s', false);
      actions := before + [Advance(tid)];
    }
  }

  /** `with_shm_buf` on a slot that holds a cursor. */
  lemma ReserveInPath(s: State, tid: nat, ids: seq<nat>, v: View, a: PathAccess, second: ShmFault)
    returns (actions: seq<Action>, s': State, ids': seq<nat>)
    requires Linked(s, tid, ids, v) && s.threads[tid].pc == Advancing(a, false)
    ensures ids <= ids'
    ensures Path(s, tid, actions, s', !second.NoFault?) && s'.history == s.history
    ensures var (ok, v') := ReservedIn(v, RequestSize(a), second);
      Linked(s', tid, ids', v') && s'.threads[tid].pc == AfterReserve(a, ok, v')
  {
    hide Linked, Path, Step, Enabled, RequestSize, ReservedFresh;
    AdvanceLinked(s, tid, ids, v);
    PathOne(s, tid, Advance(tid), !second.NoFault?);
    actions, s', ids' := [Advance(tid)], Step(s, Advance(tid)), ids;
    if !HasRoomFor(v, RequestSize(a)) {
      var s1, more := s', actions;
      more, s', ids' := ReserveFreshPath(s1, tid, ids, v, a, second);
      PathOn(s, tid, actions, s1, more, s', !second.NoFault?);
      actions := actions + more;
    }
  }

  /** `with_shm_buf` up to the call of its closure. */
  lemma ReservePath(s: State, tid: nat, ids: seq<nat>, v: View, a: PathAccess, first: ShmFault, second: ShmFault)
    returns (actions: seq<Action>, s': State, ids': seq<nat>)
    requires Linked(s, tid, ids, v)
    requires s.threads[tid].pc == if v.cursor.None? then Opening(a, false) else Advancing(a, false)
    ensures ids <= ids'
    ensures Path(s, tid, actions, s', !(first.NoFault? && second.NoFault?)) && s'.history == s.history
    ensures var (ok, v') := ReservedView(v, RequestSize(a), first, second);
      Linked(s', tid, ids', v') && s'.threads[tid].pc == AfterReserve(a, ok, v')
  {
    hide Linked, Path, Step, Enabled, RequestSize, ReservedIn;
    var faults := !(first.NoFault? && second.NoFault?);
    if v.cursor.Some? {
      actions, s', ids' := ReserveInPath(s, tid, ids, v, a, second);
      PathMayFail(s, tid, actions, s', !second.NoFault?, faults);
    } else {
      actions, s', ids' := OpenPath(s, tid, ids, v, first);
      PathMayFail(s, tid, actions, s', !first.NoFault?, faults);
      if first.NoFault? {
        var s1, more := s', actions;
        more, s', ids' := ReserveInPath(s1, tid, ids', Replaced(v, first), a, second);
        PathMayFail(s1, tid, more, s', !second.NoFault?, faults);
        PathOn(s, tid, actions, s1, more, s', faults);
        actions := actions + more;
      }
    }
  }

  // ---------------------------------------------------------------------------------------------
  // Writing
  // ---------------------------------------------------------------------------------------------

  /** The client with one object changed. */
  function WithObject(v: View, k: nat, b: Bytes): View
    requires k < |v.contents|
  {
    v.(contents := v.contents[k := b])
  }

  lemma FlagLinked(s: State, tid: nat, ids: seq<nat>, v: View)
    requires Linked(s, tid, ids, v) && s.threads[tid].pc.Writing?
    requires forall i: nat :: i < |Encode(s.threads[tid].pc.access)| ==> i in s.threads[tid].pc.written
    ensures Enabled(s, StoreFlag(tid)) && v.cursor.Some? && v.cursor.value.index < |v.contents|
    ensures var pc, k := s.threads[tid].pc, v.cursor.value.index;
      && pc.start < |v.contents[k]|
      && var s' := Step(s, StoreFlag(tid));
      && Linked(s', tid, ids, WithObject(v, k, v.contents[k][pc.start := 1]))
      && s'.history == s.history + [(ids[k], Event(tid, pc.access))]
      && s'.threads[tid].pc == Idle
  {
    hide Inv, Encode;
    CursorFacts(s, tid);
    StepKeepsInv(s, StoreFlag(tid));
  }

  /** The slot is the client `v`, writes `a` at `start` and has stored the first `k` payload bytes. */
  ghost predicate Stored(s: State, tid: nat, ids: seq<nat>, v: View, a: PathAccess, start: nat, k: nat) {
    && Linked(s, tid, ids, v)
    && s.threads[tid].pc.Writing? && s.threads[tid].pc.access == a && s.threads[tid].pc.start == start
    && forall i: nat :: i < k ==> i in s.threads[tid].pc.written
  }

  /** The client in the middle of writing to an object that held `b`. */
  function Partly(v: View, b: Bytes, start: nat, data: Bytes, k: nat): View
    requires v.cursor.Some? && v.cursor.value.index < |v.contents|
    requires k <= |data| && start + 1 + |data| <= |b|
  {
    WithObject(v, v.cursor.value.index, Overwritten(b, start + 1, data[..k]))
  }

  lemma PartlyNext(v: View, b: Bytes, start: nat, data: Bytes, k: nat)
    requires v.cursor.Some? && v.cursor.value.index < |v.contents|
    requires k < |data| && start + 1 + |data| <= |b|
    ensures var now, index := Partly(v, b, start, data, k), v.cursor.value.index;
      && index < |now.contents| && now.cursor == v.cursor && start + 1 + k < |now.contents[index]|
      && WithObject(now, index, now.contents[index][start + 1 + k := data[k]]) == Partly(v, b, start, data, k + 1)
  {
    OverwrittenOneMore(b, start + 1, data, k);
    hide Overwritten;
  }

  lemma PartlyLast(v: View, b: Bytes, start: nat, data: Bytes)
    requires v.cursor.Some? && v.cursor.value.index < |v.contents| && start + 1 + |data| <= |b|
    ensures var now, index := Partly(v, b, start, data, |data|), v.cursor.value.index;
      && index < |now.contents| && now.cursor == v.cursor && start < |now.contents[index]|
      && WithObject(now, index, now.contents[index][start := 1])
         == WithObject(v, index, Overwritten(b, start, [1] + data))
  {
    assert data[..|data|] == data;
    FlagLast(b, start, data);
    hide Overwritten;
  }

  lemma StoredNext(s: State, tid: nat, ids: seq<nat>, v: View, a: PathAccess, start: nat, k: nat)
    requires Stored(s, tid, ids, v, a, start, k) && k < |Encode(a)|
    ensures Enabled(s, WriteByte(tid, k)) && Step(s, WriteByte(tid, k)).history == s.history
    ensures v.cursor.Some? && v.cursor.value.index < |v.contents|
    ensures var index := v.cursor.value.index;
      && start + 1 + k < |v.contents[index]|
      && Stored(Step(s, WriteByte(tid, k)), tid, ids,
                WithObject(v, index, v.contents[index][start + 1 + k := Encode(a)[k]]), a, start, k + 1)
  {
    hide Inv, Encode, Frame;
    CursorFacts(s, tid);
    FrameIs(a);
    StepKeepsInv(s, WriteByte(tid, k));
  }

  /** The closure of `send` from the k-th payload byte on: byte by byte, and then the flag. */
  lemma {:induction false} WritePath(
    s: State, tid: nat, ids: seq<nat>, v: View, a: PathAccess, start: nat, b: Bytes, k: nat)
    returns (actions: seq<Action>, s': State)
    requires v.cursor.Some? && v.cursor.value.index < |v.contents|
    requires k <= |Encode(a)| && start + 1 + |Encode(a)| <= |b|
    requires Stored(s, tid, ids, Partly(v, b, start, Encode(a), k), a, start, k)
    ensures Path(s, tid, actions, s', false)
    ensures Linked(s', tid, ids, WithObject(v, v.cursor.value.index, Overwritten(b, start, [1] + Encode(a))))
    ensures s'.threads[tid].pc == Idle && v.cursor.value.index < |ids|
    ensures s'.history == s.history + [(ids[v.cursor.value.index], Event(tid, a))]
    decreases |Encode(a)| - k
  {
    hide Linked, Path, Step, Enabled, Encode, Overwritten, WithObject, Partly;
    var data, now := Encode(a), Partly(v, b, start, Encode(a), k);
    if k == |data| {
      LinkedThread(s, tid, ids, now);
      PartlyLast(v, b, start, data);
      FlagLinked(s, tid, ids, now);
      PathOne(s, tid, StoreFlag(tid), false);
      actions, s' := [StoreFlag(tid)], Step(s, StoreFlag(tid));
    } else {
      PartlyNext(v, b, start, data, k);
      StoredNext(s, tid, ids, now, a, start, k);
      var s1 := Step(s, WriteByte(tid, k));
      PathOne(s, tid, WriteByte(tid, k), false);
      hide Stored;
      actions, s' := WritePath(s1, tid, ids, v, a, start, b, k + 1);
      PathOn(s, tid, [WriteByte(tid, k)], s1, actions, s', false);
      actions := [WriteByte(tid, k)] + actions;
    }
  }

  /** The closure of `send` on a reservation. */
  lemma PublishPath(s: State, tid: nat, ids: seq<nat>, v: View, a: PathAccess) returns (actions: seq<Action>, s': State)
    requires Linked(s, tid, ids, v) && v.cursor.Some? && v.cursor.value.index < |v.contents|
    requires |Frame(a)| <= v.cursor.value.position <= |v.contents[v.cursor.value.index]|
    requires s.threads[tid].pc == Writing(a, v.cursor.value.position - |Frame(a)|, {})
    ensures Path(s, tid, actions, s', false)
    ensures Linked(s', tid, ids, PublishedView(v, a)) && s'.threads[tid].pc == Idle
    ensures v.cursor.value.index < |ids|
    ensures s'.history == s.history + [(ids[v.cursor.value.index], Event(tid, a))]
  {
    FrameIs(a);
    hide Linked, Path, Frame, Encode;
    LinkedThread(s, tid, ids, v);
    var index, b, start := v.cursor.value.index, v.contents[v.cursor.value.index], v.cursor.value.position - |Frame(a)|;
    assert Overwritten(b, start + 1, Encode(a)[..0]) == b;
    assert WithObject(v, index, b) == v;
    actions, s' := WritePath(s, tid, ids, v, a, start, b, 0);
  }

  lemma FrameIs(a: PathAccess)
    ensures Frame(a) == [1] + Encode(a) && |Frame(a)| == RequestSize(a)
  {
  }

  // ---------------------------------------------------------------------------------------------
  // A whole send
  // ---------------------------------------------------------------------------------------------

  /** Whatever a send comes to, with any of its calls failing, it is a path of steps of one slot that starts
      and ends idle and has the same effect on cursor and objects; it adds to the history exactly what the
      send publishes. */
  lemma SendIsPath(s: State, tid: nat, ids: seq<nat>, v: View, a: PathAccess, first: ShmFault, second: ShmFault)
    returns (actions: seq<Action>, s': State, ids': seq<nat>, c: nat)
    requires Linked(s, tid, ids, v) && s.threads[tid].pc.Idle?
    ensures ids <= ids'
    ensures Path(s, tid, actions, s', !(first.NoFault? && second.NoFault?))
    ensures !Ignored(a.path) ==> |actions| > 0 && actions[0] == Begin(tid, a)
    ensures var (ok, v') := SentView(v, a, first, second);
      && Linked(s', tid, ids', v') && s'.threads[tid].pc == Idle
      && s'.history == s.history + (if ok && !Ignored(a.path) then [(c, Event(tid, a))] else [])
  {
    hide Linked, Path, Step, Enabled, Ignored, ReservedView, RequestSize, Frame, SentView, PublishedView;
    LinkedThread(s, tid, ids, v);
    SentIs(v, a, first, second);
    var faults := !(first.NoFault? && second.NoFault?);
    c := 0;
    if Ignored(a.path) {
      EmptyPath(s, tid, faults);
      return [], s, ids, c;
    }
    BeginLinked(s, tid, ids, v, a);
    PathOne(s, tid, Begin(tid, a), faults);
    var s1 := Step(s, Begin(tid, a));
    actions, s', ids' := ReservePath(s1, tid, ids, v, a, first, second);
    PathOn(s, tid, [Begin(tid, a)], s1, actions, s', faults);
    actions := [Begin(tid, a)] + actions;
    var (ok, v') := ReservedView(v, RequestSize(a), first, second);
    ReservedHasRoom(v, RequestSize(a), first, second);
    if ok {
      FrameIs(a);
      var more;
      more, s', c := PublishAfter(s, tid, actions, s', ids', v', a, faults);
      actions := actions + more;
    }
  }

  lemma PublishAfter(
    s: State, tid: nat, before: seq<Action>, s1: State, ids: seq<nat>, v: View, a: PathAccess, faults: bool)
    returns (more: seq<Action>, s': State, c: nat)
    requires Path(s, tid, before, s1, faults) && Linked(s1, tid, ids, v)
    requires v.cursor.Some? && v.cursor.value.index < |v.contents|
    requires |Frame(a)| <= v.cursor.value.position <= |v.contents[v.cursor.value.index]|
    requires s1.threads[tid].pc == Writing(a, v.cursor.value.position - |Frame(a)|, {})
    ensures Path(s, tid, before + more, s', faults)
    ensures Linked(s', tid, ids, PublishedView(v, a)) && s'.threads[tid].pc == Idle
    ensures s'.history == s1.history + [(c, Event(tid, a))]
  {
    hide Linked, Path, Frame, PublishedView;
    LinkedThread(s1, tid, ids, v);
    c := ids[v.cursor.value.index];
    more, s' := PublishPath(s1, tid, ids, v, a);
    PathMayFail(s1, tid, more, s', false, faults);
    PathOn(s, tid, before, s1, more, s', faults);
  }

  /** After a fork the child's slot is the client that the handler has reset. */
  lemma ForkLinked(s: State, tid: nat, ids: seq<nat>, v: View, childPid: nat, ended: seq<nat>)
    requires Linked(s, tid, ids, v) && Enabled(s, Fork(tid, childPid, ended))
    ensures Linked(Step(s, Fork(tid, childPid, ended)), s.nextTid, ids, ResetView(v))
  {
    hide Inv, Step;
    CursorFacts(s, tid);
    KnownSlot(s, tid);
    StepKeepsInv(s, Fork(tid, childPid, ended));
    ForkAdds(s, tid, childPid, ended);
  }

  lemma KnownSlot(s: State, tid: nat)
    requires Inv(s) && tid in s.threads
    ensures tid < s.nextTid
  {
    hide HistoryOk, ReadersOk, OrderOk, Exclusive, ChunksOk, WritersKnown, ThreadOk;
  }
}
