/** What a fork does to the slots of ended threads, which its handler does not see. */
module LogSlots {
  import opened Common
  import opened PathAccesses
  import opened AccessLog
  import opened LogMachine
  import opened LogSafety
  import opened LogTheorems
  import opened LogPaths
  import opened LogProgress
  import opened Client

  /** A fork finds no room for a request in the slots of ended threads. */
  predicate NoRoomLeftBehind(s: State, a: Action)
    requires Enabled(s, a)
  {
    a.Fork? ==> forall i :: 0 <= i < |a.ended| ==> !HasRoom(s.threads[a.ended[i]])
  }

  /** No fork so far has copied a slot that still has room. */
  ghost predicate NothingCopied(s: State) {
    forall t :: t in s.threads && s.threads[t].shared ==> !HasRoom(s.threads[t])
  }

  /** The actions lead from one state to the other, slots being reused at will; no fork among them leaves room
      behind. */
  ghost predicate Goes(s: State, actions: seq<Action>, s': State)
    decreases |actions|
  {
    if actions == [] then s' == s
    else Enabled(s, actions[0]) && NoRoomLeftBehind(s, actions[0]) && Goes(Step(s, actions[0]), actions[1..], s')
  }

  /** The supervisor reads exactly what was published. */
  ghost predicate Exact(s: State) {
    SeenBySupervisor(s, [], multiset(Accesses(Events(s.history))))
  }

  // ---------------------------------------------------------------------------------------------
  // Forks that leave no room behind
  // ---------------------------------------------------------------------------------------------

  lemma ForkCopiesNothing(s: State, a: Action)
    requires Inv(s) && NothingCopied(s) && a.Fork? && Enabled(s, a) && NoRoomLeftBehind(s, a)
    ensures NothingCopied(Step(s, a))
  {
    hide Inv, Step;
    ForkAdds(s, a.tid, a.childPid, a.ended);
    var s' := Step(s, a);
    forall t | t in s'.threads && s'.threads[t].shared
      ensures !HasRoom(s'.threads[t])
    {
      if t in s.threads {
        KnownSlot(s, t);
        if t in a.ended {
          var i :| 0 <= i < |a.ended| && a.ended[i] == t;
          assert !HasRoom(s.threads[a.ended[i]]);
        }
      } else {
        assert s'.threads[t].tls == s.threads[a.ended[t - s.nextTid - 1]].tls;
        assert !HasRoom(s.threads[a.ended[t - s.nextTid - 1]]);
      }
    }
  }

  /** A cursor only moves on until it is replaced by a fresh one. */
  lemma StepCopiesNothing(s: State, a: Action)
    requires Inv(s) && NothingCopied(s) && Enabled(s, a) && NoRoomLeftBehind(s, a)
    ensures NothingCopied(Step(s, a))
  {
    hide Inv, Encode, Frame, Decode, Ignored, ForkStep, DecodeReader, LoadFlagReader, RequestSize;
    if a.Fork? {
      ForkCopiesNothing(s, a);
    }
  }

  lemma NothingCopiedIsSafe(s: State, a: Action)
    requires NothingCopied(s) && Enabled(s, a)
    ensures SafeReuse(s, a)
  {
  }

  /** Where no fork leaves room behind, every reuse is safe. */
  lemma {:induction false} GoesSafely(s: State, actions: seq<Action>, s': State)
    requires Inv(s) && NothingCopied(s) && Goes(s, actions, s')
    ensures Leads(s, actions, s') && Inv(s') && NothingCopied(s')
    decreases |actions|
  {
    hide Inv, Enabled, Step, NoRoomLeftBehind, NothingCopied, SafeReuse;
    if actions != [] {
      NothingCopiedIsSafe(s, actions[0]);
      StepKeepsInv(s, actions[0]);
      StepCopiesNothing(s, actions[0]);
      GoesSafely(Step(s, actions[0]), actions[1..], s');
    }
  }

  lemma {:induction false} GoesOn(s: State, before: seq<Action>, s1: State, after: seq<Action>, s2: State)
    requires Goes(s, before, s1) && Goes(s1, after, s2)
    ensures Goes(s, before + after, s2)
    decreases |before|
  {
    hide Enabled, Step, NoRoomLeftBehind;
    if before == [] {
      assert before + after == after;
    } else {
      assert (before + after)[0] == before[0] && (before + after)[1..] == before[1..] + after;
      GoesOn(Step(s, before[0]), before[1..], s1, after, s2);
    }
  }

  lemma GoesOne(s: State, a: Action)
    requires Enabled(s, a) && NoRoomLeftBehind(s, a)
    ensures Goes(s, [a], Step(s, a))
  {
    hide Enabled, Step, NoRoomLeftBehind;
    assert [a][1..] == [];
    assert Goes(Step(s, a), [], Step(s, a));
  }

  lemma {:induction false} PathGoes(s: State, tid: nat, actions: seq<Action>, s': State, faults: bool)
    requires Path(s, tid, actions, s', faults)
    ensures Goes(s, actions, s')
    decreases |actions|
  {
    hide Enabled, Step, SafeReuse;
    if actions != [] {
      assert IsSendStep(actions[0], tid);
      PathGoes(Step(s, actions[0]), tid, actions[1..], s', faults);
    }
  }

  // ---------------------------------------------------------------------------------------------
  // Forks that do
  // ---------------------------------------------------------------------------------------------

  /** The smallest record. */
  function Smallest(): PathAccess {
    PathAccess(ReadMode, [])
  }

  lemma SmallestFacts()
    ensures Encode(Smallest()) == [0, 0] && Frame(Smallest()) == [1, 0, 0] && RequestSize(Smallest()) == MIN_REQUEST
    ensures !Ignored(Smallest().path)
  {
  }

  /** Slot `u` is a copy, out of use, of a cursor to `at` in chunk `c`, where the smallest record has been
      stored meanwhile. */
  ghost predicate Overtaken(s: State, u: nat, c: nat, at: nat) {
    && u in s.threads && s.threads[u].tls == Some(Cursor(c, at)) && s.threads[u].pc.Ended?
    && c < |s.chunks| && |s.chunks[c].bytes| == CHUNK_SIZE && HasRoomAt(at)
    && s.chunks[c].bytes[at..at + 3] == [1, 0, 0]
  }

  ghost predicate SameBytes(s: State, s': State) {
    && |s'.chunks| == |s.chunks| && s'.queue == s.queue
    && forall c :: 0 <= c < |s.chunks| ==> s'.chunks[c].bytes == s.chunks[c].bytes
  }

  lemma SameStore(b: Bytes, i: nat)
    requires i < |b|
    ensures b[i := b[i]] == b
  {
  }

  /** The slot in the middle of its send; nothing else differs. */
  function Copying(s: State, u: nat, c: nat, at: nat, pc: Pc): State
    requires u in s.threads
  {
    SetThread(s, u, s.threads[u].(tls := Some(Cursor(c, at)), pc := pc))
  }

  lemma CopyReserves(s: State, u: nat, c: nat, at: nat)
    requires Overtaken(s, u, c, at)
    ensures Enabled(s, ReuseSlot(u)) && Step(s, ReuseSlot(u)) == Copying(s, u, c, at, Idle)
    ensures var s1 := Copying(s, u, c, at, Idle);
      && Enabled(s1, Begin(u, Smallest()))
      && Step(s1, Begin(u, Smallest())) == Copying(s, u, c, at, Advancing(Smallest(), false))
    ensures var s2 := Copying(s, u, c, at, Advancing(Smallest(), false));
      Enabled(s2, Advance(u)) && Step(s2, Advance(u)) == Copying(s, u, c, at + 3, Writing(Smallest(), at, {}))
  {
    SmallestFacts();
    hide Encode, Frame, RequestSize, Smallest, Ignored;
  }

  lemma CopyStores(s: State, u: nat, c: nat, at: nat, written: set<nat>, k: nat)
    requires Overtaken(s, u, c, at) && k < 2
    ensures var s1, x := Copying(s, u, c, at + 3, Writing(Smallest(), at, written)), WriteByte(u, k);
      Enabled(s1, x) && Step(s1, x) == Copying(s, u, c, at + 3, Writing(Smallest(), at, written + {k}))
  {
    SmallestFacts();
    hide Encode, Frame, RequestSize, Smallest;
    var b := s.chunks[c].bytes;
    assert b[at + 1 + k] == b[at..at + 3][1 + k];
    SameStore(b, at + 1 + k);
  }

  lemma CopyPublishes(s: State, u: nat, c: nat, at: nat)
    requires Overtaken(s, u, c, at)
    ensures var s1, x := Copying(s, u, c, at + 3, Writing(Smallest(), at, {0, 1})), StoreFlag(u);
      && Enabled(s1, x) && SameBytes(s, Step(s1, x))
      && Step(s1, x).history == s.history + [(c, Event(u, Smallest()))]
  {
    SmallestFacts();
    hide Encode, Frame, RequestSize, Smallest;
    var b := s.chunks[c].bytes;
    assert b[at] == b[at..at + 3][0];
    SameStore(b, at);
  }

  lemma GoesFirst(s: State, a: Action, actions: seq<Action>, s': State)
    requires Enabled(s, a) && !a.Fork? && Goes(Step(s, a), actions, s')
    ensures Goes(s, [a] + actions, s')
  {
    hide Enabled, Step;
    assert ([a] + actions)[1..] == actions;
  }

  /** The thread that is given such a slot stores the same record over it. */
  lemma SecondCopy(s: State, u: nat, c: nat, at: nat) returns (actions: seq<Action>, s': State)
    requires Overtaken(s, u, c, at)
    ensures Goes(s, actions, s') && SameBytes(s, s')
    ensures s'.history == s.history + [(c, Event(u, Smallest()))]
  {
    hide Smallest, Step, Enabled, Copying;
    var a := Smallest();
    CopyReserves(s, u, c, at);
    CopyStores(s, u, c, at, {}, 0);
    CopyStores(s, u, c, at, {0}, 1);
    CopyPublishes(s, u, c, at);
    assert {} + {0} == {0} && {0} + {1} == {0, 1};
    var s5 := Copying(s, u, c, at + 3, Writing(a, at, {0, 1}));
    s' := Step(s5, StoreFlag(u));
    GoesOne(s5, StoreFlag(u));
    hide Goes;
    actions := [StoreFlag(u)];
    GoesFirst(Copying(s, u, c, at + 3, Writing(a, at, {0})), WriteByte(u, 1), actions, s');
    actions := [WriteByte(u, 1)] + actions;
    GoesFirst(Copying(s, u, c, at + 3, Writing(a, at, {})), WriteByte(u, 0), actions, s');
    actions := [WriteByte(u, 0)] + actions;
    GoesFirst(Copying(s, u, c, at, Advancing(a, false)), Advance(u), actions, s');
    actions := [Advance(u)] + actions;
    GoesFirst(Copying(s, u, c, at, Idle), Begin(u, a), actions, s');
    actions := [Begin(u, a)] + actions;
    GoesFirst(s, ReuseSlot(u), actions, s');
    actions := [ReuseSlot(u)] + actions;
  }

  /** The same bytes read the same. */
  lemma ReadsTheSame(s: State, s': State, m: multiset<PathAccess>, m': multiset<PathAccess>)
    requires SeenBySupervisor(s, [], m) && SeenBySupervisor(s', [], m') && SameBytes(s, s')
    ensures m == m'
  {
    hide ReadAll;
    assert SentBytes(s') == SentBytes(s);
    var out: seq<PathAccess> :| ReadAll(SentBytes(s), []) == Items(out + Flatten([])) && multiset(out) == m;
    var out': seq<PathAccess> :| ReadAll(SentBytes(s'), []) == Items(out' + Flatten([])) && multiset(out') == m';
    SameItems(out, out');
  }

  /** One more publication is then one too many. */
  lemma OneTooMany(s: State, s': State, c: nat, e: Event)
    requires Exact(s) && SameBytes(s, s') && s'.history == s.history + [(c, e)]
    ensures !Exact(s')
  {
    EventsGrow(s.history, c, e);
    hide Events, Accesses, SeenBySupervisor;
    var m, m' := multiset(Accesses(Events(s.history))), multiset(Accesses(Events(s'.history)));
    assert m'[e.access] == m[e.access] + 1;
    if Exact(s') {
      ReadsTheSame(s, s', m, m');
    }
  }

  lemma SameItems(a: seq<PathAccess>, b: seq<PathAccess>)
    requires a + Flatten([]) == b + Flatten([])
    ensures a == b
  {
    assert a + [] == a && b + [] == b;
  }

  /** A fork that copies a slot with room: the slot and its copy are at rest, and nobody owns their chunk. */
  ghost predicate CopiedAtRest(s: State, t: nat, u: nat, cursor: Cursor) {
    && Inv(s)
    && t in s.threads && u in s.threads && t != u
    && s.threads[t].tls == Some(cursor) && s.threads[t].pc.Ended?
    && s.threads[u].tls == Some(cursor) && s.threads[u].pc.Ended?
    && HasRoomAt(cursor.position) && AtRest(cursor, s.chunks)
    && forall x :: x in s.threads ==> !Owns(s.threads[x], cursor.chunk)
  }

  lemma RestingSlot(s: State, t: nat)
    requires Inv(s) && t in s.threads && s.threads[t].pc.Ended? && !s.threads[t].shared && HasRoom(s.threads[t])
    ensures AtRest(s.threads[t].tls.value, s.chunks)
    ensures forall x :: x in s.threads && x != t ==> !Owns(s.threads[x], s.threads[t].tls.value.chunk)
  {
    hide HistoryOk, ReadersOk, OrderOk, ChunksOk, WritersKnown, AtRest;
    assert ThreadOk(s.threads[t], s.chunks, s.queue);
    assert Owns(s.threads[t], s.threads[t].tls.value.chunk);
  }

  lemma ForkCopies(s: State, tid: nat, childPid: nat, ended: seq<nat>) returns (t: nat, u: nat, cursor: Cursor)
    requires Inv(s) && NothingCopied(s) && Enabled(s, Fork(tid, childPid, ended))
    requires !NoRoomLeftBehind(s, Fork(tid, childPid, ended))
    ensures CopiedAtRest(Step(s, Fork(tid, childPid, ended)), t, u, cursor)
  {
    hide Inv, Step, AtRest;
    var k :| 0 <= k < |ended| && HasRoom(s.threads[ended[k]]);
    t, u, cursor := ended[k], s.nextTid + 1 + k, s.threads[ended[k]].tls.value;
    KnownSlot(s, t);
    RestingSlot(s, t);
    ForkKeeps(s, tid, childPid, ended);
    ForkAdds(s, tid, childPid, ended);
    var s' := Step(s, Fork(tid, childPid, ended));
    assert s'.threads[u] == Thread(childPid, s.threads[ended[k]].tls, Ended, true);
    NobodyOwns(s, s', tid, childPid, ended, t, cursor.chunk);
  }

  lemma NobodyOwns(s: State, s': State, tid: nat, childPid: nat, ended: seq<nat>, t: nat, c: nat)
    requires Inv(s) && Enabled(s, Fork(tid, childPid, ended)) && s' == Step(s, Fork(tid, childPid, ended))
    requires t in ended && t in s.threads
    requires forall x :: x in s.threads && x != t ==> !Owns(s.threads[x], c)
    ensures forall x :: x in s'.threads ==> !Owns(s'.threads[x], c)
  {
    hide Inv, Step;
    CursorsOk(s, tid);
    ForkAdds(s, tid, childPid, ended);
    forall x | x in s'.threads
      ensures !Owns(s'.threads[x], c)
    {
      if x in s.threads {
        KnownSlot(s, x);
      } else if x != s.nextTid {
        assert s'.threads[x].pc.Ended? && s'.threads[x].shared;
      }
    }
  }

  lemma SlotLinked(s: State, t: nat, cursor: Cursor)
    requires Inv(s) && t in s.threads && s.threads[t].tls == Some(cursor)
    ensures cursor.chunk < |s.chunks| && |s.chunks[cursor.chunk].bytes| == CHUNK_SIZE
    ensures Linked(s, t, [cursor.chunk], View(Some(Place(0, cursor.position)), [s.chunks[cursor.chunk].bytes]))
  {
    CursorsOk(s, t);
    hide ThreadsOk, HistoryOk, ReadersOk, OrderOk, Exclusive, ChunksOk, WritersKnown;
    assert s.chunks[cursor.chunk].bytes != [];
  }

  lemma SmallestSent(b: Bytes, at: nat)
    requires |b| == CHUNK_SIZE && HasRoomAt(at)
    ensures SentView(View(Some(Place(0, at)), [b]), Smallest(), NoFault, NoFault)
         == (true, View(Some(Place(0, at + 3)), [Overwritten(b, at, [1, 0, 0])]))
  {
    SmallestFacts();
    hide Ignored, Frame, RequestSize, Overwritten, Smallest;
    var v := View(Some(Place(0, at)), [b]);
    assert ReservedView(v, 3, NoFault, NoFault) == (true, Moved(v, 3));
    assert [b][0 := Overwritten(b, at, [1, 0, 0])] == [Overwritten(b, at, [1, 0, 0])];
  }

  lemma ReuseFirst(s: State, t: nat, u: nat, cursor: Cursor)
    requires CopiedAtRest(s, t, u, cursor)
    ensures Enabled(s, ReuseSlot(t)) && SafeReuse(s, ReuseSlot(t))
    ensures var s1 := Step(s, ReuseSlot(t));
      && Inv(s1) && s1.chunks == s.chunks
      && t in s1.threads && s1.threads[t].tls == Some(cursor) && s1.threads[t].pc.Idle?
      && u in s1.threads && s1.threads[u] == s.threads[u]
  {
    hide Inv;
    StepKeepsInv(s, ReuseSlot(t));
  }

  lemma SendOver(s: State, t: nat, u: nat, cursor: Cursor) returns (actions: seq<Action>, s': State)
    requires Inv(s) && t in s.threads && s.threads[t].tls == Some(cursor) && s.threads[t].pc.Idle?
    requires u in s.threads && u != t && s.threads[u].tls == Some(cursor) && s.threads[u].pc.Ended?
    requires HasRoomAt(cursor.position)
    ensures Leads(s, actions, s') && Goes(s, actions, s')
    ensures Overtaken(s', u, cursor.chunk, cursor.position)
  {
    hide Inv, Linked, Path, Smallest, SentView, Ignored, Overwritten, Leads, Goes;
    var c, at := cursor.chunk, cursor.position;
    SlotLinked(s, t, cursor);
    var b := s.chunks[c].bytes;
    SmallestSent(b, at);
    var ids, d;
    actions, s', ids, d := SendIsPath(s, t, [c], View(Some(Place(0, at)), [b]), Smallest(), NoFault, NoFault);
    PathKeepsOthers(s, t, actions, s', false);
    PathGoes(s, t, actions, s', false);
    PathLeads(s, t, actions, s', false);
    FirstObject(s', t, ids, c, at + 3, Overwritten(b, at, [1, 0, 0]));
    OverwrittenThere(b, at);
  }

  lemma OverwrittenThere(b: Bytes, at: nat)
    requires at + 3 <= |b|
    ensures Overwritten(b, at, [1, 0, 0])[at..at + 3] == [1, 0, 0]
  {
  }

  /** The thread that is given the slot sends the smallest record; its copy is then out of date. */
  lemma FirstCopy(s: State, t: nat, u: nat, cursor: Cursor) returns (actions: seq<Action>, s': State)
    requires CopiedAtRest(s, t, u, cursor)
    ensures Leads(s, actions, s') && Goes(s, actions, s')
    ensures Overtaken(s', u, cursor.chunk, cursor.position)
  {
    hide Step, Enabled, Leads, Goes, Overtaken, SafeReuse, Inv;
    ReuseFirst(s, t, u, cursor);
    actions, s' := SendOver(Step(s, ReuseSlot(t)), t, u, cursor);
    GoesFirst(s, ReuseSlot(t), actions, s');
    LeadsFirst(s, ReuseSlot(t), actions, s');
    actions := [ReuseSlot(t)] + actions;
  }

  lemma PathLeads(s: State, t: nat, actions: seq<Action>, s': State, faults: bool)
    requires Path(s, t, actions, s', faults)
    ensures Leads(s, actions, s')
  {
    hide Leads;
  }

  lemma LeadsFirst(s: State, a: Action, actions: seq<Action>, s': State)
    requires Enabled(s, a) && SafeReuse(s, a) && Leads(Step(s, a), actions, s')
    ensures Leads(s, [a] + actions, s')
  {
    hide Enabled, Step, SafeReuse;
    assert ([a] + actions)[1..] == actions;
  }

  lemma FirstObject(s: State, t: nat, ids: seq<nat>, c: nat, at: nat, b: Bytes)
    requires [c] <= ids && Linked(s, t, ids, View(Some(Place(0, at)), [b]))
    ensures c < |s.chunks| && s.chunks[c].bytes == b
  {
    hide Inv;
    assert ids[0] == c;
  }

  // ---------------------------------------------------------------------------------------------
  // What a fork needs
  // ---------------------------------------------------------------------------------------------

  lemma LeadsIsExact(run: seq<State>, actions: seq<Action>, s': State)
    requires IsRun(run) && |run| > 0 && Leads(run[|run| - 1], actions, s')
    ensures Exact(s')
  {
    hide Leads, IsRun, SeenBySupervisor;
    var run' := PathExtendsRun(run, actions, s');
    RunNotEmpty(run');
    ReadsHistory(run', []);
  }

  lemma RunNotEmpty(run: seq<State>)
    requires IsRun(run)
    ensures |run| > 0
  {
  }

  /** After a fork that leaves room behind, a thread that is given one copy overtakes another one. */
  lemma Overtake(s: State, tid: nat, childPid: nat, ended: seq<nat>)
    returns (actions: seq<Action>, s': State, u: nat, cursor: Cursor)
    requires Inv(s) && NothingCopied(s) && Enabled(s, Fork(tid, childPid, ended))
    requires !NoRoomLeftBehind(s, Fork(tid, childPid, ended))
    ensures Leads(s, [Fork(tid, childPid, ended)] + actions, s')
    ensures Goes(Step(s, Fork(tid, childPid, ended)), actions, s')
    ensures Overtaken(s', u, cursor.chunk, cursor.position)
  {
    assert SafeReuse(s, Fork(tid, childPid, ended));
    hide Inv, Step, Enabled, CopiedAtRest, NothingCopied, Overtaken, SafeReuse, Leads, Goes, NoRoomLeftBehind;
    var t;
    t, u, cursor := ForkCopies(s, tid, childPid, ended);
    actions, s' := FirstCopy(Step(s, Fork(tid, childPid, ended)), t, u, cursor);
    LeadsFirst(s, Fork(tid, childPid, ended), actions, s');
  }

  /** After a fork that leaves room behind, two threads that are given the two copies lose a record. */
  lemma LostRecord(run: seq<State>, tid: nat, childPid: nat, ended: seq<nat>) returns (actions: seq<Action>, s': State)
    requires IsRun(run) && |run| > 0 && NothingCopied(run[|run| - 1])
    requires Enabled(run[|run| - 1], Fork(tid, childPid, ended))
    requires !NoRoomLeftBehind(run[|run| - 1], Fork(tid, childPid, ended))
    ensures Goes(Step(run[|run| - 1], Fork(tid, childPid, ended)), actions, s') && !Exact(s')
  {
    hide Inv, IsRun, Step, Enabled, Exact, NothingCopied, Overtaken, SameBytes, Leads, Goes, NoRoomLeftBehind, Smallest;
    var s := run[|run| - 1];
    RunKeepsInvAtEnd(run);
    var before, s1, u, cursor := Overtake(s, tid, childPid, ended);
    LeadsIsExact(run, [Fork(tid, childPid, ended)] + before, s1);
    var after;
    after, s' := SecondCopy(s1, u, cursor.chunk, cursor.position);
    OneTooMany(s1, s', cursor.chunk, Event(u, Smallest()));
    GoesOn(Step(s, Fork(tid, childPid, ended)), before, s1, after, s');
    actions := before + after;
  }

  /** However the run goes on, later forks leaving no room behind, the supervisor reads exactly what was
      published. */
  ghost predicate StaysExact(s: State) {
    forall actions, s' :: Goes(s, actions, s') ==> Exact(s')
  }

  /** A fork leaves every way to go on exact, whatever slots are reused, exactly when it leaves no room for a
      request behind in the slots of ended threads. */
  lemma ForkIsExactExactly(run: seq<State>, tid: nat, childPid: nat, ended: seq<nat>)
    requires IsRun(run) && |run| > 0 && NothingCopied(run[|run| - 1])
    requires Enabled(run[|run| - 1], Fork(tid, childPid, ended))
    ensures StaysExact(Step(run[|run| - 1], Fork(tid, childPid, ended)))
       <==> NoRoomLeftBehind(run[|run| - 1], Fork(tid, childPid, ended))
  {
    var s, x := run[|run| - 1], Fork(tid, childPid, ended);
    hide Inv, IsRun, Step, Enabled, Exact, NothingCopied, NoRoomLeftBehind, Goes, Leads;
    if NoRoomLeftBehind(s, x) {
      RunKeepsInvAtEnd(run);
      forall actions, s' | Goes(Step(s, x), actions, s')
        ensures Exact(s')
      {
        CleanForkGoes(s, x, actions, s');
        LeadsIsExact(run, [x] + actions, s');
      }
    } else {
      var actions, s' := LostRecord(run, tid, childPid, ended);
    }
  }

  lemma CleanForkGoes(s: State, x: Action, actions: seq<Action>, s': State)
    requires Inv(s) && NothingCopied(s) && x.Fork? && Enabled(s, x) && NoRoomLeftBehind(s, x)
    requires Goes(Step(s, x), actions, s')
    ensures Leads(s, [x] + actions, s')
  {
    assert SafeReuse(s, x);
    hide Inv, Step, Enabled, NothingCopied, NoRoomLeftBehind, Goes, Leads, SafeReuse;
    StepKeepsInv(s, x);
    StepCopiesNothing(s, x);
    GoesSafely(Step(s, x), actions, s');
    LeadsFirst(s, x, actions, s');
  }

  /** No two slots have room in one chunk. */
  ghost predicate OneWriterEach(s: State) {
    forall t, u, c :: t in s.threads && u in s.threads && HasRoomIn(s.threads[t], c) && HasRoomIn(s.threads[u], c) ==>
      t == u
  }

  lemma NothingCopiedOneWriter(s: State)
    requires Inv(s) && NothingCopied(s)
    ensures OneWriterEach(s)
  {
    hide ThreadsOk, HistoryOk, ReadersOk, OrderOk, ChunksOk, WritersKnown;
    forall t, u, c | t in s.threads && u in s.threads && HasRoomIn(s.threads[t], c) && HasRoomIn(s.threads[u], c)
      ensures t == u
    {
      assert Owns(s.threads[t], c) && Owns(s.threads[u], c);
    }
  }

  lemma CopiesShareRoom(s: State, t: nat, u: nat, cursor: Cursor)
    requires CopiedAtRest(s, t, u, cursor)
    ensures !OneWriterEach(s)
  {
    hide Inv;
    assert HasRoomIn(s.threads[t], cursor.chunk) && HasRoomIn(s.threads[u], cursor.chunk);
  }

  lemma OneWriterAfterFork(s: State, tid: nat, childPid: nat, ended: seq<nat>)
    requires Inv(s) && NothingCopied(s) && Enabled(s, Fork(tid, childPid, ended))
    ensures OneWriterEach(Step(s, Fork(tid, childPid, ended))) <==> NoRoomLeftBehind(s, Fork(tid, childPid, ended))
  {
    hide Inv, Enabled, Step, OneWriterEach, NothingCopied, CopiedAtRest, NoRoomLeftBehind;
    if NoRoomLeftBehind(s, Fork(tid, childPid, ended)) {
      ForkKeeps(s, tid, childPid, ended);
      ForkCopiesNothing(s, Fork(tid, childPid, ended));
      NothingCopiedOneWriter(Step(s, Fork(tid, childPid, ended)));
    } else {
      var t, u, cursor := ForkCopies(s, tid, childPid, ended);
      CopiesShareRoom(Step(s, Fork(tid, childPid, ended)), t, u, cursor);
    }
  }

  /** The same condition says when a fork keeps the rule of one slot with room for each chunk: the handler does
      not see the slots of ended threads, so the child gets a second cursor into the same free space. */
  lemma ForkKeepsOneWriterExactly(run: seq<State>, tid: nat, childPid: nat, ended: seq<nat>)
    requires IsRun(run) && |run| > 0 && NothingCopied(run[|run| - 1])
    requires Enabled(run[|run| - 1], Fork(tid, childPid, ended))
    ensures OneWriterEach(Step(run[|run| - 1], Fork(tid, childPid, ended)))
       <==> NoRoomLeftBehind(run[|run| - 1], Fork(tid, childPid, ended))
  {
    hide IsRun, Inv, Enabled, Step, OneWriterEach, NothingCopied, NoRoomLeftBehind;
    RunKeepsInvAtEnd(run);
    OneWriterAfterFork(run[|run| - 1], tid, childPid, ended);
  }

  // ---------------------------------------------------------------------------------------------
  // It happens
  // ---------------------------------------------------------------------------------------------

  lemma SendStepKeepsOthers(s: State, a: Action, tid: nat)
    requires Enabled(s, a) && IsSendStep(a, tid) && tid in s.threads
    ensures var s' := Step(s, a);
      && s'.threads.Keys == s.threads.Keys && s'.threads[tid].pid == s.threads[tid].pid
      && forall t :: t in s.threads && t != tid ==> s'.threads[t] == s.threads[t]
  {
    hide Frame, Encode, RequestSize;
  }

  lemma {:induction false} PathKeepsOthers(s: State, tid: nat, actions: seq<Action>, s': State, faults: bool)
    requires Path(s, tid, actions, s', faults) && tid in s.threads
    ensures s'.threads.Keys == s.threads.Keys && s'.threads[tid].pid == s.threads[tid].pid
    ensures forall t :: t in s.threads && t != tid ==> s'.threads[t] == s.threads[t]
    decreases |actions|
  {
    hide Enabled, Step, SafeReuse;
    if actions != [] {
      SendStepKeepsOthers(s, actions[0], tid);
      PathKeepsOthers(Step(s, actions[0]), tid, actions[1..], s', faults);
    }
  }

  /** A process with an idle thread 0 and an idle thread 1 that has sent nothing. */
  function TwoThreads(): State {
    State([], [], map[0 := Thread(1, None, Idle, false), 1 := Thread(1, None, Idle, false)], 2, [], map[])
  }

  lemma TwoThreadsReached() returns (run: seq<State>)
    ensures IsRun(run) && |run| > 0 && run[|run| - 1] == TwoThreads()
  {
    var start := State([], [], map[0 := Thread(1, None, Idle, false)], 1, [], map[]);
    assert Init(start);
    assert Enabled(start, SpawnThread(0)) && Step(start, SpawnThread(0)) == TwoThreads();
    assert SafeReuse(start, SpawnThread(0));
    run := [start, TwoThreads()];
    assert Next(start, TwoThreads());
  }

  lemma FirstSend(a: PathAccess)
    requires !Ignored(a.path) && RequestSize(a) + MIN_REQUEST <= CHUNK_SIZE
    ensures var (ok, v) := SentView(View(None, []), a, NoFault, NoFault);
      ok && v.cursor == Some(Place(0, RequestSize(a)))
  {
    hide RequestSize, Frame, Ignored;
  }

  /** The idle slot 1 of two, which has sent something and has room left, ends. */
  lemma EndedWithRoom(s: State)
    requires s.threads.Keys == {0, 1} && s.threads[0].pid == s.threads[1].pid == 1
    requires s.threads[0] == Thread(1, None, Idle, false) && s.threads[1].pc.Idle? && HasRoom(s.threads[1])
    ensures Enabled(s, EndThread(1)) && Enabled(Step(s, EndThread(1)), Fork(0, 2, [1]))
    ensures !NoRoomLeftBehind(Step(s, EndThread(1)), Fork(0, 2, [1]))
  {
    assert [1][0] == 1;
  }

  /** Thread 1 sends `a`. */
  lemma SentByOne(a: PathAccess) returns (run: seq<State>)
    requires !Ignored(a.path) && RequestSize(a) + MIN_REQUEST <= CHUNK_SIZE
    ensures IsRun(run) && |run| > 0 && NothingCopied(run[|run| - 1]) && Inv(run[|run| - 1])
    ensures var s := run[|run| - 1];
      && s.threads.Keys == {0, 1} && s.threads[0].pid == s.threads[1].pid == 1
      && s.threads[0] == Thread(1, None, Idle, false) && s.threads[1].pc.Idle? && HasRoom(s.threads[1])
  {
    hide Linked, Path, SentView, Ignored, RequestSize, IsRun, Inv, Goes, NothingCopied, Leads;
    run := TwoThreadsReached();
    RunKeepsInvAtEnd(run);
    var s, v := TwoThreads(), View(None, []);
    FreshSlotLinked(s, 1);
    var path, s1, ids, c := SendIsPath(s, 1, [], v, a, NoFault, NoFault);
    FirstSend(a);
    PathKeepsOthers(s, 1, path, s1, false);
    LinkedThread(s1, 1, ids, SentView(v, a, NoFault, NoFault).1);
    PathGoes(s, 1, path, s1, false);
    NothingSentNothingCopied();
    GoesSafely(s, path, s1);
    run := PathReaches(run, 1, path, s1, false);
  }

  /** One thread sends `a` and ends, another one forks; the next thread of the parent and the next one of the
      child, given the slot and its copy, each publish a record, and the supervisor reads one of them only. */
  lemma RecordIsLost(a: PathAccess) returns (run: seq<State>, actions: seq<Action>, s': State)
    requires !Ignored(a.path) && RequestSize(a) + MIN_REQUEST <= CHUNK_SIZE
    ensures IsRun(run) && |run| > 0 && Enabled(run[|run| - 1], Fork(0, 2, [1]))
    ensures !NoRoomLeftBehind(run[|run| - 1], Fork(0, 2, [1]))
    ensures Goes(Step(run[|run| - 1], Fork(0, 2, [1])), actions, s') && !Exact(s')
  {
    hide Ignored, RequestSize, IsRun, Inv, Exact, Goes, NothingCopied, Step, NoRoomLeftBehind;
    run := SentByOne(a);
    var s1 := run[|run| - 1];
    EndedWithRoom(s1);
    EndIsClean(s1);
    EndReaches(run, s1, 1);
    run := run + [Step(s1, EndThread(1))];
    actions, s' := LostRecord(run, 0, 2, [1]);
  }

  lemma EndIsClean(s: State)
    requires Inv(s) && NothingCopied(s) && Enabled(s, EndThread(1))
    ensures NothingCopied(Step(s, EndThread(1)))
  {
    hide Inv;
    StepCopiesNothing(s, EndThread(1));
  }

  lemma NothingSentNothingCopied()
    ensures NothingCopied(TwoThreads())
  {
  }

  lemma RunKeepsInvAtEnd(run: seq<State>)
    requires IsRun(run)
    ensures |run| > 0 && Inv(run[|run| - 1])
  {
    hide Inv, Next, Init;
    RunKeepsInv(run, |run| - 1);
  }

  lemma FreshSlotLinked(s: State, tid: nat)
    requires Inv(s) && tid in s.threads && s.threads[tid].tls == None
    ensures Linked(s, tid, [], View(None, []))
  {
    hide Inv;
  }

  lemma PathReaches(run: seq<State>, tid: nat, actions: seq<Action>, s': State, faults: bool) returns (run': seq<State>)
    requires IsRun(run) && |run| > 0 && Path(run[|run| - 1], tid, actions, s', faults)
    ensures IsRun(run') && |run'| > 0 && run'[|run'| - 1] == s'
  {
    hide Leads, IsRun;
    run' := PathExtendsRun(run, actions, s');
    RunNotEmpty(run');
  }

  lemma EndReaches(run: seq<State>, s: State, tid: nat)
    requires IsRun(run) && |run| > 0 && run[|run| - 1] == s && Enabled(s, EndThread(tid))
    ensures IsRun(run + [Step(s, EndThread(tid))])
  {
    assert SafeReuse(s, EndThread(tid));
    hide IsRun;
    RunGoesOn(run, Step(s, EndThread(tid)));
  }
}
