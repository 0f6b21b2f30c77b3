/** Which sends are published: exactly those whose record fits a chunk, and always when nothing fails. */
module LogProgress {
  import opened Common
  import opened PathAccesses
  import opened AccessLog
  import opened LogMachine
  import opened LogSafety
  import opened LogTheorems
  import opened LogPaths
  import opened Client

  // ---------------------------------------------------------------------------------------------
  // Left alone
  // ---------------------------------------------------------------------------------------------

  /** Any slot is some client: one that has sent the chunk its cursor points into. */
  lemma SlotIsClient(s: State, tid: nat) returns (ids: seq<nat>, v: View)
    requires Inv(s) && tid in s.threads
    ensures Linked(s, tid, ids, v)
  {
    CursorFacts(s, tid);
    hide ThreadsOk, HistoryOk, ReadersOk, OrderOk, Exclusive, ChunksOk, WritersKnown;
    match s.threads[tid].tls
    case None => ids, v := [], View(None, []);
    case Some(cursor) =>
      ids, v := [cursor.chunk], View(Some(Place(0, cursor.position)), [s.chunks[cursor.chunk].bytes]);
      assert s.chunks[cursor.chunk].bytes != [];
  }

  lemma FittingSendSucceeds(v: View, a: PathAccess)
    requires RequestSize(a) <= CHUNK_SIZE
    ensures SentView(v, a, NoFault, NoFault).0
  {
    hide RequestSize, Frame, Ignored;
  }

  /** Left alone, with no call failing, an idle slot publishes any record that fits a chunk, whatever its
      cursor: every step is the slot's own and none is a failure. */
  lemma SendOut(s: State, tid: nat, a: PathAccess) returns (actions: seq<Action>, s': State, c: nat)
    requires Inv(s) && Enabled(s, Begin(tid, a)) && RequestSize(a) <= CHUNK_SIZE
    ensures Path(s, tid, actions, s', false) && |actions| > 0 && actions[0] == Begin(tid, a)
    ensures s'.history == s.history + [(c, Event(tid, a))]
  {
    hide Inv, Linked, Path, SentView, Ignored, RequestSize;
    var ids, v := SlotIsClient(s, tid);
    var ids';
    actions, s', ids', c := SendIsPath(s, tid, ids, v, a, NoFault, NoFault);
    FittingSendSucceeds(v, a);
  }

  // ---------------------------------------------------------------------------------------------
  // Capacity
  // ---------------------------------------------------------------------------------------------

  lemma {:induction false} StoredInHas(history: seq<(nat, Event)>, k: nat) returns (j: nat)
    requires k < |history|
    ensures j < |StoredIn(history, history[k].0)| && StoredIn(history, history[k].0)[j] == history[k].1
  {
    var init := history[..|history| - 1];
    if k == |init| {
      j := |StoredIn(init, history[k].0)|;
    } else {
      j := StoredInHas(init, k);
      assert init[k] == history[k];
    }
  }

  /** Whatever was published fits a chunk. */
  lemma PublishedFits(s: State, k: nat)
    requires Inv(s) && k < |s.history|
    ensures RequestSize(s.history[k].1.access) <= CHUNK_SIZE
  {
    hide ThreadsOk, ReadersOk, OrderOk, Exclusive, Frame, Encode, Layout, StoredIn;
    var c := s.history[k].0;
    var j := StoredInHas(s.history, k);
    assert ChunkOk(s.chunks[c]);
    LayoutSplit(s.chunks[c].Records(), j);
  }

  /** The slot's own fault-free steps can publish `a` next. */
  ghost predicate CanPublish(s: State, tid: nat, a: PathAccess) {
    exists actions: seq<Action>, s': State, c: nat ::
      Path(s, tid, actions, s', false) && |actions| > 0 && actions[0] == Begin(tid, a)
      && s'.history == s.history + [(c, Event(tid, a))]
  }

  lemma PublishedIsNotIgnored(s: State, tid: nat, a: PathAccess)
    requires CanPublish(s, tid, a)
    ensures !Ignored(a.path)
  {
    hide Ignored;
    var actions: seq<Action>, s': State, c: nat :|
      Path(s, tid, actions, s', false) && |actions| > 0 && actions[0] == Begin(tid, a)
      && s'.history == s.history + [(c, Event(tid, a))];
    assert Enabled(s, actions[0]);
  }

  /** From every reachable state, whatever the cursor of an idle slot: an access can be published exactly when
      its path is not below `/dev/`, `/proc/` or `/sys/` and has at most 262137 bytes. */
  lemma ExactCapacity(run: seq<State>, i: nat, tid: nat, a: PathAccess)
    requires IsRun(run) && i < |run| && tid in run[i].threads && run[i].threads[tid].pc.Idle?
    ensures CanPublish(run[i], tid, a) <==>
      && !([47, 100, 101, 118, 47] <= a.path)
      && !([47, 112, 114, 111, 99, 47] <= a.path)
      && !([47, 115, 121, 115, 47] <= a.path)
      && |a.path| <= 262137
  {
    hide IsRun, Inv, Leads, RequestSize, Ignored;
    var s := run[i];
    RunKeepsInv(run, i);
    RequestFits(a);
    IgnoredExactly(a.path);
    if !Ignored(a.path) && |a.path| <= 262137 {
      var actions, s', c := SendOut(s, tid, a);
    }
    if CanPublish(s, tid, a) {
      PublishedIsNotIgnored(s, tid, a);
      var actions: seq<Action>, s': State, c: nat :|
        Path(s, tid, actions, s', false) && |actions| > 0 && actions[0] == Begin(tid, a)
        && s'.history == s.history + [(c, Event(tid, a))];
      LeadsKeepsInv(s, actions, s');
      PublishedFits(s', |s.history|);
    }
  }

  // ---------------------------------------------------------------------------------------------
  // In any company
  // ---------------------------------------------------------------------------------------------

  /** The slot is on its way to publish `a`. A second chunk is empty when the record is tried on it. */
  ghost predicate Pending(s: State, tid: nat, a: PathAccess) {
    && tid in s.threads
    && match s.threads[tid].pc
       case Advancing(b, replaced) =>
         b == a && (replaced ==> s.threads[tid].tls.Some? && s.threads[tid].tls.value.position == 0)
       case Opening(b, _) => b == a
       case Creating(b, _, _, _) => b == a
       case Writing(b, _, _) => b == a
       case _ => false
  }

  /** The step is no failure of the slot's own calls and does not take its process away. */
  predicate Undisturbed(s: State, x: Action, tid: nat) {
    && x != FailOs(tid)
    && (x.Die? || x.Exec? ==> tid in s.threads && s.threads[tid].pid != x.pid)
  }

  ghost predicate AllUndisturbed(s: State, actions: seq<Action>, tid: nat)
    decreases |actions|
  {
    actions == []
    || (Undisturbed(s, actions[0], tid) && Enabled(s, actions[0])
        && AllUndisturbed(Step(s, actions[0]), actions[1..], tid))
  }

  ghost predicate PublishedNow(s: State, s': State, tid: nat, a: PathAccess) {
    exists c :: s'.history == s.history + [(c, Event(tid, a))]
  }

  /** An advance that fails on an empty chunk would be a record that does not fit. */
  lemma AdvanceGoesOn(s: State, tid: nat, a: PathAccess)
    requires Inv(s) && Enabled(s, Advance(tid)) && Pending(s, tid, a) && RequestSize(a) <= CHUNK_SIZE
    ensures Pending(Step(s, Advance(tid)), tid, a)
  {
    CursorFacts(s, tid);
    hide Inv, RequestSize, Encode, Frame;
  }

  lemma OwnStepGoesOn(s: State, x: Action, tid: nat, a: PathAccess)
    requires Inv(s) && Enabled(s, x) && IsSendStep(x, tid) && Undisturbed(s, x, tid) && Pending(s, tid, a)
    requires RequestSize(a) <= CHUNK_SIZE
    ensures Pending(Step(s, x), tid, a) || PublishedNow(s, Step(s, x), tid, a)
  {
    hide Inv, RequestSize, Encode, Frame;
    if x.Advance? {
      AdvanceGoesOn(s, tid, a);
    } else if x.StoreFlag? {
      assert Step(s, x).history == s.history + [(s.threads[tid].tls.value.chunk, Event(tid, a))];
    }
  }

  lemma ForkGoesOn(s: State, x: Action, tid: nat, a: PathAccess)
    requires Inv(s) && x.Fork? && Enabled(s, x) && Pending(s, tid, a)
    ensures Pending(Step(s, x), tid, a)
  {
    hide Inv, Encode, Frame, Step;
    KnownSlot(s, tid);
    ForkAdds(s, x.tid, x.childPid, x.ended);
  }

  lemma OtherStepGoesOn(s: State, x: Action, tid: nat, a: PathAccess)
    requires Inv(s) && Enabled(s, x) && !IsSendStep(x, tid) && Undisturbed(s, x, tid) && Pending(s, tid, a)
    ensures Pending(Step(s, x), tid, a)
  {
    hide Inv, Encode, Frame, Decode, Ignored, RequestSize, ForkStep, AdvanceThread, BeginPc, DecodeReader,
      LoadFlagReader;
    KnownSlot(s, tid);
    if x.Fork? {
      ForkGoesOn(s, x, tid, a);
    }
  }

  lemma {:induction false} LeadsGrows(s: State, actions: seq<Action>, s': State)
    requires Leads(s, actions, s')
    ensures s.history <= s'.history
    decreases |actions|
  {
    hide Enabled, Step, SafeReuse;
    if actions != [] {
      StepExtends(s, actions[0]);
      LeadsGrows(Step(s, actions[0]), actions[1..], s');
    }
  }

  lemma {:induction false} PendingGoesOn(s: State, actions: seq<Action>, s': State, tid: nat, a: PathAccess)
    requires Inv(s) && Leads(s, actions, s') && AllUndisturbed(s, actions, tid) && Pending(s, tid, a)
    requires RequestSize(a) <= CHUNK_SIZE
    ensures Pending(s', tid, a) || exists k :: |s.history| <= k < |s'.history| && s'.history[k].1 == Event(tid, a)
    decreases |actions|
  {
    hide Inv, Enabled, Step, SafeReuse, Pending, Undisturbed, RequestSize;
    if actions != [] {
      var x, s1 := actions[0], Step(s, actions[0]);
      StepKeepsInv(s, x);
      StepExtends(s, x);
      LeadsGrows(s1, actions[1..], s');
      if IsSendStep(x, tid) {
        OwnStepGoesOn(s, x, tid, a);
      } else {
        OtherStepGoesOn(s, x, tid, a);
      }
      if Pending(s1, tid, a) {
        PendingGoesOn(s1, actions[1..], s', tid, a);
      } else {
        assert s'.history[|s.history|] == s1.history[|s.history|];
      }
    }
  }

  lemma BeginIsPending(s: State, tid: nat, a: PathAccess)
    requires Enabled(s, Begin(tid, a))
    ensures Pending(Step(s, Begin(tid, a)), tid, a)
  {
  }

  /** Whoever else is at work, and whatever they do: once a send of a fitting record has begun, none of its
      own calls fails and its process stays, it has published the record when its slot is idle again. */
  lemma EverySendPublishes(run: seq<State>, i: nat, tid: nat, a: PathAccess, actions: seq<Action>, s': State)
    requires IsRun(run) && i < |run| && Enabled(run[i], Begin(tid, a)) && |a.path| <= MAX_PATH
    requires Leads(Step(run[i], Begin(tid, a)), actions, s')
    requires AllUndisturbed(Step(run[i], Begin(tid, a)), actions, tid)
    requires tid in s'.threads && s'.threads[tid].pc.Idle?
    ensures exists k :: |run[i].history| <= k < |s'.history| && s'.history[k].1 == Event(tid, a)
  {
    hide IsRun, Inv, Leads, AllUndisturbed, RequestSize, Ignored;
    RequestFits(a);
    RunKeepsInv(run, i);
    StepKeepsInv(run[i], Begin(tid, a));
    BeginIsPending(run[i], tid, a);
    PendingGoesOn(Step(run[i], Begin(tid, a)), actions, s', tid, a);
  }

  // ---------------------------------------------------------------------------------------------
  // The imperative client among others
  // ---------------------------------------------------------------------------------------------

  lemma EventsGrow(history: seq<(nat, Event)>, c: nat, e: Event)
    ensures multiset(Accesses(Events(history + [(c, e)]))) == multiset(Accesses(Events(history))) + multiset{e.access}
  {
    EventsAppend(history, c, e);
    AccessesAppend(Events(history), e);
  }

  /** The supervisor, iterating over the chunks sent so far, reads these accesses and then the arenas. */
  ghost predicate SeenBySupervisor(s: State, arenas: seq<seq<PathAccess>>, accesses: multiset<PathAccess>) {
    && QueueOk(s)
    && exists output: seq<PathAccess> ::
         ReadAll(SentBytes(s), arenas) == Items(output + Flatten(arenas)) && multiset(output) == accesses
  }

  lemma ReadsHistory(run: seq<State>, arenas: seq<seq<PathAccess>>)
    requires IsRun(run) && |run| > 0
    ensures var s := run[|run| - 1]; SeenBySupervisor(s, arenas, multiset(Accesses(Events(s.history))))
  {
    hide IsRun, Output, ReadAll, By, Accesses, Events;
    OutputIsHistory(run, |run| - 1, arenas, 0);
    var s := run[|run| - 1];
    var output := Accesses(Output(s.chunks, s.queue));
    assert ReadAll(SentBytes(s), arenas) == Items(output + Flatten(arenas));
  }

  /** `Client.Send` in a run of any number of processes: when its slot is the client `v` and idle, the run
      goes on to a state in which it is the client that `Send` leaves, whatever fails on the way, and in
      which the supervisor reads all that was published before and, if the send published, one more access. */
  lemma SendInCompany(
    run: seq<State>, tid: nat, ids: seq<nat>, v: View, a: PathAccess, first: ShmFault, second: ShmFault,
    arenas: seq<seq<PathAccess>>) returns (run': seq<State>, ids': seq<nat>)
    requires IsRun(run) && |run| > 0 && Linked(run[|run| - 1], tid, ids, v) && run[|run| - 1].threads[tid].pc.Idle?
    ensures IsRun(run') && |run'| > 0 && run <= run'
    ensures var (ok, v') := SentView(v, a, first, second);
      var s, s' := run[|run| - 1], run'[|run'| - 1];
      && Linked(s', tid, ids', v') && s'.threads[tid].pc.Idle?
      && SeenBySupervisor(s', arenas, multiset(Accesses(Events(s.history)))
                                     + (if ok && !Ignored(a.path) then multiset{a} else multiset{}))
  {
    hide IsRun, Inv, Linked, Path, SentView, Ignored, SeenBySupervisor, Accesses, Events;
    var s := run[|run| - 1];
    var actions, s', c;
    actions, s', ids', c := SendIsPath(s, tid, ids, v, a, first, second);
    run' := PathRun(run, tid, actions, s', !(first.NoFault? && second.NoFault?));
    ReadsHistory(run', arenas);
    EventsGrow(s.history, c, Event(tid, a));
    var (ok, v') := SentView(v, a, first, second);
    if !ok || Ignored(a.path) {
      assert s'.history == s.history;
      assert multiset(Accesses(Events(s.history))) + multiset{} == multiset(Accesses(Events(s.history)));
    }
  }

  lemma PathRun(run: seq<State>, tid: nat, actions: seq<Action>, s': State, faults: bool) returns (run': seq<State>)
    requires IsRun(run) && |run| > 0 && Path(run[|run| - 1], tid, actions, s', faults)
    ensures IsRun(run') && |run'| > 0 && run <= run' && run'[|run'| - 1] == s'
  {
    hide Leads, IsRun;
    run' := PathExtendsRun(run, actions, s');
  }
}
