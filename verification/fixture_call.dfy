/** `Fixture::write_to` itself: one call, with the directory changing under it. */
module FixtureCalls {
  import opened Common
  import opened Fixtures

  /** One operation of the call: the directory it met and the directory it left. */
  datatype Moved = Moved(before: Directory, action: Action, after: Directory)

  /** Where the operations lead, if each of them is the caller's next move. */
  function PcAfter(c: Caller, moves: seq<Moved>): Option<Pc>
    decreases |moves|
  {
    if moves == [] then Some(c.pc)
    else
      var m := moves[|moves| - 1];
      match PcAfter(c, moves[..|moves| - 1])
      case None => None
      case Some(pc) =>
        if CanMove(m.before, c.(pc := pc), m.action) && Move(m.before, c.(pc := pc), m.action).0 == m.after then
          Some(Move(m.before, c.(pc := pc), m.action).1)
        else None
  }

  lemma OneMore(c: Caller, moves: seq<Moved>, m: Moved)
    requires PcAfter(c, moves).Some?
    requires CanMove(m.before, c.(pc := PcAfter(c, moves).value), m.action)
    requires Move(m.before, c.(pc := PcAfter(c, moves).value), m.action).0 == m.after
    ensures PcAfter(c, moves + [m]) == Some(Move(m.before, c.(pc := PcAfter(c, moves).value), m.action).1)
  {
    assert (moves + [m])[..|moves|] == moves;
  }

  /** Between two operations others are at work. */
  ghost predicate Interleaved(moves: seq<Moved>, others: (nat, Directory) -> Directory) {
    forall k :: 0 < k < |moves| ==> moves[k].before == others(k, moves[k - 1].after)
  }

  /** What the system answers to the `k`-th operation: whether it would succeed, and how many bytes a
      write would take. */
  type Answers = nat -> (bool, nat)

  class Disk {
    var dir: Directory

    constructor (dir: Directory)
      ensures this.dir == dir
    {
      this.dir := dir;
    }
  }

  /** The operations so far are the caller's moves from directory `start` to `now`, and lead to `pc`. */
  ghost predicate Reached(
    c: Caller, moves: seq<Moved>, others: (nat, Directory) -> Directory, start: Directory, now: Directory, pc: Pc)
  {
    && PcAfter(c, moves) == Some(pc)
    && |moves| > 0 && moves[0].before == start && moves[|moves| - 1].after == now
    && Interleaved(moves, others)
  }

  /** `write_all`: writes until everything is written, however short the single writes are. */
  method WriteAll(
    disk: Disk, c: Caller, answers: Answers, others: (nat, Directory) -> Directory, file: nat, moves0: seq<Moved>,
    ghost start: Directory) returns (ok: bool, moves: seq<Moved>)
    requires Reached(c, moves0, others, start, disk.dir, Write(file, 0))
    modifies disk
    ensures Reached(c, moves, others, start, disk.dir,
                    if ok then Write(file, |c.fixture.content|) else Returned(false))
  {
    hide Reached, FinalName, Hex;
    moves := moves0;
    var written := 0;
    while written < |c.fixture.content|
      invariant written <= |c.fixture.content|
      invariant Reached(c, moves, others, start, disk.dir, Write(file, written))
    {
      var k := |moves|;
      ghost var left, pc := disk.dir, Write(file, written);
      disk.dir := others(k, disk.dir);
      var before := disk.dir;
      if !answers(k).0 || file >= |disk.dir.data| {
        moves := Log(c, others, moves, Moved(before, Fail(0), disk.dir), start, left, pc);
        return false, moves;
      }
      var rest := |c.fixture.content| - written;
      var n := if answers(k).1 == 0 then 1 else if answers(k).1 > rest then rest else answers(k).1;
      disk.dir := disk.dir.Appended(file, c.fixture.content[written..written + n]);
      moves := Log(c, others, moves, Moved(before, Go(0, n), disk.dir), start, left, pc);
      written := written + n;
    }
    ok := true;
  }

  /** The rename, and what is done when it fails. */
  method Install(
    disk: Disk, c: Caller, answers: Answers, others: (nat, Directory) -> Directory, file: nat, moves0: seq<Moved>,
    ghost start: Directory) returns (ok: bool, moves: seq<Moved>)
    requires Reached(c, moves0, others, start, disk.dir, Rename(file))
    modifies disk
    ensures Reached(c, moves, others, start, disk.dir, Returned(ok))
  {
    hide Reached, FinalName, Hex;
    var path, tmp, k := c.Final(), c.Temporary(), |moves0|;
    ghost var left := disk.dir;
    disk.dir := others(k, disk.dir);
    var before := disk.dir;
    if answers(k).0 && tmp in disk.dir.files {
      disk.dir := disk.dir.Renamed(tmp, path);
      moves := Log(c, others, moves0, Moved(before, Go(0, 0), disk.dir), start, left, Rename(file));
      return true, moves;
    }
    moves := Log(c, others, moves0, Moved(before, Fail(0), disk.dir), start, left, Rename(file));
    left := disk.dir;
    disk.dir := others(k + 1, disk.dir);
    if !answers(k + 1).0 {
      moves := Log(c, others, moves, Moved(disk.dir, Fail(0), disk.dir), start, left, Recheck(file));
      return false, moves;
    }
    moves := Log(c, others, moves, Moved(disk.dir, Go(0, 0), disk.dir), start, left, Recheck(file));
    if path !in disk.dir.files {
      return false, moves;
    }
    left := disk.dir;
    disk.dir := others(k + 2, disk.dir);
    before := disk.dir;
    if !answers(k + 2).0 {
      moves := Log(c, others, moves, Moved(before, Fail(0), disk.dir), start, left, Remove(file));
      return false, moves;
    }
    disk.dir := disk.dir.Removed(tmp);
    moves := Log(c, others, moves, Moved(before, Go(0, 0), disk.dir), start, left, Remove(file));
    ok := true;
  }

  /** `write_to`. Its operations are exactly the moves of a caller, one after the other, until the call
      returns. `CallIsRun` makes a run of callers of them. */
  method WriteTo(disk: Disk, c: Caller, answers: Answers, others: (nat, Directory) -> Directory)
    returns (r: Result<Bytes, ()>, moves: seq<Moved>)
    requires c.pc == Check
    modifies disk
    ensures Reached(c, moves, others, old(disk.dir), disk.dir, Returned(r.Ok?))
    ensures r.Ok? ==> r.value == c.Final()
  {
    hide Reached, FinalName, Hex;
    var path, tmp := c.Final(), c.Temporary();
    ghost var start := disk.dir;
    if !answers(0).0 {
      moves := First(c, others, Moved(disk.dir, Fail(0), disk.dir));
      return Err(()), moves;
    }
    moves := First(c, others, Moved(disk.dir, Go(0, 0), disk.dir));
    if path in disk.dir.files {
      return Ok(path), moves;
    }
    ghost var left := disk.dir;
    disk.dir := others(1, disk.dir);
    if !answers(1).0 || tmp in disk.dir.files {
      moves := Log(c, others, moves, Moved(disk.dir, Fail(0), disk.dir), start, left, Create);
      return Err(()), moves;
    }
    var file, before := |disk.dir.data|, disk.dir;
    disk.dir := disk.dir.Created(tmp);
    moves := Log(c, others, moves, Moved(before, Go(0, 0), disk.dir), start, left, Create);
    var ok;
    ok, moves := WriteAll(disk, c, answers, others, file, moves, start);
    if !ok {
      return Err(()), moves;
    }
    // The file is closed.
    left := disk.dir;
    disk.dir := others(|moves|, disk.dir);
    moves := Log(c, others, moves, Moved(disk.dir, Go(0, 0), disk.dir), start, left, Write(file, |c.fixture.content|));
    ok, moves := Install(disk, c, answers, others, file, moves, start);
    r := if ok then Ok(path) else Err(());
  }

  /** The first operation. */
  method First(c: Caller, others: (nat, Directory) -> Directory, m: Moved) returns (moves: seq<Moved>)
    requires CanMove(m.before, c, m.action) && Move(m.before, c, m.action).0 == m.after
    ensures Reached(c, moves, others, m.before, m.after, Move(m.before, c, m.action).1)
    ensures |moves| == 1
  {
    assert c == c.(pc := c.pc);
    OneMore(c, [], m);
    moves := [m];
    assert moves == [] + [m];
  }

  /** One more operation, after others were at work. */
  method Log(
    c: Caller, others: (nat, Directory) -> Directory, moves: seq<Moved>, m: Moved,
    ghost start: Directory, ghost left: Directory, ghost pc: Pc) returns (longer: seq<Moved>)
    requires Reached(c, moves, others, start, left, pc) && m.before == others(|moves|, left)
    requires CanMove(m.before, c.(pc := pc), m.action) && Move(m.before, c.(pc := pc), m.action).0 == m.after
    ensures Reached(c, longer, others, start, m.after, Move(m.before, c.(pc := pc), m.action).1)
    ensures |longer| == |moves| + 1
  {
    hide PcAfter, CanMove, Move;
    OneMore(c, moves, m);
    longer := moves + [m];
    assert longer[0] == moves[0] && longer[|longer| - 1] == m;
    forall k | 0 < k < |longer|
      ensures longer[k].before == others(k, longer[k - 1].after)
    {
      if k < |moves| {
        assert longer[k] == moves[k] && longer[k - 1] == moves[k - 1];
      } else {
        assert longer[k - 1] == moves[|moves| - 1];
      }
    }
  }

  // ---------------------------------------------------------------------------------------------
  // The call among other callers
  // ---------------------------------------------------------------------------------------------

  /** Where a list of actions leads. */
  function Acted(s: State, actions: seq<Action>): State
    decreases |actions|
  {
    if actions == [] || !Enabled(s, actions[0]) then s else Acted(Step(s, actions[0]), actions[1..])
  }

  /** The actions can be taken, and none is caller `i`'s. */
  ghost predicate OfOthers(s: State, actions: seq<Action>, i: nat)
    decreases |actions|
  {
    actions == []
    || (Enabled(s, actions[0]) && actions[0].i != i && OfOthers(Step(s, actions[0]), actions[1..], i))
  }

  /** The same action, taken by caller `i`. */
  function By(a: Action, i: nat): Action {
    a.(i := i)
  }

  /** All callers after caller `i` has made its first `k` moves, the others having acted before each. */
  function After(s: State, i: nat, moves: seq<Moved>, between: seq<seq<Action>>, k: nat): State
    requires k <= |moves| == |between|
  {
    if k == 0 then s
    else Acted(After(s, i, moves, between, k - 1), between[k - 1] + [By(moves[k - 1].action, i)])
  }

  /** What changes the directory between the moves of caller `i` are moves of the other callers. */
  ghost predicate OthersMove(s: State, i: nat, moves: seq<Moved>, between: seq<seq<Action>>)
    requires |moves| == |between|
  {
    forall k :: 0 <= k < |moves| ==>
      && OfOthers(After(s, i, moves, between, k), between[k], i)
      && Acted(After(s, i, moves, between, k), between[k]).dir == moves[k].before
  }

  lemma {:induction false} PcOfPrefix(c: Caller, moves: seq<Moved>, k: nat)
    requires k <= |moves| && PcAfter(c, moves).Some?
    ensures PcAfter(c, moves[..k]).Some?
    decreases |moves|
  {
    hide Move, CanMove;
    if k < |moves| {
      PcOfPrefix(c, moves[..|moves| - 1], k);
      assert moves[..|moves| - 1][..k] == moves[..k];
    } else {
      assert moves[..k] == moves;
    }
  }

  /** One more step of a run. */
  lemma RunStep(states: seq<State>, actions: seq<Action>, a: Action)
    requires IsRun(states, actions) && Enabled(states[|actions|], a)
    ensures IsRun(states + [Step(states[|actions|], a)], actions + [a])
  {
    hide Enabled, Step;
  }

  /** A run goes on with whatever the others do, and caller `i` stays where it is. */
  lemma {:induction false} RunOthers(states: seq<State>, actions: seq<Action>, more: seq<Action>, i: nat)
    returns (states': seq<State>, actions': seq<Action>)
    requires IsRun(states, actions) && OfOthers(states[|actions|], more, i) && i < |states[|actions|].callers|
    ensures IsRun(states', actions') && states'[0] == states[0]
    ensures states'[|actions'|] == Acted(states[|actions|], more)
    ensures |states'[|actions'|].callers| == |states[|actions|].callers|
    ensures states'[|actions'|].callers[i] == states[|actions|].callers[i]
    decreases |more|
  {
    hide Enabled, Move;
    states', actions' := states, actions;
    if more != [] {
      var next := Step(states[|actions|], more[0]);
      OneCallerMoves(states[|actions|], more[0], i);
      RunStep(states, actions, more[0]);
      states', actions' := RunOthers(states + [next], actions + [more[0]], more[1..], i);
    }
  }

  lemma OneCallerMoves(s: State, a: Action, i: nat)
    requires Enabled(s, a) && i < |s.callers| && a.i != i
    ensures |Step(s, a).callers| == |s.callers| && Step(s, a).callers[i] == s.callers[i]
  {
    hide Move, FinalName, Hex;
  }

  lemma {:induction false} ActedOneMore(s: State, actions: seq<Action>, i: nat, a: Action)
    requires OfOthers(s, actions, i)
    ensures Acted(s, actions + [a]) == Acted(Acted(s, actions), [a])
    decreases |actions|
  {
    hide Enabled, Step;
    if actions == [] {
      assert [] + [a] == [a];
    } else {
      assert (actions + [a])[0] == actions[0];
      assert (actions + [a])[1..] == actions[1..] + [a];
      ActedOneMore(Step(s, actions[0]), actions[1..], i, a);
    }
  }

  /** The caller's own move, met with the directory it meets. */
  lemma OwnMove(s: State, i: nat, c: Caller, pc: Pc, m: Moved)
    requires i < |s.callers| && s.callers[i] == c.(pc := pc) && s.dir == m.before
    requires CanMove(m.before, c.(pc := pc), m.action) && Move(m.before, c.(pc := pc), m.action).0 == m.after
    ensures Enabled(s, By(m.action, i))
    ensures var s' := Step(s, By(m.action, i));
      && s' == Acted(s, [By(m.action, i)])
      && s'.dir == m.after && |s'.callers| == |s.callers|
      && s'.callers[i] == c.(pc := Move(m.before, c.(pc := pc), m.action).1)
  {
    hide FinalName, Hex;
    assert [By(m.action, i)][1..] == [];
  }

  /** A run goes on with what the others do and then the caller's own move. */
  lemma NextMove(
    states: seq<State>, actions: seq<Action>, more: seq<Action>, i: nat, c: Caller, pc: Pc, m: Moved)
    returns (states': seq<State>, actions': seq<Action>)
    requires IsRun(states, actions) && OfOthers(states[|actions|], more, i)
    requires i < |states[|actions|].callers| && states[|actions|].callers[i] == c.(pc := pc)
    requires Acted(states[|actions|], more).dir == m.before
    requires CanMove(m.before, c.(pc := pc), m.action) && Move(m.before, c.(pc := pc), m.action).0 == m.after
    ensures IsRun(states', actions') && states'[0] == states[0]
    ensures states'[|actions'|] == Acted(states[|actions|], more + [By(m.action, i)])
    ensures i < |states'[|actions'|].callers| && states'[|actions'|].dir == m.after
    ensures states'[|actions'|].callers[i] == c.(pc := Move(m.before, c.(pc := pc), m.action).1)
  {
    hide CanMove, Move, Enabled, Step, Acted, OfOthers;
    ActedOneMore(states[|actions|], more, i, By(m.action, i));
    states', actions' := RunOthers(states, actions, more, i);
    OwnMove(states'[|actions'|], i, c, pc, m);
    RunStep(states', actions', By(m.action, i));
    states', actions' := states' + [Step(states'[|actions'|], By(m.action, i))], actions' + [By(m.action, i)];
  }

  lemma PcUnfolds(c: Caller, moves: seq<Moved>, k: nat)
    requires 0 < k <= |moves| && PcAfter(c, moves[..k]).Some?
    ensures PcAfter(c, moves[..k - 1]).Some?
    ensures var m, at := moves[k - 1], c.(pc := PcAfter(c, moves[..k - 1]).value);
      && CanMove(m.before, at, m.action) && Move(m.before, at, m.action).0 == m.after
      && PcAfter(c, moves[..k]) == Some(Move(m.before, at, m.action).1)
  {
    hide CanMove, Move;
    assert moves[..k][..k - 1] == moves[..k - 1];
  }

  /** A call among other callers is part of a run of all of them. */
  lemma {:induction false} CallIsRun(s: State, i: nat, moves: seq<Moved>, between: seq<seq<Action>>, k: nat)
    returns (states: seq<State>, actions: seq<Action>)
    requires i < |s.callers| && |moves| == |between| && k <= |moves|
    requires PcAfter(s.callers[i], moves).Some? && OthersMove(s, i, moves, between)
    ensures IsRun(states, actions) && states[0] == s
    ensures states[|actions|] == After(s, i, moves, between, k) && i < |states[|actions|].callers|
    ensures PcAfter(s.callers[i], moves[..k]).Some?
    ensures states[|actions|].callers[i] == s.callers[i].(pc := PcAfter(s.callers[i], moves[..k]).value)
    ensures k > 0 ==> states[|actions|].dir == moves[k - 1].after
  {
    hide CanMove, Move, Enabled, Step, Acted, OfOthers, FinalName, Hex;
    var c := s.callers[i];
    PcOfPrefix(c, moves, k);
    if k == 0 {
      states, actions := [s], [];
      assert c == c.(pc := c.pc);
    } else {
      hide PcAfter, IsRun;
      PcUnfolds(c, moves, k);
      states, actions := CallIsRun(s, i, moves, between, k - 1);
      states, actions := NextMove(
        states, actions, between[k - 1], i, c, PcAfter(c, moves[..k - 1]).value, moves[k - 1]);
    }
  }

  /** A call that returns `Ok` while others call too leaves the final file, complete. */
  lemma OkMeansInstalled(
    s: State, i: nat, moves: seq<Moved>, between: seq<seq<Action>>, others: (nat, Directory) -> Directory,
    start: Directory, now: Directory)
    requires Init(s) && i < |s.callers| && |moves| == |between| && OthersMove(s, i, moves, between)
    requires Reached(s.callers[i], moves, others, start, now, Returned(true))
    ensures now.Holds(s.callers[i].Final(), s.callers[i].fixture.content)
  {
    hide IsRun, Init, OthersMove, FinalName, Hex;
    var states, actions := CallIsRun(s, i, moves, between, |moves|);
    assert moves[..|moves|] == moves;
    RunLength(states, actions);
    FinalIsNeverPartial(states, actions, |actions|, i);
  }

  lemma RunLength(states: seq<State>, actions: seq<Action>)
    requires IsRun(states, actions)
    ensures |states| == |actions| + 1
  {
  }
}
