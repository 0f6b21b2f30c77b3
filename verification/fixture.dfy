/** `Fixture::write_to`: installing a file by writing a temporary and renaming it, with any number of
    callers at work in the same directory. */
module Fixtures {
  import opened Common

  const UNDERSCORE: byte := 95

  datatype Fixture = Fixture(name: Bytes, content: Bytes, hash: Bytes)

  // ---------------------------------------------------------------------------------------------
  // Names
  // ---------------------------------------------------------------------------------------------

  function HexDigit(d: nat): (c: byte)
    requires d < 16
    ensures c != UNDERSCORE
  {
    if d < 10 then 48 + d else 87 + d
  }

  /** `{:x}` of an unsigned number. */
  function Hex(n: nat): Bytes {
    if n < 16 then [HexDigit(n)] else Hex(n / 16) + [HexDigit(n % 16)]
  }

  function FinalName(f: Fixture, suffix: Bytes): Bytes {
    f.name + [UNDERSCORE] + f.hash + suffix
  }

  lemma {:induction false} HexHasNoUnderscore(n: nat)
    ensures UNDERSCORE !in Hex(n)
  {
    if n >= 16 {
      HexHasNoUnderscore(n / 16);
    }
  }

  /** No temporary has the name of a final file. */
  lemma NamesDiffer(f: Fixture, suffix: Bytes, n: nat)
    ensures FinalName(f, suffix) != Hex(n)
  {
    HexHasNoUnderscore(n);
    assert FinalName(f, suffix)[|f.name|] == UNDERSCORE;
  }

  // ---------------------------------------------------------------------------------------------
  // The directory
  // ---------------------------------------------------------------------------------------------

  /** Names and the files they stand for; an open file is known by its number. */
  datatype Directory = Directory(files: map<Bytes, nat>, data: seq<Bytes>) {
    /** Every name stands for a file, no two names for the same. */
    ghost predicate Sound() {
      && (forall p :: p in files ==> files[p] < |data|)
      && (forall p, q :: p in files && q in files && files[p] == files[q] ==> p == q)
    }

    /** The name stands for a file of this content. */
    predicate Holds(path: Bytes, content: Bytes) {
      path in files && files[path] < |data| && data[files[path]] == content
    }

    /** `create_new`. */
    function Created(path: Bytes): Directory
      requires path !in files
    {
      Directory(files[path := |data|], data + [[]])
    }

    function Appended(file: nat, bytes: Bytes): Directory
      requires file < |data|
    {
      this.(data := data[file := data[file] + bytes])
    }

    /** `rename`: whatever the new name stood for is replaced at once. */
    function Renamed(from: Bytes, to: Bytes): Directory
      requires from in files
    {
      this.(files := (files - {from})[to := files[from]])
    }

    function Removed(path: Bytes): Directory {
      this.(files := files - {path})
    }
  }

  // ---------------------------------------------------------------------------------------------
  // Callers
  // ---------------------------------------------------------------------------------------------

  /** The next operation of a call. From the creation on it knows its temporary file. */
  datatype Pc =
    | Check
    | Create
    | Write(file: nat, written: nat)
    | Rename(file: nat)
    | Recheck(file: nat)
    | Remove(file: nat)
    | Returned(ok: bool)
    | Crashed

  datatype Caller = Caller(fixture: Fixture, suffix: Bytes, random: nat, pc: Pc) {
    function Final(): Bytes {
      FinalName(fixture, suffix)
    }

    function Temporary(): Bytes {
      Hex(random)
    }

    predicate Live() {
      !pc.Returned? && !pc.Crashed?
    }

    /** It has a temporary in the directory. */
    predicate Holding() {
      pc.Write? || pc.Rename? || pc.Recheck? || pc.Remove?
    }

    /** The next `n` bytes to write. */
    function Piece(n: nat): Bytes {
      if pc.Write? && pc.written + n <= |fixture.content| then fixture.content[pc.written..pc.written + n] else []
    }

    /** The caller when they are written. */
    function Advanced(n: nat): Caller
      requires pc.Write?
    {
      this.(pc := Write(pc.file, pc.written + n))
    }

    /** It may have a temporary in the directory, now or for ever. */
    predicate MayLeave() {
      Holding() || pc == Returned(false) || pc.Crashed?
    }

    /** What its temporary holds. */
    function Written(): Bytes
      requires Holding()
    {
      if pc.Write? && pc.written <= |fixture.content| then fixture.content[..pc.written] else fixture.content
    }
  }

  datatype State = State(dir: Directory, callers: seq<Caller>)

  /** A caller's next operation succeeds, fails, or never happens. A successful write transfers `n`
      bytes. */
  datatype Action = Go(i: nat, n: nat) | Fail(i: nat) | Crash(i: nat)

  predicate CanMove(dir: Directory, c: Caller, a: Action) {
    && c.Live()
    && match a
       case Go(_, n) =>
         && (c.pc.Create? ==> c.Temporary() !in dir.files)
         && (c.pc.Write? && c.pc.written < |c.fixture.content| ==>
               0 < n <= |c.fixture.content| - c.pc.written && c.pc.file < |dir.data|)
         && (c.pc.Rename? ==> c.Temporary() in dir.files)
       case Fail(_) => c.pc.Write? ==> c.pc.written < |c.fixture.content|
       case Crash(_) => true
  }

  predicate Enabled(s: State, a: Action) {
    a.i < |s.callers| && CanMove(s.dir, s.callers[a.i], a)
  }

  function Step(s: State, a: Action): State
    requires Enabled(s, a)
  {
    var c := s.callers[a.i];
    var (dir, pc) := Move(s.dir, c, a);
    State(dir, s.callers[a.i := c.(pc := pc)])
  }

  function Move(dir: Directory, c: Caller, a: Action): (Directory, Pc)
    requires CanMove(dir, c, a)
  {
    match a
    case Crash(_) => (dir, Crashed)
    case Fail(_) =>
      // Only a failed rename is looked into; any other failure is returned.
      (dir, if c.pc.Rename? then Recheck(c.pc.file) else Returned(false))
    case Go(_, n) =>
      match c.pc
      case Check => (dir, if c.Final() in dir.files then Returned(true) else Create)
      case Create => (dir.Created(c.Temporary()), Write(|dir.data|, 0))
      case Write(file, written) =>
        if written < |c.fixture.content| then
          (dir.Appended(file, c.Piece(n)), Write(file, written + n))
        else (dir, Rename(file))
      case Rename(_) => (dir.Renamed(c.Temporary(), c.Final()), Returned(true))
      case Recheck(file) => (dir, if c.Final() in dir.files then Remove(file) else Returned(false))
      case Remove(_) => (dir.Removed(c.Temporary()), Returned(true))
      case _ => (dir, c.pc)
  }

  ghost predicate IsRun(states: seq<State>, actions: seq<Action>) {
    && |states| == |actions| + 1
    && forall i :: 0 <= i < |actions| ==> Enabled(states[i], actions[i]) && states[i + 1] == Step(states[i], actions[i])
  }

  /** Calls of write_to that are about to start. The same final name always means the same content, and
      a final file that is there already is complete. */
  ghost predicate Init(s: State) {
    && s.dir.Sound()
    && (forall i :: 0 <= i < |s.callers| ==> s.callers[i].pc == Check)
    && (forall i, j :: 0 <= i < |s.callers| && 0 <= j < |s.callers| && s.callers[i].Final() == s.callers[j].Final() ==>
          s.callers[i].fixture.content == s.callers[j].fixture.content)
    && (forall i :: 0 <= i < |s.callers| && s.callers[i].Final() in s.dir.files ==>
          s.dir.Holds(s.callers[i].Final(), s.callers[i].fixture.content))
  }

  // ---------------------------------------------------------------------------------------------
  // The invariant
  // ---------------------------------------------------------------------------------------------

  /** The callers are those of the start but for how far they got. */
  ghost predicate SameJobs(s0: State, s: State) {
    && |s.callers| == |s0.callers|
    && forall i :: 0 <= i < |s.callers| ==> s.callers[i].(pc := Check) == s0.callers[i].(pc := Check)
  }

  /** A caller's temporary is its own, new, and holds what was written so far. */
  ghost predicate TemporaryOk(start: Directory, dir: Directory, c: Caller) {
    c.Holding() ==>
      && dir.Holds(c.Temporary(), c.Written())
      && dir.files[c.Temporary()] == c.pc.file >= |start.data|
      && c.Temporary() !in start.files
      && (c.pc.Write? ==> c.pc.written <= |c.fixture.content|)
  }

  /** A final file is complete, and is there when a call returned `Ok` or is about to. */
  ghost predicate FinalOk(dir: Directory, c: Caller) {
    && (c.Final() in dir.files ==> dir.Holds(c.Final(), c.fixture.content))
    && (c.pc == Returned(true) || c.pc.Remove? ==> c.Final() in dir.files)
  }

  ghost predicate CallerOk(s0: State, s: State, i: nat)
    requires i < |s.callers|
  {
    TemporaryOk(s0.dir, s.dir, s.callers[i]) && FinalOk(s.dir, s.callers[i])
  }

  ghost predicate DistinctTemporaries(s: State) {
    forall i, j :: 0 <= i < j < |s.callers| && s.callers[i].Holding() && s.callers[j].Holding() ==>
      s.callers[i].Temporary() != s.callers[j].Temporary()
  }

  /** Where a name in the directory comes from. */
  ghost predicate Explained(s0: State, s: State, path: Bytes) {
    || path in s0.dir.files
    || (exists i :: 0 <= i < |s.callers| && path == s.callers[i].Final())
    || (exists i :: 0 <= i < |s.callers| && path == s.callers[i].Temporary() && s.callers[i].MayLeave())
  }

  /** Files of the start stay as they are. */
  ghost predicate OldFilesKept(s0: State, s: State) {
    && |s0.dir.data| <= |s.dir.data|
    && (forall k :: 0 <= k < |s0.dir.data| ==> s.dir.data[k] == s0.dir.data[k])
    && (forall p :: p in s0.dir.files ==> p in s.dir.files)
    && (forall p :: p in s0.dir.files && (forall i :: 0 <= i < |s.callers| ==> p != s.callers[i].Final()) ==>
          s.dir.files[p] == s0.dir.files[p])
  }

  ghost predicate Inv(s0: State, s: State) {
    && Init(s0)
    && SameJobs(s0, s)
    && s.dir.Sound()
    && (forall i :: 0 <= i < |s.callers| ==> CallerOk(s0, s, i))
    && DistinctTemporaries(s)
    && (forall p :: p in s.dir.files ==> Explained(s0, s, p))
    && OldFilesKept(s0, s)
  }

  lemma InitInv(s: State)
    requires Init(s)
    ensures Inv(s, s)
  {
    hide FinalName, Hex;
  }

  lemma AllNamesDiffer(s: State)
    ensures forall i, j :: 0 <= i < |s.callers| && 0 <= j < |s.callers| ==>
      s.callers[i].Final() != s.callers[j].Temporary()
  {
    forall i, j | 0 <= i < |s.callers| && 0 <= j < |s.callers|
      ensures s.callers[i].Final() != s.callers[j].Temporary()
    {
      NamesDiffer(s.callers[i].fixture, s.callers[i].suffix, s.callers[j].random);
    }
  }

  lemma SameContent(s0: State, s: State)
    requires Init(s0) && SameJobs(s0, s)
    ensures forall i, j ::
      0 <= i < |s.callers| && 0 <= j < |s.callers| && s.callers[i].Final() == s.callers[j].Final() ==>
        s.callers[i].fixture.content == s.callers[j].fixture.content
  {
    hide FinalName, Hex;
    forall i, j | 0 <= i < |s.callers| && 0 <= j < |s.callers| && s.callers[i].Final() == s.callers[j].Final()
      ensures s.callers[i].fixture.content == s.callers[j].fixture.content
    {
      SameJob(s0, s, i);
      SameJob(s0, s, j);
    }
  }

  lemma SameJob(s0: State, s: State, i: nat)
    requires SameJobs(s0, s) && i < |s.callers|
    ensures s.callers[i].Final() == s0.callers[i].Final()
    ensures s.callers[i].Temporary() == s0.callers[i].Temporary()
    ensures s.callers[i].fixture.content == s0.callers[i].fixture.content
  {
    hide FinalName, Hex;
    assert s.callers[i].(pc := Check) == s0.callers[i].(pc := Check);
  }

  /** A step moves one caller; the others are what they were. */
  lemma JobsStay(s0: State, s: State, a: Action)
    requires SameJobs(s0, s) && Enabled(s, a)
    ensures SameJobs(s0, Step(s, a))
    ensures forall i :: 0 <= i < |s.callers| ==>
      && Step(s, a).callers[i].Final() == s.callers[i].Final()
      && Step(s, a).callers[i].Temporary() == s.callers[i].Temporary()
      && (i != a.i ==> Step(s, a).callers[i] == s.callers[i])
  {
    hide Move, FinalName, Hex;
  }

  /** A name stays explained, unless it was a temporary that its caller has just disposed of. */
  lemma StaysExplained(s0: State, s: State, a: Action, path: Bytes)
    requires SameJobs(s0, s) && Enabled(s, a) && Explained(s0, s, path)
    requires s.callers[a.i].MayLeave() && path == s.callers[a.i].Temporary() ==> Step(s, a).callers[a.i].MayLeave()
    ensures Explained(s0, Step(s, a), path)
  {
    JobsStay(s0, s, a);
    hide Move, FinalName, Hex, Step;
    var s' := Step(s, a);
    if i :| 0 <= i < |s.callers| && path == s.callers[i].Final() {
      assert path == s'.callers[i].Final();
    } else if path !in s0.dir.files {
      var i :| 0 <= i < |s.callers| && path == s.callers[i].Temporary() && s.callers[i].MayLeave();
      assert path == s'.callers[i].Temporary() && s'.callers[i].MayLeave();
    }
  }

  /** What a step must do for the invariant, once the caller-by-caller part is known. */
  lemma InvFrom(s0: State, s: State, a: Action)
    requires Inv(s0, s) && Enabled(s, a)
    requires Step(s, a).dir.Sound() && OldFilesKept(s0, Step(s, a)) && DistinctTemporaries(Step(s, a))
    requires forall i :: 0 <= i < |s.callers| ==> CallerOk(s0, Step(s, a), i)
    requires forall p :: p in Step(s, a).dir.files ==> Explained(s0, Step(s, a), p)
    ensures Inv(s0, Step(s, a))
  {
    JobsStay(s0, s, a);
    hide Step, Init, SameJobs, TemporaryOk, FinalOk, Explained, OldFilesKept, DistinctTemporaries;
  }

  /** Steps that leave the directory alone. */
  lemma QuietStep(s0: State, s: State, a: Action)
    requires Inv(s0, s) && Enabled(s, a) && Step(s, a).dir == s.dir
    requires !(a.Go? && (s.callers[a.i].pc.Create? || s.callers[a.i].pc.Rename? || s.callers[a.i].pc.Remove?))
    ensures Inv(s0, Step(s, a))
  {
    var s', c := Step(s, a), s.callers[a.i];
    JobsStay(s0, s, a);
    QuietCaller(s0, s, a);
    hide FinalName, Hex, Step;
    forall i | 0 <= i < |s'.callers|
      ensures CallerOk(s0, s', i)
    {
      assert CallerOk(s0, s, i);
    }
    forall p | p in s'.dir.files
      ensures Explained(s0, s', p)
    {
      assert Explained(s0, s, p);
      StaysExplained(s0, s, a, p);
    }
    InvFrom(s0, s, a);
  }

  lemma QuietCaller(s0: State, s: State, a: Action)
    requires Inv(s0, s) && Enabled(s, a) && Step(s, a).dir == s.dir
    requires !(a.Go? && (s.callers[a.i].pc.Create? || s.callers[a.i].pc.Rename? || s.callers[a.i].pc.Remove?))
    ensures var c, c' := s.callers[a.i], Step(s, a).callers[a.i];
      && CallerOk(s0, Step(s, a), a.i)
      && (c'.Holding() ==> c.Holding())
      && (c.MayLeave() ==> c'.MayLeave())
  {
    hide FinalName, Hex, TemporaryOk, FinalOk, Init, SameJobs, Explained, OldFilesKept, DistinctTemporaries, Move,
      Directory.Sound;
    assert CallerOk(s0, s, a.i);
    QuietMove(s0.dir, s.dir, s.callers[a.i], a);
  }

  lemma QuietMove(start: Directory, dir: Directory, c: Caller, a: Action)
    requires TemporaryOk(start, dir, c) && FinalOk(dir, c) && CanMove(dir, c, a)
    requires !(a.Go? && (c.pc.Create? || c.pc.Rename? || c.pc.Remove?))
    requires Move(dir, c, a).0 == dir
    ensures var c' := c.(pc := Move(dir, c, a).1);
      && TemporaryOk(start, dir, c') && FinalOk(dir, c')
      && (c'.Holding() ==> c.Holding())
      && (c.MayLeave() ==> c'.MayLeave())
  {
    hide FinalName, Hex;
    assert c.fixture.content[..|c.fixture.content|] == c.fixture.content;
  }

  lemma DistinctStays(s0: State, s: State, a: Action)
    requires Inv(s0, s) && Enabled(s, a)
    requires Step(s, a).callers[a.i].Holding() ==> s.callers[a.i].Holding()
    ensures DistinctTemporaries(Step(s, a))
  {
    JobsStay(s0, s, a);
    hide FinalName, Hex, Step, Enabled, Init, SameJobs, Explained, OldFilesKept, TemporaryOk, FinalOk;
  }

  lemma DistinctAfterCreate(s0: State, s: State, a: Action)
    requires Inv(s0, s) && Enabled(s, a) && a.Go? && s.callers[a.i].pc.Create?
    ensures DistinctTemporaries(Step(s, a))
  {
    JobsStay(s0, s, a);
    hide FinalName, Hex, Step, Init, SameJobs, Explained, OldFilesKept, FinalOk;
    forall j | 0 <= j < |s.callers| && j != a.i && s.callers[j].Holding()
      ensures s.callers[j].Temporary() != s.callers[a.i].Temporary()
    {
      assert CallerOk(s0, s, j);
    }
  }

  lemma ExplainedByNewName(s0: State, s: State, a: Action)
    requires SameJobs(s0, s) && Enabled(s, a) && a.Go?
    ensures Step(s, a).callers[a.i].MayLeave() ==> Explained(s0, Step(s, a), s.callers[a.i].Temporary())
    ensures Explained(s0, Step(s, a), s.callers[a.i].Final())
  {
    JobsStay(s0, s, a);
    hide FinalName, Hex, Step;
    var s' := Step(s, a);
    assert s.callers[a.i].Temporary() == s'.callers[a.i].Temporary();
    assert s.callers[a.i].Final() == s'.callers[a.i].Final();
  }

  lemma PairDiffers(s: State, i: nat, j: nat)
    requires DistinctTemporaries(s) && i < |s.callers| && j < |s.callers| && i != j
    ensures s.callers[i].Holding() && s.callers[j].Holding() ==> s.callers[i].Temporary() != s.callers[j].Temporary()
  {
    hide FinalName, Hex;
  }

  /** Files of the start stay when only names and files that are not of the start change, and finals. */
  lemma KeptFrom(s0: State, s: State, a: Action)
    requires Inv(s0, s) && Enabled(s, a)
    requires |s.dir.data| <= |Step(s, a).dir.data|
    requires forall k :: 0 <= k < |s0.dir.data| ==> Step(s, a).dir.data[k] == s.dir.data[k]
    requires forall p :: p in s0.dir.files ==>
      && p in Step(s, a).dir.files
      && (p != s.callers[a.i].Final() ==> Step(s, a).dir.files[p] == s.dir.files[p])
    ensures OldFilesKept(s0, Step(s, a))
  {
    JobsStay(s0, s, a);
    hide FinalName, Hex, Step, Init, SameJobs, Explained, CallerOk, DistinctTemporaries, Directory.Sound,
      Directory.Holds;
  }

  // Creating

  lemma CreateIsNew(s0: State, s: State, a: Action)
    requires Inv(s0, s) && Enabled(s, a) && a.Go? && s.callers[a.i].pc.Create?
    ensures s.callers[a.i].Temporary() !in s.dir.files && s.callers[a.i].Temporary() !in s0.dir.files
    ensures |s0.dir.data| <= |s.dir.data|
    ensures Step(s, a).dir.Sound() && OldFilesKept(s0, Step(s, a))
  {
    CreateMoves(s, a);
    hide FinalName, Hex, Explained, CallerOk, DistinctTemporaries, Step, Init, SameJobs;
    KeptFrom(s0, s, a);
  }

  lemma CreateOwn(start: Directory, dir: Directory, c: Caller)
    requires dir.Sound() && c.Temporary() !in dir.files && c.Temporary() !in start.files && |start.data| <= |dir.data|
    requires FinalOk(dir, c) && c.pc.Create? && c.Final() != c.Temporary()
    ensures var c', dir' := c.(pc := Write(|dir.data|, 0)), dir.Created(c.Temporary());
      TemporaryOk(start, dir', c') && FinalOk(dir', c')
  {
    hide FinalName, Hex;
  }

  lemma CreateOther(start: Directory, dir: Directory, c: Caller, d: Caller)
    requires dir.Sound() && c.Temporary() !in dir.files && d.Final() != c.Temporary()
    requires TemporaryOk(start, dir, d) && FinalOk(dir, d)
    ensures TemporaryOk(start, dir.Created(c.Temporary()), d) && FinalOk(dir.Created(c.Temporary()), d)
  {
    hide FinalName, Hex;
  }

  lemma CreateMoves(s: State, a: Action)
    requires Enabled(s, a) && a.Go? && s.callers[a.i].pc.Create?
    ensures Step(s, a).dir == s.dir.Created(s.callers[a.i].Temporary())
    ensures Step(s, a).callers[a.i] == s.callers[a.i].(pc := Write(|s.dir.data|, 0))
  {
    hide FinalName, Hex;
  }

  lemma CreateStep(s0: State, s: State, a: Action)
    requires Inv(s0, s) && Enabled(s, a) && a.Go? && s.callers[a.i].pc.Create?
    ensures Inv(s0, Step(s, a))
  {
    var s', c := Step(s, a), s.callers[a.i];
    CreateMoves(s, a);
    JobsStay(s0, s, a);
    AllNamesDiffer(s);
    SameContent(s0, s);
    DistinctAfterCreate(s0, s, a);
    hide FinalName, Hex, Step, Init, SameJobs, Explained, TemporaryOk, FinalOk, OldFilesKept, DistinctTemporaries,
      Directory.Sound, Directory.Holds;
    assert CallerOk(s0, s, a.i);
    CreateIsNew(s0, s, a);
    forall i | 0 <= i < |s'.callers|
      ensures CallerOk(s0, s', i)
    {
      assert CallerOk(s0, s, i);
      if i == a.i {
        CreateOwn(s0.dir, s.dir, c);
      } else {
        PairDiffers(s, i, a.i);
        CreateOther(s0.dir, s.dir, c, s.callers[i]);
      }
    }
    forall p | p in s'.dir.files
      ensures Explained(s0, s', p)
    {
      if p == c.Temporary() {
        ExplainedByNewName(s0, s, a);
      } else {
        StaysExplained(s0, s, a, p);
      }
    }
    InvFrom(s0, s, a);
  }

  // Writing

  lemma AppendOwn(start: Directory, dir: Directory, c: Caller, n: nat)
    requires dir.Sound() && c.Final() != c.Temporary()
    requires TemporaryOk(start, dir, c) && FinalOk(dir, c)
    requires c.pc.Write? && c.pc.written + n <= |c.fixture.content|
    ensures c.pc.file < |dir.data|
    ensures var c', dir' := c.Advanced(n), dir.Appended(c.pc.file, c.Piece(n));
      TemporaryOk(start, dir', c') && FinalOk(dir', c')
  {
    hide FinalName, Hex;
    var content, written := c.fixture.content, c.pc.written;
    assert content[..written] + content[written..written + n] == content[..written + n];
  }

  lemma AppendOther(start: Directory, dir: Directory, c: Caller, d: Caller, n: nat)
    requires dir.Sound() && d.Final() != c.Temporary() && (d.Holding() ==> d.Temporary() != c.Temporary())
    requires TemporaryOk(start, dir, c) && TemporaryOk(start, dir, d) && FinalOk(dir, d)
    requires c.pc.Write? && c.pc.written + n <= |c.fixture.content|
    ensures c.pc.file < |dir.data|
    ensures var dir' := dir.Appended(c.pc.file, c.Piece(n));
      TemporaryOk(start, dir', d) && FinalOk(dir', d)
  {
    hide FinalName, Hex;
  }

  lemma AppendIsNew(s0: State, s: State, a: Action)
    requires Inv(s0, s) && Enabled(s, a) && a.Go? && s.callers[a.i].pc.Write?
    requires s.callers[a.i].pc.written < |s.callers[a.i].fixture.content|
    ensures Step(s, a).dir.Sound() && OldFilesKept(s0, Step(s, a))
    ensures |s0.dir.data| <= |s.dir.data|
  {
    AppendMoves(s, a);
    assert CallerOk(s0, s, a.i);
    hide FinalName, Hex, Explained, DistinctTemporaries, Step, Init, SameJobs;
    KeptFrom(s0, s, a);
  }

  lemma AppendMoves(s: State, a: Action)
    requires Enabled(s, a) && a.Go? && s.callers[a.i].pc.Write?
    requires s.callers[a.i].pc.written < |s.callers[a.i].fixture.content|
    ensures Step(s, a).dir == s.dir.Appended(s.callers[a.i].pc.file, s.callers[a.i].Piece(a.n))
    ensures Step(s, a).callers[a.i] == s.callers[a.i].Advanced(a.n)
    ensures s.callers[a.i].pc.written + a.n <= |s.callers[a.i].fixture.content|
  {
    hide FinalName, Hex;
  }

  lemma AppendStep(s0: State, s: State, a: Action)
    requires Inv(s0, s) && Enabled(s, a) && a.Go? && s.callers[a.i].pc.Write?
    requires s.callers[a.i].pc.written < |s.callers[a.i].fixture.content|
    ensures Inv(s0, Step(s, a))
  {
    var s', c := Step(s, a), s.callers[a.i];
    AppendMoves(s, a);
    JobsStay(s0, s, a);
    AllNamesDiffer(s);
    SameContent(s0, s);
    DistinctStays(s0, s, a);
    hide FinalName, Hex, Step, Init, SameJobs, Explained, TemporaryOk, FinalOk, OldFilesKept, DistinctTemporaries,
      Directory.Sound, Directory.Holds, Enabled, Caller.Piece;
    assert CallerOk(s0, s, a.i);
    AppendIsNew(s0, s, a);
    forall i | 0 <= i < |s'.callers|
      ensures CallerOk(s0, s', i)
    {
      assert CallerOk(s0, s, i);
      if i == a.i {
        AppendOwn(s0.dir, s.dir, c, a.n);
      } else {
        PairDiffers(s, i, a.i);
        AppendOther(s0.dir, s.dir, c, s.callers[i], a.n);
      }
    }
    forall p | p in s'.dir.files
      ensures Explained(s0, s', p)
    {
      StaysExplained(s0, s, a, p);
    }
    InvFrom(s0, s, a);
  }

  // Renaming

  lemma RenameOwn(start: Directory, dir: Directory, c: Caller)
    requires dir.Sound() && c.Final() != c.Temporary() && TemporaryOk(start, dir, c) && c.pc.Rename?
    ensures var c', dir' := c.(pc := Returned(true)), dir.Renamed(c.Temporary(), c.Final());
      TemporaryOk(start, dir', c') && FinalOk(dir', c')
  {
    hide FinalName, Hex;
  }

  lemma RenameOther(start: Directory, dir: Directory, c: Caller, d: Caller)
    requires dir.Sound() && TemporaryOk(start, dir, c) && c.pc.Rename?
    requires c.Final() != c.Temporary() && d.Final() != c.Temporary() && d.Temporary() != c.Final()
    requires d.Holding() ==> d.Temporary() != c.Temporary()
    requires d.Final() == c.Final() ==> d.fixture.content == c.fixture.content
    requires TemporaryOk(start, dir, d) && FinalOk(dir, d)
    ensures var dir' := dir.Renamed(c.Temporary(), c.Final());
      TemporaryOk(start, dir', d) && FinalOk(dir', d)
  {
    hide FinalName, Hex;
  }

  lemma RenamedIsSound(dir: Directory, from: Bytes, to: Bytes)
    requires dir.Sound() && from in dir.files
    ensures dir.Renamed(from, to).Sound()
  {
  }

  lemma RenameIsNew(s0: State, s: State, a: Action)
    requires Inv(s0, s) && Enabled(s, a) && a.Go? && s.callers[a.i].pc.Rename?
    ensures Step(s, a).dir.Sound() && OldFilesKept(s0, Step(s, a))
  {
    RenameMoves(s, a);
    assert CallerOk(s0, s, a.i);
    hide FinalName, Hex, Explained, DistinctTemporaries, Step, Init, SameJobs, FinalOk, Enabled, Directory.Sound;
    RenamedIsSound(s.dir, s.callers[a.i].Temporary(), s.callers[a.i].Final());
    KeptFrom(s0, s, a);
  }

  lemma RenameMoves(s: State, a: Action)
    requires Enabled(s, a) && a.Go? && s.callers[a.i].pc.Rename?
    ensures Step(s, a).dir == s.dir.Renamed(s.callers[a.i].Temporary(), s.callers[a.i].Final())
    ensures Step(s, a).callers[a.i] == s.callers[a.i].(pc := Returned(true))
  {
    hide FinalName, Hex;
  }

  lemma RenameStep(s0: State, s: State, a: Action)
    requires Inv(s0, s) && Enabled(s, a) && a.Go? && s.callers[a.i].pc.Rename?
    ensures Inv(s0, Step(s, a))
  {
    var s', c := Step(s, a), s.callers[a.i];
    RenameMoves(s, a);
    JobsStay(s0, s, a);
    AllNamesDiffer(s);
    SameContent(s0, s);
    DistinctStays(s0, s, a);
    hide FinalName, Hex, Step, Init, SameJobs, Explained, TemporaryOk, FinalOk, OldFilesKept, DistinctTemporaries,
      Directory.Sound, Directory.Holds;
    assert CallerOk(s0, s, a.i);
    RenameIsNew(s0, s, a);
    forall i | 0 <= i < |s'.callers|
      ensures CallerOk(s0, s', i)
    {
      assert CallerOk(s0, s, i);
      if i == a.i {
        RenameOwn(s0.dir, s.dir, c);
      } else {
        PairDiffers(s, i, a.i);
        RenameOther(s0.dir, s.dir, c, s.callers[i]);
      }
    }
    forall p | p in s'.dir.files
      ensures Explained(s0, s', p)
    {
      if p == c.Final() {
        ExplainedByNewName(s0, s, a);
      } else {
        StaysExplained(s0, s, a, p);
      }
    }
    InvFrom(s0, s, a);
  }

  // Removing

  lemma RemoveOwn(start: Directory, dir: Directory, c: Caller)
    requires dir.Sound() && c.Final() != c.Temporary() && FinalOk(dir, c) && c.pc.Remove?
    ensures var c', dir' := c.(pc := Returned(true)), dir.Removed(c.Temporary());
      TemporaryOk(start, dir', c') && FinalOk(dir', c')
  {
    hide FinalName, Hex;
  }

  lemma RemoveOther(start: Directory, dir: Directory, c: Caller, d: Caller)
    requires dir.Sound() && d.Final() != c.Temporary() && (d.Holding() ==> d.Temporary() != c.Temporary())
    requires TemporaryOk(start, dir, d) && FinalOk(dir, d)
    ensures TemporaryOk(start, dir.Removed(c.Temporary()), d) && FinalOk(dir.Removed(c.Temporary()), d)
  {
    hide FinalName, Hex;
  }

  lemma RemoveIsNew(s0: State, s: State, a: Action)
    requires Inv(s0, s) && Enabled(s, a) && a.Go? && s.callers[a.i].pc.Remove?
    ensures Step(s, a).dir.Sound() && OldFilesKept(s0, Step(s, a))
  {
    RemoveMoves(s, a);
    assert CallerOk(s0, s, a.i);
    hide FinalName, Hex, Explained, DistinctTemporaries, Step, Init, SameJobs;
    KeptFrom(s0, s, a);
  }

  lemma RemoveMoves(s: State, a: Action)
    requires Enabled(s, a) && a.Go? && s.callers[a.i].pc.Remove?
    ensures Step(s, a).dir == s.dir.Removed(s.callers[a.i].Temporary())
    ensures Step(s, a).callers[a.i] == s.callers[a.i].(pc := Returned(true))
  {
    hide FinalName, Hex;
  }

  lemma RemoveStep(s0: State, s: State, a: Action)
    requires Inv(s0, s) && Enabled(s, a) && a.Go? && s.callers[a.i].pc.Remove?
    ensures Inv(s0, Step(s, a))
  {
    var s', c := Step(s, a), s.callers[a.i];
    RemoveMoves(s, a);
    JobsStay(s0, s, a);
    AllNamesDiffer(s);
    SameContent(s0, s);
    DistinctStays(s0, s, a);
    hide FinalName, Hex, Step, Init, SameJobs, Explained, TemporaryOk, FinalOk, OldFilesKept, DistinctTemporaries,
      Directory.Sound, Directory.Holds;
    assert CallerOk(s0, s, a.i);
    RemoveIsNew(s0, s, a);
    forall i | 0 <= i < |s'.callers|
      ensures CallerOk(s0, s', i)
    {
      assert CallerOk(s0, s, i);
      if i == a.i {
        RemoveOwn(s0.dir, s.dir, c);
      } else {
        PairDiffers(s, i, a.i);
        RemoveOther(s0.dir, s.dir, c, s.callers[i]);
      }
    }
    forall p | p in s'.dir.files
      ensures Explained(s0, s', p)
    {
      StaysExplained(s0, s, a, p);
    }
    InvFrom(s0, s, a);
  }

  lemma StepKeepsInv(s0: State, s: State, a: Action)
    requires Inv(s0, s) && Enabled(s, a)
    ensures Inv(s0, Step(s, a))
  {
    var c := s.callers[a.i];
    if a.Go? && c.pc.Create? {
      CreateStep(s0, s, a);
    } else if a.Go? && c.pc.Write? && c.pc.written < |c.fixture.content| {
      AppendStep(s0, s, a);
    } else if a.Go? && c.pc.Rename? {
      RenameStep(s0, s, a);
    } else if a.Go? && c.pc.Remove? {
      RemoveStep(s0, s, a);
    } else {
      assert Step(s, a).dir == s.dir;
      QuietStep(s0, s, a);
    }
  }

  lemma {:induction false} RunKeepsInv(states: seq<State>, actions: seq<Action>, k: nat)
    requires IsRun(states, actions) && Init(states[0]) && k < |states|
    ensures Inv(states[0], states[k])
  {
    hide Enabled, Step, Init, Inv;
    if k == 0 {
      InitInv(states[0]);
    } else {
      RunKeepsInv(states, actions, k - 1);
      StepKeepsInv(states[0], states[k - 1], actions[k - 1]);
    }
  }

  // ---------------------------------------------------------------------------------------------
  // All runs
  // ---------------------------------------------------------------------------------------------

  /** However the callers interleave, crash, fail or write short: a final file that is there is
      complete, and it is there once a call has returned `Ok`. */
  lemma FinalIsNeverPartial(states: seq<State>, actions: seq<Action>, k: nat, i: nat)
    requires IsRun(states, actions) && Init(states[0]) && k < |states| && i < |states[k].callers|
    ensures var c, dir := states[k].callers[i], states[k].dir;
      && (c.Final() in dir.files ==> dir.Holds(c.Final(), c.fixture.content))
      && (c.pc == Returned(true) ==> dir.Holds(c.Final(), c.fixture.content))
  {
    RunKeepsInv(states, actions, k);
    hide IsRun, Init, FinalName, Hex, Explained, OldFilesKept, TemporaryOk, DistinctTemporaries, SameJobs;
    assert CallerOk(states[0], states[k], i);
  }

  /** When every call has returned `Ok`, the directory holds the files of the start, untouched, and the
      final files: no temporary is left. */
  lemma NothingIsLeftBehind(states: seq<State>, actions: seq<Action>, k: nat)
    requires IsRun(states, actions) && Init(states[0]) && k < |states|
    requires forall i :: 0 <= i < |states[k].callers| ==> states[k].callers[i].pc == Returned(true)
    ensures forall p :: p in states[k].dir.files <==>
      p in states[0].dir.files || exists i :: 0 <= i < |states[k].callers| && p == states[k].callers[i].Final()
  {
    var s := states[k];
    RunKeepsInv(states, actions, k);
    hide IsRun, Init, FinalName, Hex, TemporaryOk, DistinctTemporaries, SameJobs;
    forall i | 0 <= i < |s.callers|
      ensures s.callers[i].Final() in s.dir.files
    {
      assert CallerOk(states[0], s, i);
    }
    forall p | p in s.dir.files
      ensures p in states[0].dir.files || exists i :: 0 <= i < |s.callers| && p == s.callers[i].Final()
    {
      assert Explained(states[0], s, p);
    }
  }

  /** Files that are no caller's final file are never touched. */
  lemma OthersAreUntouched(states: seq<State>, actions: seq<Action>, k: nat, path: Bytes)
    requires IsRun(states, actions) && Init(states[0]) && k < |states|
    requires path in states[0].dir.files
    requires forall i :: 0 <= i < |states[k].callers| ==> path != states[k].callers[i].Final()
    ensures states[k].dir.Holds(path, states[0].dir.data[states[0].dir.files[path]])
  {
    RunKeepsInv(states, actions, k);
    hide IsRun, FinalName, Hex, TemporaryOk, FinalOk, DistinctTemporaries, SameJobs, Explained;
  }

  // ---------------------------------------------------------------------------------------------
  // Left alone
  // ---------------------------------------------------------------------------------------------

  /** The actions are caller `i`'s, none of them a failure or a crash, and lead from one state to the other. */
  ghost predicate AloneTo(s: State, i: nat, actions: seq<Action>, s': State)
    decreases |actions|
  {
    if actions == [] then s' == s
    else
      && actions[0].Go? && actions[0].i == i && Enabled(s, actions[0])
      && AloneTo(Step(s, actions[0]), i, actions[1..], s')
  }

  /** The name the caller has drawn is free, as far as it still needs it. */
  predicate NameIsFree(s: State, i: nat)
    requires i < |s.callers|
  {
    var c := s.callers[i];
    c.pc.Create? || (c.pc.Check? && c.Final() !in s.dir.files) ==> c.Temporary() !in s.dir.files
  }

  /** Its rename has failed, and there is no final file. */
  predicate GivesUp(s: State, i: nat)
    requires i < |s.callers|
  {
    s.callers[i].pc.Recheck? && s.callers[i].Final() !in s.dir.files
  }

  function Left(c: Caller): nat {
    match c.pc
    case Check => 5
    case Create => 4
    case Write(_, written) => if written < |c.fixture.content| then 3 else 2
    case Rename(_) => 1
    case Recheck(_) => 2
    case Remove(_) => 1
    case _ => 0
  }

  /** What the caller writes next: all that is left. */
  function NextGo(s: State, i: nat): Action
    requires i < |s.callers|
  {
    var c := s.callers[i];
    Go(i, if c.pc.Write? && c.pc.written < |c.fixture.content| then |c.fixture.content| - c.pc.written else 0)
  }

  /** No call is ever stuck: as long as it lives its next operation can succeed, unless another file has the
      name it drew. */
  lemma GoesAhead(s0: State, s: State, i: nat)
    requires Inv(s0, s) && i < |s.callers| && s.callers[i].Live() && NameIsFree(s, i)
    ensures Enabled(s, NextGo(s, i))
    ensures s.callers[i].pc.Check? || s.callers[i].pc.Create? || s.callers[i].Holding()
    ensures s.callers[i].pc.Write? ==> s.callers[i].pc.written <= |s.callers[i].fixture.content|
  {
    hide Init, FinalName, Hex, Explained, OldFilesKept, DistinctTemporaries, SameJobs, FinalOk;
    assert CallerOk(s0, s, i);
  }

  lemma OneGo(s: State, i: nat)
    requires i < |s.callers| && s.callers[i].Live() && NameIsFree(s, i) && Enabled(s, NextGo(s, i))
    requires s.callers[i].pc.Write? ==> s.callers[i].pc.written <= |s.callers[i].fixture.content|
    ensures var s' := Step(s, NextGo(s, i));
      && i < |s'.callers| && NameIsFree(s', i)
      && Left(s'.callers[i]) < Left(s.callers[i])
      && (if s'.callers[i].Live() then GivesUp(s', i) == GivesUp(s, i)
          else s'.callers[i].pc == Returned(!GivesUp(s, i)))
  {
    hide FinalName, Hex;
  }

  lemma {:induction false} FinishesFrom(s0: State, s: State, i: nat) returns (actions: seq<Action>, s': State)
    requires Inv(s0, s) && i < |s.callers| && s.callers[i].Live() && NameIsFree(s, i)
    ensures AloneTo(s, i, actions, s') && i < |s'.callers|
    ensures s'.callers[i].pc == Returned(!GivesUp(s, i))
    decreases Left(s.callers[i])
  {
    hide Inv, Step, Enabled, NameIsFree, GivesUp, Left;
    GoesAhead(s0, s, i);
    OneGo(s, i);
    StepKeepsInv(s0, s, NextGo(s, i));
    var s1 := Step(s, NextGo(s, i));
    actions, s' := [], s1;
    if s1.callers[i].Live() {
      actions, s' := FinishesFrom(s0, s1, i);
    }
    assert ([NextGo(s, i)] + actions)[1..] == actions;
    actions := [NextGo(s, i)] + actions;
  }

  /** From every reachable state the operations a live call has left, when none of them fails, lead to its
      return, given that the name it drew is free; it returns `Ok`, unless its rename has already failed and
      there is no final file. */
  lemma NeverStuck(states: seq<State>, actions: seq<Action>, k: nat, i: nat) returns (rest: seq<Action>, s': State)
    requires IsRun(states, actions) && Init(states[0]) && k < |states| && i < |states[k].callers|
    requires states[k].callers[i].Live() && NameIsFree(states[k], i)
    ensures AloneTo(states[k], i, rest, s') && i < |s'.callers|
    ensures s'.callers[i].pc == Returned(!GivesUp(states[k], i))
  {
    hide IsRun, Inv, Init, NameIsFree, GivesUp, AloneTo;
    RunKeepsInv(states, actions, k);
    rest, s' := FinishesFrom(states[0], states[k], i);
  }

  // ---------------------------------------------------------------------------------------------
  // Byte by byte, and operation by operation
  // ---------------------------------------------------------------------------------------------

  /** Name, underscore, hash, suffix. */
  lemma FinalNameBytes(name: Bytes, content: Bytes, hash: Bytes, suffix: Bytes)
    ensures FinalName(Fixture(name, content, hash), suffix) == name + [95] + hash + suffix
  {
  }

  /** Lower-case hexadecimal digits, the most significant first, without leading zeros. */
  lemma HexBytes(n: nat)
    ensures n < 10 ==> Hex(n) == ['0' as int + n]
    ensures 10 <= n < 16 ==> Hex(n) == ['a' as int + (n - 10)]
    ensures 16 <= n ==> Hex(n) == Hex(n / 16) + Hex(n % 16)
  {
  }

  /** A call that nobody disturbs and in which nothing fails: the final file is a new one with the content, no
      other name has changed. */
  lemma QuietCall(dir: Directory, c: Caller)
    requires c.pc.Check? && c.Final() !in dir.files && c.Temporary() !in dir.files && c.fixture.content != []
    ensures Move(dir, c, Go(0, 0)) == (dir, Create)
    ensures var d1, content := dir.Created(c.Temporary()), c.fixture.content;
      && Move(dir, c.(pc := Create), Go(0, 0)) == (d1, Write(|dir.data|, 0))
      && var d2 := Directory(d1.files, dir.data + [content]);
      && Move(d1, c.(pc := Write(|dir.data|, 0)), Go(0, |content|)) == (d2, Write(|dir.data|, |content|))
      && Move(d2, c.(pc := Write(|dir.data|, |content|)), Go(0, 0)) == (d2, Rename(|dir.data|))
      && CanMove(d2, c.(pc := Rename(|dir.data|)), Go(0, 0))
      && Move(d2, c.(pc := Rename(|dir.data|)), Go(0, 0))
         == (Directory(dir.files[c.Final() := |dir.data|], dir.data + [content]), Returned(true))
  {
    hide FinalName, Hex;
    var content := c.fixture.content;
    assert content[0..|content|] == content && [] + content == content;
    assert (dir.data + [[]])[|dir.data| := content] == dir.data + [content];
    assert dir.files[c.Temporary() := |dir.data|] - {c.Temporary()} == dir.files;
  }

  /** What the other operations come to. */
  lemma OtherMoves(dir: Directory, c: Caller, file: nat, n: nat)
    ensures c.Final() in dir.files ==>
      && Move(dir, c.(pc := Check), Go(0, 0)) == (dir, Returned(true))
      && Move(dir, c.(pc := Recheck(file)), Go(0, 0)) == (dir, Remove(file))
    ensures c.Final() !in dir.files ==> Move(dir, c.(pc := Recheck(file)), Go(0, 0)) == (dir, Returned(false))
    ensures Move(dir, c.(pc := Remove(file)), Go(0, 0))
         == (Directory(dir.files - {c.Temporary()}, dir.data), Returned(true))
    ensures Move(dir, c.(pc := Check), Fail(0)) == (dir, Returned(false))
    ensures Move(dir, c.(pc := Create), Fail(0)) == (dir, Returned(false))
    ensures n < |c.fixture.content| ==> Move(dir, c.(pc := Write(file, n)), Fail(0)) == (dir, Returned(false))
    ensures Move(dir, c.(pc := Rename(file)), Fail(0)) == (dir, Recheck(file))
    ensures Move(dir, c.(pc := Recheck(file)), Fail(0)) == (dir, Returned(false))
    ensures Move(dir, c.(pc := Remove(file)), Fail(0)) == (dir, Returned(false))
  {
    hide FinalName, Hex;
  }
}
