/** `duplicate_until_safe`: cloning a descriptor until its number is out of the low range. */
module FdTables {
  import opened Common

  /** An open file description. */
  type File = nat

  const SAFE_FD_NUM: nat := 17

  /** `try_clone` never answers a standard descriptor. */
  const FIRST_CLONE: nat := 3

  datatype IoError = TooManyOpenFiles

  /** The lowest number from `from` up that is not open. */
  function LowestFree(open: map<nat, File>, from: nat): (fd: nat)
    ensures from <= fd && fd !in open
    ensures forall k :: from <= k < fd ==> k in open
    decreases open.Keys
  {
    if from !in open then from else LowestFree(open - {from}, from + 1)
  }

  /** The unsafe numbers a clone could still take. */
  function FreeLow(open: map<nat, File>): set<nat> {
    set k | FIRST_CLONE <= k < SAFE_FD_NUM && k !in open
  }

  lemma FreeLowShrinks(open: map<nat, File>, fd: nat, file: File)
    requires FIRST_CLONE <= fd < SAFE_FD_NUM && fd !in open
    ensures |FreeLow(open[fd := file])| + 1 == |FreeLow(open)|
  {
    assert FreeLow(open) == FreeLow(open[fd := file]) + {fd};
  }

  lemma FreeLowBound(open: map<nat, File>)
    ensures |FreeLow(open)| <= 14
    ensures (exists k :: FIRST_CLONE <= k < SAFE_FD_NUM && k in open) ==> |FreeLow(open)| <= 13
  {
    var all: set<nat> := {3, 4, 5, 6, 7, 8, 9, 10, 11, 12, 13, 14, 15, 16};
    SubsetIsSmaller(FreeLow(open), all);
    if k: nat :| FIRST_CLONE <= k < SAFE_FD_NUM && k in open {
      SubsetIsSmaller(FreeLow(open), all - {k});
    }
  }

  lemma LowestFreeIs(open: map<nat, File>, from: nat, fd: nat)
    requires from <= fd && fd !in open
    requires forall k :: from <= k < fd ==> k in open
    ensures LowestFree(open, from) == fd
  {
  }

  /** Where the loop stands: `fds` are the descriptors it will close, `current` the one it holds. All
      of them are on the file of `fd`, the others are as before, and all of `fds` are unsafe. */
  ghost predicate Cloned(before: map<nat, File>, fd: nat, fds: seq<nat>, current: nat, now: map<nat, File>) {
    && fd in before
    && now.Keys == before.Keys + (set k | k in fds) + {current}
    && (forall k :: k in before ==> now[k] == before[k])
    && (forall k :: k in fds + [current] ==> now[k] == before[fd] && (k in before ==> k == fd))
    && (forall k :: k in fds ==> k < SAFE_FD_NUM)
    && current !in fds
    && (if fds == [] then current == fd else fd in fds)
  }

  lemma NextClone(before: map<nat, File>, fd: nat, fds: seq<nat>, current: nat, now: map<nat, File>, clone: nat)
    requires Cloned(before, fd, fds, current, now) && current < SAFE_FD_NUM
    requires clone == LowestFree(now, FIRST_CLONE)
    ensures Cloned(before, fd, fds + [current], clone, now[clone := now[current]])
    ensures clone < SAFE_FD_NUM ==> |FreeLow(now[clone := now[current]])| + 1 == |FreeLow(now)|
    ensures clone >= SAFE_FD_NUM ==> |FreeLow(now)| == 0 && clone == LowestFree(before, SAFE_FD_NUM)
  {
    if clone < SAFE_FD_NUM {
      FreeLowShrinks(now, clone, now[current]);
    } else {
      assert FreeLow(now) == {};
      forall k | SAFE_FD_NUM <= k < clone
        ensures k in before
      {
        assert k in now;
      }
      LowestFreeIs(before, SAFE_FD_NUM, clone);
    }
  }

  /** Closing what the loop collected, with or without the descriptor it holds. */
  lemma Closing(before: map<nat, File>, fd: nat, fds: seq<nat>, current: nat, now: map<nat, File>)
    requires Cloned(before, fd, fds, current, now)
    ensures now[current] == before[fd]
    ensures now - (set k | k in fds + [current]) == before - {fd}
    ensures now - (set k | k in fds)
         == if fds == [] then before else (before - {fd})[current := before[fd]]
  {
    var rest := now - (set k | k in fds);
    if fds == [] {
      assert rest == before;
    } else {
      assert rest == (before - {fd})[current := before[fd]];
    }
    assert now - (set k | k in fds + [current]) == before - {fd};
  }

  class FdTable {
    var open: map<nat, File>
    /** No number at or above this one can be opened. */
    const limit: nat

    constructor (limit: nat, open: map<nat, File>)
      ensures this.limit == limit && this.open == open
    {
      this.limit := limit;
      this.open := open;
    }

    /** `OwnedFd::try_clone`. */
    method TryClone(fd: nat) returns (r: Result<nat, IoError>)
      requires fd in open
      modifies this
      ensures LowestFree(old(open), 3) < limit ==>
        && r == Ok(LowestFree(old(open), 3))
        && open == old(open)[r.value := old(open)[fd]]
      ensures limit <= LowestFree(old(open), 3) ==> r == Err(TooManyOpenFiles) && open == old(open)
    {
      var lowest := LowestFree(open, FIRST_CLONE);
      if limit <= lowest {
        return Err(TooManyOpenFiles);
      }
      open := open[lowest := open[fd]];
      r := Ok(lowest);
    }

    method CloseAll(fds: seq<nat>)
      modifies this
      ensures open == old(open) - (set k | k in fds)
    {
      for i := 0 to |fds|
        invariant open == old(open) - (set k | k in fds[..i])
      {
        assert fds[..i + 1] == fds[..i] + [fds[i]];
        open := open - {fds[i]};
      }
      assert fds[..|fds|] == fds;
    }

    /** Clones `fd` until the number is at least 17. All numbers below stay open meanwhile, so every
        round uses up one of the at most 14 candidates. At the end only the last clone is left: the
        lowest free number from 17 up, on the same file. If a clone fails, the descriptor is lost and
        the rest of the table is as before. */
    method DuplicateUntilSafe(fd: nat) returns (r: Result<nat, IoError>, clones: nat)
      requires fd in open
      modifies this
      ensures clones <= 15 && (3 <= fd ==> clones <= 14)
      ensures r.Ok? ==> clones == if fd >= 17 then 0 else |FreeLow(old(open))| + 1
      ensures r.Ok? && fd >= 17 ==> r.value == fd && open == old(open)
      ensures r.Ok? && fd < 17 ==>
        && r.value == LowestFree(old(open), 17)
        && open == (old(open) - {fd})[r.value := old(open)[fd]]
      ensures r.Err? ==> open == old(open) - {fd}
      ensures r.Ok? ==> r.value >= 17
      ensures r.Ok? <==> fd >= 17 || LowestFree(old(open), 17) < limit
    {
      assert Cloned(open, fd, [], fd, open);
      hide Cloned, LowestFree, FreeLow;
      var current: nat := fd;
      var fds: seq<nat> := [];
      clones := 0;
      FreeLowBound(open);
      ghost var before := open;
      while current < SAFE_FD_NUM
        invariant Cloned(before, fd, fds, current, open)
        invariant clones == |fds|
        invariant fd >= SAFE_FD_NUM ==> clones == 0
        invariant fd < SAFE_FD_NUM && current < SAFE_FD_NUM ==> clones + |FreeLow(open)| == |FreeLow(before)|
        invariant fd < SAFE_FD_NUM <= current ==>
          clones == |FreeLow(before)| + 1 && current == LowestFree(before, SAFE_FD_NUM) && current < limit
        decreases |FreeLow(open)|, SAFE_FD_NUM - current
      {
        ghost var now := open;
        Closing(before, fd, fds, current, now);
        var cloned := TryClone(current);
        NextClone(before, fd, fds, current, now, LowestFree(now, FIRST_CLONE));
        if cloned.Err? {
          Closing(before, fd, fds, current, open);
          CloseAll(fds + [current]);
          return Err(cloned.error), clones;
        }
        fds := fds + [current];
        current := cloned.value;
        clones := clones + 1;
      }
      Closing(before, fd, fds, current, open);
      CloseAll(fds);
      r := Ok(current);
    }
  }
}
