/** PATH search. */
module PathSearch {
  import opened Common
  import opened BytesSplit

  const NAME_MAX: nat := 255
  const SLASH: byte := 47
  const COLON: byte := 58

  predicate IsColon(c: byte) {
    c == COLON
  }

  /** What checking the `i`-th candidate answers: nothing, or an error number. */
  type Checker = (nat, Bytes) -> Option<Errno>

  /** Errors that let the search go on. */
  predicate Soft(e: Errno) {
    e == EACCES || e == ENOENT || e == ENOTDIR
  }

  /** A directory entry and the file name; an empty entry means the bare name. */
  function Candidate(entry: Bytes, file: Bytes): Bytes {
    if entry == [] then file else entry + [SLASH] + file
  }

  function Candidates(path: Bytes, file: Bytes): (c: seq<Bytes>)
    ensures |c| == |Split(path, IsColon)|
    ensures forall i :: 0 <= i < |c| ==> c[i] == Candidate(Split(path, IsColon)[i], file)
  {
    seq(|Split(path, IsColon)|, i requires 0 <= i < |Split(path, IsColon)| => Candidate(Split(path, IsColon)[i], file))
  }

  /** The entries, joined by colons, are the search path again. */
  lemma EntriesCoverPath(path: Bytes)
    ensures Join(Split(path, IsColon), COLON) == path
    ensures forall i :: 0 <= i < |Split(path, IsColon)| ==> Without(Split(path, IsColon)[i], IsColon)
  {
    JoinSplit(path, COLON, IsColon);
    PiecesWithout(path, IsColon);
  }

  /** The search stops at candidate `k`. */
  predicate Decisive(check: Checker, candidates: seq<Bytes>, k: nat)
    requires k < |candidates|
  {
    var answer := check(k, candidates[k]);
    answer.None? || !Soft(answer.value)
  }

  /** What searching `candidates` may answer, having probed `probes`: the answer of the first
      decisive candidate; without one, EACCES if it was ever seen, else the last error. */
  ghost predicate Answers(check: Checker, candidates: seq<Bytes>, probes: seq<Bytes>, r: Result<Bytes, Errno>) {
    && 0 < |probes| <= |candidates|
    && probes == candidates[..|probes|]
    && (forall i :: 0 <= i < |probes| - 1 ==> !Decisive(check, candidates, i))
    && var last := |probes| - 1;
    if Decisive(check, candidates, last) then
      r == (match check(last, candidates[last]) case None => Ok(candidates[last]) case Some(e) => Err(e))
    else
      && |probes| == |candidates|
      && r == Err(if exists i :: 0 <= i < |candidates| && check(i, candidates[i]) == Some(EACCES) then EACCES
                  else check(last, candidates[last]).value)
  }

  /** The first decisive candidate from `k` on, or the number of candidates. */
  function FirstDecisive(check: Checker, candidates: seq<Bytes>, k: nat): (first: nat)
    requires k <= |candidates|
    ensures k <= first <= |candidates|
    ensures first < |candidates| ==> Decisive(check, candidates, first)
    ensures forall i :: k <= i < first ==> !Decisive(check, candidates, i)
    decreases |candidates| - k
  {
    if k == |candidates| || Decisive(check, candidates, k) then k else FirstDecisive(check, candidates, k + 1)
  }

  function SearchProbes(check: Checker, candidates: seq<Bytes>): seq<Bytes> {
    var first := FirstDecisive(check, candidates, 0);
    if first < |candidates| then candidates[..first + 1] else candidates
  }

  function SearchResult(check: Checker, candidates: seq<Bytes>): Result<Bytes, Errno>
    requires |candidates| > 0
  {
    var first := FirstDecisive(check, candidates, 0);
    if first == |candidates| then
      if exists i :: 0 <= i < |candidates| && check(i, candidates[i]) == Some(EACCES) then Err(EACCES)
      else assert !Decisive(check, candidates, first - 1); Err(check(first - 1, candidates[first - 1]).value)
    else
      match check(first, candidates[first])
      case None => Ok(candidates[first])
      case Some(e) => Err(e)
  }

  /** The computed answer is an answer, so by uniqueness it is the answer. */
  lemma SearchAnswers(check: Checker, candidates: seq<Bytes>)
    requires |candidates| > 0
    ensures Answers(check, candidates, SearchProbes(check, candidates), SearchResult(check, candidates))
  {
    var first := FirstDecisive(check, candidates, 0);
    if first == |candidates| {
      assert candidates[..|candidates|] == candidates;
      assert !Decisive(check, candidates, first - 1);
    }
  }

  /** Only one answer and one list of probes fit. */
  lemma AnswersUnique(
    check: Checker, candidates: seq<Bytes>,
    probes: seq<Bytes>, r: Result<Bytes, Errno>, probes': seq<Bytes>, r': Result<Bytes, Errno>)
    requires Answers(check, candidates, probes, r) && Answers(check, candidates, probes', r')
    ensures probes == probes' && r == r'
  {
  }

  function SumLengths(parts: seq<Bytes>): nat {
    if parts == [] then 0 else |parts[0]| + SumLengths(parts[1..])
  }

  lemma {:induction false} SumLengthsIsLength(parts: seq<Bytes>)
    ensures SumLengths(parts) == |Flatten(parts)|
  {
    if parts != [] {
      SumLengthsIsLength(parts[1..]);
    }
  }

  /** `concat`: the buffer has exactly the room the parts need, and is filled to its end. */
  method Concat(parts: seq<Bytes>) returns (buf: array<byte>)
    ensures fresh(buf) && buf[..] == Flatten(parts)
  {
    SumLengthsIsLength(parts);
    buf := new byte[SumLengths(parts)];
    var pos := 0;
    assert parts[..|parts|] == parts;
    for k := 0 to |parts|
      invariant pos == |Flatten(parts[..k])| <= buf.Length && buf[..pos] == Flatten(parts[..k])
    {
      FlattenAround(parts, k);
      assert parts[..k + 1][..k] == parts[..k] && parts[..k + 1][k + 1..] == [];
      FlattenAround(parts[..k + 1], k);
      var s := parts[k];
      var nextPos := pos + |s|;
      for i := 0 to |s|
        invariant buf[..pos + i] == Flatten(parts[..k]) + s[..i]
      {
        buf[pos + i] := s[i];
        assert s[..i + 1] == s[..i] + [s[i]];
      }
      assert s[..|s|] == s;
      pos := nextPos;
    }
  }

  /** What `which` returns for what the search found: the callback is called once with a found
      candidate and never otherwise, and its answer is passed on. */
  ghost predicate CalledBack<R>(
    found: Result<Bytes, Errno>, callback: Bytes -> Result<R, Errno>, r: Result<R, Errno>, calls: seq<Bytes>)
  {
    match found
    case Ok(name) => r == callback(name) && calls == [name]
    case Err(e) => r == Err(e) && calls == []
  }

  /** The loop over the entries of the search path. */
  method Search<R>(file: Bytes, path: Bytes, check: Checker, callback: Bytes -> Result<R, Errno>)
    returns (r: Result<R, Errno>, probes: seq<Bytes>, calls: seq<Bytes>, found: Result<Bytes, Errno>)
    ensures Answers(check, Candidates(path, file), probes, found)
    ensures CalledBack(found, callback, r, calls)
  {
    hide Candidate, Split, Flatten;
    probes, calls := [], [];
    var entries := Split(path, IsColon);
    ghost var candidates := Candidates(path, file);
    var seenEacces, lastErr := false, ENOENT;
    for i := 0 to |entries|
      invariant probes == candidates[..i] && calls == []
      invariant forall j :: 0 <= j < i ==> !Decisive(check, candidates, j)
      invariant seenEacces <==> exists j :: 0 <= j < i && check(j, candidates[j]) == Some(EACCES)
      invariant i > 0 ==> check(i - 1, candidates[i - 1]) == Some(lastErr)
    {
      var buf := Concat([entries[i], if entries[i] == [] then [] else [SLASH], file]);
      JoinedName(entries[i], file);
      var name := buf[..];
      assert name == candidates[i];
      probes := probes + [name];
      match check(i, name) {
        case None =>
          assert Decisive(check, candidates, i);
          return callback(name), probes, [name], Ok(name);
        case Some(e) =>
          if Soft(e) {
            seenEacces := seenEacces || e == EACCES;
            lastErr := e;
          } else {
            assert Decisive(check, candidates, i);
            return Err(e), probes, [], Err(e);
          }
      }
    }
    r := Err(if seenEacces then EACCES else lastErr);
    found := Err(r.error);
  }

  /** What `which` answers and which candidates it checks on the way. */
  function Found(file: Bytes, path: Bytes, check: Checker): Result<Bytes, Errno> {
    if file == [] then Err(ENOENT)
    else if SLASH in file then Ok(file)
    else if |file| > NAME_MAX then Err(ENAMETOOLONG)
    else SearchResult(check, Candidates(path, file))
  }

  function Probed(file: Bytes, path: Bytes, check: Checker): seq<Bytes> {
    if file == [] || SLASH in file || |file| > NAME_MAX then []
    else SearchProbes(check, Candidates(path, file))
  }

  /** `which`. Besides its result it reports the candidates it checked, in order, and the paths it
      called its callback with. */
  method Which<R>(file: Bytes, path: Bytes, check: Checker, callback: Bytes -> Result<R, Errno>)
    returns (r: Result<R, Errno>, probes: seq<Bytes>, calls: seq<Bytes>)
    ensures CalledBack(Found(file, path, check), callback, r, calls) && probes == Probed(file, path, check)
    ensures file == [] ==> r == Err(ENOENT) && probes == []
    ensures file != [] && 47 in file ==> r == callback(file) && probes == []
    ensures file != [] && 47 !in file && |file| > 255 ==> r == Err(ENAMETOOLONG) && probes == []
    ensures file != [] && 47 !in file && |file| <= 255 ==>
      Answers(check, Candidates(path, file), probes, Found(file, path, check))
  {
    hide Candidate, Split, Flatten, SearchProbes, SearchResult, Answers;
    probes, calls := [], [];
    if file == [] {
      return Err(ENOENT), [], [];
    }
    if SLASH in file {
      return callback(file), [], [file];
    }
    if |file| > NAME_MAX {
      return Err(ENAMETOOLONG), [], [];
    }
    var found;
    r, probes, calls, found := Search(file, path, check, callback);
    SearchAnswers(check, Candidates(path, file));
    AnswersUnique(check, Candidates(path, file), probes, found,
                  SearchProbes(check, Candidates(path, file)), SearchResult(check, Candidates(path, file)));
  }

  lemma JoinedName(entry: Bytes, file: Bytes)
    ensures Flatten([entry, if entry == [] then [] else [SLASH], file]) == Candidate(entry, file)
  {
    var slash: Bytes := if entry == [] then [] else [SLASH];
    assert [entry, slash, file][1..] == [slash, file];
    assert [slash, file][1..] == [file];
    assert Flatten([file]) == file;
    assert Flatten([slash, file]) == slash + file;
    assert Flatten([entry, slash, file]) == entry + (slash + file);
    assert entry + (slash + file) == entry + slash + file;
  }

  // ---------------------------------------------------------------------------------------------
  // The search in plain terms
  // ---------------------------------------------------------------------------------------------

  lemma FirstDecisiveIs(check: Checker, candidates: seq<Bytes>, k: nat)
    requires k <= |candidates| && (k < |candidates| ==> Decisive(check, candidates, k))
    requires forall i :: 0 <= i < k ==> !Decisive(check, candidates, i)
    ensures FirstDecisive(check, candidates, 0) == k
  {
  }

  /** A candidate that passes, all before it being unusable, is the answer. */
  lemma FindsFirstUsable(file: Bytes, path: Bytes, check: Checker, k: nat)
    requires file != [] && 47 !in file && |file| <= 255 && k < |Candidates(path, file)|
    requires forall i :: 0 <= i < k ==>
      || check(i, Candidates(path, file)[i]) == Some(EACCES)
      || check(i, Candidates(path, file)[i]) == Some(ENOENT)
      || check(i, Candidates(path, file)[i]) == Some(ENOTDIR)
    requires check(k, Candidates(path, file)[k]) == None
    ensures Found(file, path, check) == Ok(Candidates(path, file)[k])
    ensures Probed(file, path, check) == Candidates(path, file)[..k + 1]
  {
    hide Candidates;
    FirstDecisiveIs(check, Candidates(path, file), k);
  }

  /** A candidate with any other error, all before it being unusable, ends the search with that error. */
  lemma StopsAtOtherError(file: Bytes, path: Bytes, check: Checker, k: nat, e: Errno)
    requires file != [] && 47 !in file && |file| <= 255 && k < |Candidates(path, file)|
    requires forall i :: 0 <= i < k ==>
      || check(i, Candidates(path, file)[i]) == Some(EACCES)
      || check(i, Candidates(path, file)[i]) == Some(ENOENT)
      || check(i, Candidates(path, file)[i]) == Some(ENOTDIR)
    requires check(k, Candidates(path, file)[k]) == Some(e) && e != EACCES && e != ENOENT && e != ENOTDIR
    ensures Found(file, path, check) == Err(e)
    ensures Probed(file, path, check) == Candidates(path, file)[..k + 1]
  {
    hide Candidates;
    FirstDecisiveIs(check, Candidates(path, file), k);
  }

  /** When all are unusable the answer is EACCES if one was out of reach, else the last error. */
  lemma AllUnusable(file: Bytes, path: Bytes, check: Checker)
    requires file != [] && 47 !in file && |file| <= 255
    requires forall i :: 0 <= i < |Candidates(path, file)| ==>
      || check(i, Candidates(path, file)[i]) == Some(EACCES)
      || check(i, Candidates(path, file)[i]) == Some(ENOENT)
      || check(i, Candidates(path, file)[i]) == Some(ENOTDIR)
    ensures var candidates := Candidates(path, file);
      && |candidates| > 0
      && Probed(file, path, check) == candidates
      && Found(file, path, check).Err?
      && Some(Found(file, path, check).error)
         == if exists i :: 0 <= i < |candidates| && check(i, candidates[i]) == Some(EACCES) then Some(EACCES)
            else check(|candidates| - 1, candidates[|candidates| - 1])
  {
    FirstDecisiveIs(check, Candidates(path, file), |Candidates(path, file)|);
    hide Candidate;
  }

  /** What is searched for: each entry of the path, in order, with a slash and the name behind it; an empty entry
      stands for the name alone. Entries are separated by colons, byte 58; a slash is byte 47. */
  lemma CandidateNames(entries: seq<Bytes>, file: Bytes)
    requires entries != [] && forall i :: 0 <= i < |entries| ==> 58 !in entries[i]
    ensures |Candidates(Join(entries, 58), file)| == |entries|
    ensures forall i :: 0 <= i < |entries| ==>
      Candidates(Join(entries, 58), file)[i] == if entries[i] == [] then file else entries[i] + [47] + file
  {
    forall i | 0 <= i < |entries|
      ensures Without(entries[i], IsColon)
    {
      forall k | 0 <= k < |entries[i]|
        ensures !IsColon(entries[i][k])
      {
        assert entries[i][k] in entries[i];
      }
    }
    SplitJoin(entries, 58, IsColon);
  }

  /** Searching `/a:/b` for `x`, which is only below `/b`. */
  lemma SecondEntryIsFound(check: Checker)
    requires check(0, [47, 97, 47, 120]) == Some(ENOENT) && check(1, [47, 98, 47, 120]) == None
    ensures Found([120], [47, 97, 58, 47, 98], check) == Ok([47, 98, 47, 120])
  {
    var entries: seq<Bytes> := [[47, 97], [47, 98]];
    assert entries[1..] == [[47, 98]];
    assert Join(entries, 58) == [47, 97, 58, 47, 98];
    CandidateNames(entries, [120]);
    assert entries[0] + [47] + [120] == [47, 97, 47, 120] && entries[1] + [47] + [120] == [47, 98, 47, 120];
    FindsFirstUsable([120], [47, 97, 58, 47, 98], check, 1);
  }
}
