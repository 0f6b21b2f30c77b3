/** `handle_exec`: what is recorded of an exec call, and the command that is run instead. */
module Spawns {
  import opened Common
  import opened Envs
  import opened Payloads
  import opened Execs
  import opened PathSearch
  import opened Shebangs

  predicate IsAbsolute(path: Bytes) {
    path != [] && path[0] == SLASH
  }

  /** The path that is recorded. Without an answer from `absolute` the call panics. */
  function Recorded(world: World, path: Bytes): Option<Bytes> {
    if IsAbsolute(path) then Some(path) else world.absolute(path)
  }

  /** The recorded paths, up to the first one that cannot be made absolute. */
  function RecordedAll(world: World, seen: seq<Bytes>): (accesses: seq<Bytes>)
    ensures |accesses| <= |seen|
    ensures forall i :: 0 <= i < |accesses| ==> Recorded(world, seen[i]) == Some(accesses[i])
    ensures |accesses| < |seen| ==> Recorded(world, seen[|accesses|]).None?
  {
    if seen == [] then []
    else
      match Recorded(world, seen[0])
      case None => []
      case Some(path) => [path] + RecordedAll(world, seen[1..])
  }

  function ReserveOf(encoded: EncodedPayload): Reserve {
    Reserve(encoded.payload.preloadPath, encoded.encodedString)
  }

  /** The command to run, and the filter to install before running it. */
  datatype Handled = Handled(command: Command, preExec: Option<SeccompPayload>)

  /** The Linux part on an executable of this linkage. */
  function Equipped(c: Command, dynamic: bool, encoded: EncodedPayload): Outcome<Handled> {
    if dynamic then
      match Inject(c.envs, ReserveOf(encoded))
      case (Ok(_), envs) => Done(Handled(c.(envs := envs), None))
      case (Err(e), _) => Failed(e)
    else Done(Handled(c.(envs := Strip(c.envs)), Some(encoded.payload.seccompPayload)))
  }

  function OsHandle(world: World, c: Command, encoded: EncodedPayload): Outcome<Handled> {
    match world.open(c.program)
    case Err(e) => Failed(e)
    case Ok(content) =>
      match world.mapFails(c.program)
      case Some(e) => Failed(e)
      case None =>
        match world.linkage(content)
        case Err(e) => Failed(e)
        case Ok(dynamic) => Equipped(c, dynamic, encoded)
  }

  /** The command the Linux part leaves, also when it fails: an injection whose second half is refused
      keeps its first half. */
  function AfterOs(world: World, c: Command, encoded: EncodedPayload): Command {
    if world.open(c.program).Err? || world.mapFails(c.program).Some? then c
    else
      match world.linkage(world.open(c.program).value)
      case Err(_) => c
      case Ok(dynamic) => c.(envs := if dynamic then Inject(c.envs, ReserveOf(encoded)).1 else Strip(c.envs))
  }

  /** What happens once the program is resolved. */
  function Finished(world: World, c: Command, encoded: EncodedPayload): Outcome<Handled> {
    if Recorded(world, c.program).None? then Panicked else OsHandle(world, c, encoded)
  }

  /** Everything that is handed to the wrapped callback: what resolving saw, then the resolved
      program. */
  function Seen(world: World, config: SearchConfig, c: Command): seq<Bytes> {
    var (resolved, seen) := Resolved(world, config, c);
    if resolved.Done? then seen + [resolved.value.program] else seen
  }

  /** The accesses `handle_exec` records. */
  function Accesses(world: World, config: SearchConfig, c: Command): seq<Bytes> {
    RecordedAll(world, Seen(world, config, c))
  }

  /** How `handle_exec` ends when every read succeeds. */
  function HandleResult(world: World, config: SearchConfig, c: Command, encoded: EncodedPayload): Outcome<Handled> {
    var (resolved, seen) := Resolved(world, config, c);
    if |RecordedAll(world, seen)| < |seen| then Panicked
    else
      match resolved
      case Failed(e) => Failed(e)
      case Panicked => Panicked
      case Done(c') => Finished(world, c', encoded)
  }

  /** The recorded paths are the longest list that fits. */
  lemma RecordedIs(world: World, seen: seq<Bytes>, accesses: seq<Bytes>)
    requires |accesses| <= |seen|
    requires forall i :: 0 <= i < |accesses| ==> Recorded(world, seen[i]) == Some(accesses[i])
    requires |accesses| < |seen| ==> Recorded(world, seen[|accesses|]).None?
    ensures accesses == RecordedAll(world, seen)
  {
    hide Recorded;
    var all := RecordedAll(world, seen);
    assert |all| == |accesses|;
  }

  lemma RecordedAppend(world: World, seen: seq<Bytes>, path: Bytes)
    ensures var some, all := RecordedAll(world, seen), RecordedAll(world, seen + [path]);
      all == if |some| == |seen| && Recorded(world, path).Some? then some + [Recorded(world, path).value] else some
  {
    hide Recorded;
    var some := RecordedAll(world, seen);
    RecordedIs(world, seen + [path],
               if |some| == |seen| && Recorded(world, path).Some? then some + [Recorded(world, path).value] else some);
  }

  /** The command a failed `handle_exec` leaves when every read succeeds. */
  function AfterFailure(world: World, config: SearchConfig, c: Command, encoded: EncodedPayload): Command {
    match Resolved(world, config, c).0
    case Done(c') => AfterOs(world, c', encoded)
    case _ => Looked(world, config, c)
  }

  /** The wrapper around the access callback, applied to one path after the other. */
  method Record(world: World, seen: seq<Bytes>) returns (accesses: seq<Bytes>)
    ensures accesses == RecordedAll(world, seen)
  {
    hide Recorded, RecordedAll;
    accesses := [];
    for i := 0 to |seen|
      invariant |accesses| == i
      invariant forall j :: 0 <= j < i ==> Recorded(world, seen[j]) == Some(accesses[j])
    {
      var path := Recorded(world, seen[i]);
      if path.None? {
        RecordedIs(world, seen, accesses);
        return;
      }
      accesses := accesses + [path.value];
    }
    RecordedIs(world, seen, accesses);
  }

  /** The Linux `handle_exec`. */
  method HandleOs(world: World, exec: Exec, encoded: EncodedPayload) returns (r: Outcome<Option<SeccompPayload>>)
    modifies exec`envs
    ensures match OsHandle(world, old(exec.View()), encoded)
            case Done(h) => r == Done(h.preExec) && exec.View() == h.command
            case Failed(e) => r == Failed(e)
            case Panicked => r == Panicked
    ensures exec.View() == AfterOs(world, old(exec.View()), encoded)
    ensures UserEnv(exec.envs) == UserEnv(old(exec.envs))
  {
    hide UserEnv, LD_PRELOAD, PAYLOAD_ENV_NAME, FirstValued;
    InjectFacts(exec.envs, ReserveOf(encoded));
    var file := world.open(exec.program);
    if file.Err? {
      return Failed(file.error);
    }
    var failure := world.mapFails(exec.program);
    if failure.Some? {
      return Failed(failure.value);
    }
    var dynamic := world.linkage(file.value);
    if dynamic.Err? {
      return Failed(dynamic.error);
    }
    if dynamic.value {
      var preload := exec.EnsureEnv(LD_PRELOAD(), encoded.payload.preloadPath);
      if preload.Err? {
        return Failed(preload.error);
      }
      var payload := exec.EnsureEnv(PAYLOAD_ENV_NAME(), encoded.encodedString);
      if payload.Err? {
        return Failed(payload.error);
      }
      r := Done(None);
    } else {
      UserEnvTwice(exec.envs);
      exec.envs := Strip(exec.envs);
      r := Done(Some(encoded.payload.seccompPayload));
    }
  }

  lemma UserEnvTwice(envs: seq<Entry>)
    ensures UserEnv(Strip(envs)) == UserEnv(envs)
  {
    StripFacts(envs, LD_PRELOAD());
  }

  /** `handle_exec`. */
  method HandleExec(world: World, config: SearchConfig, exec: Exec, encoded: EncodedPayload)
    returns (r: Outcome<Option<SeccompPayload>>, accesses: seq<Bytes>)
    modifies exec
    ensures !(r.Failed? && ReadFailure(world, r.errno)) ==>
      && accesses == Accesses(world, config, old(exec.View()))
      && match HandleResult(world, config, old(exec.View()), encoded)
         case Done(h) => r == Done(h.preExec) && exec.View() == h.command
         case Failed(e) => r == Failed(e)
         case Panicked => r == Panicked
    ensures r.Failed? && ReadFailure(world, r.errno) ==>
      || (accesses == Accesses(world, config, old(exec.View()))
          && exec.View() == AfterFailure(world, config, old(exec.View()), encoded))
      || (accesses == RecordedAll(world, Resolved(world, config, old(exec.View())).1)
          && exec.View() == Looked(world, config, old(exec.View())))
    ensures r.Failed? && !ReadFailure(world, r.errno) ==>
      exec.View() == AfterFailure(world, config, old(exec.View()), encoded)
    ensures accesses <= Accesses(world, config, old(exec.View()))
    ensures UserEnv(exec.envs) == UserEnv(old(exec.envs))
  {
    hide Resolved, Looked, AfterOs, OsHandle, UserEnv, Recorded, RecordedAll;
    ghost var c := Resolved(world, config, exec.View()).0;
    var resolved, seen := exec.Resolve(world, config);
    if c.Done? {
      RecordedAppend(world, seen, c.value.program);
    }
    accesses := Record(world, seen);
    if |accesses| < |seen| {
      return Panicked, accesses;
    }
    match resolved {
      case Failed(e) => return Failed(e), accesses;
      case Panicked => return Panicked, accesses;
      case Done(_) =>
    }
    var program := Recorded(world, exec.program);
    if program.None? {
      return Panicked, accesses;
    }
    accesses := accesses + [program.value];
    r := HandleOs(world, exec, encoded);
  }

  // ---------------------------------------------------------------------------------------------
  // What is recorded
  // ---------------------------------------------------------------------------------------------

  /** `std::path::absolute` as documented: the empty path is an error, and so is any relative path while
      the working directory cannot be read; what it answers is absolute. */
  ghost predicate WellBehaved(world: World) {
    forall p: Bytes ::
      match world.absolute(p)
      case None => p == [] || (!IsAbsolute(p) && !world.cwd)
      case Some(path) => p != [] && (IsAbsolute(p) || world.cwd) && IsAbsolute(path)
  }

  lemma RecordedFacts(world: World, path: Bytes)
    requires WellBehaved(world)
    ensures Recorded(world, path).None? <==> path == [] || (!IsAbsolute(path) && !world.cwd)
    ensures Recorded(world, path).Some? ==> IsAbsolute(Recorded(world, path).value)
  {
    var answer := world.absolute(path);
  }

  /** Whatever is recorded is absolute, also when the call fails or panics later. */
  lemma AccessesAreAbsolute(world: World, config: SearchConfig, c: Command)
    requires WellBehaved(world)
    ensures forall i :: 0 <= i < |Accesses(world, config, c)| ==> IsAbsolute(Accesses(world, config, c)[i])
  {
    hide Recorded, IsAbsolute, Resolved;
    var seen, accesses := Seen(world, config, c), Accesses(world, config, c);
    forall i | 0 <= i < |accesses|
      ensures IsAbsolute(accesses[i])
    {
      RecordedFacts(world, seen[i]);
    }
  }

  lemma CandidateIsNotEmpty(entry: Bytes, file: Bytes)
    requires file != []
    ensures Candidate(entry, file) != []
  {
  }

  /** No candidate and no result of a search is the empty path. */
  lemma SearchFindsNames(world: World, config: SearchConfig, program: Bytes)
    ensures var (found, probes) := Searched(world, config, program);
      && (forall i :: 0 <= i < |probes| ==> probes[i] != [])
      && (config.None? ==> found.Ok?)
      && (found.Ok? ==> (found.value == [] <==> config.None? && program == []))
  {
    if config.Some? && program != [] && SLASH !in program && |program| <= NAME_MAX {
      var path := SearchPath(world, config.value);
      var candidates := Candidates(path, program);
      SearchAnswers(world.check, candidates);
      hide Candidate, SearchProbes, SearchResult;
      forall i | 0 <= i < |candidates|
        ensures candidates[i] != []
      {
        CandidateIsNotEmpty(BytesSplit.Split(path, IsColon)[i], program);
      }
    }
  }

  /** A corollary of the contract of `HandleExec`, which fixes the accesses, and of `Which`. The accesses of a
      call that got as far as a command to run are the candidates probed, the script,
      the program in the end. */
  lemma AccessOrder(world: World, config: SearchConfig, c: Command, encoded: EncodedPayload)
    requires HandleResult(world, config, c, encoded).Done?
    ensures var (found, probes) := Searched(world, config, c.program);
      && found.Ok?
      && Seen(world, config, c)
         == probes + [found.value] + [HandleResult(world, config, c, encoded).value.command.program]
      && |Accesses(world, config, c)| == |probes| + 2
    ensures var seen, accesses := Seen(world, config, c), Accesses(world, config, c);
      forall i :: 0 <= i < |accesses| ==>
        && i < |seen|
        && (seen[i] != [] && seen[i][0] == 47 ==> accesses[i] == seen[i])
        && (seen[i] == [] || seen[i][0] != 47 ==> world.absolute(seen[i]) == Some(accesses[i]))
  {
    AccessPaths(world, config, c);
    hide Recorded, Searched, Unwrapped;
    var (resolved, seen) := Resolved(world, config, c);
    RecordedAppend(world, seen, resolved.value.program);
    EquippedKeeps(world, resolved.value, encoded);
  }

  /** What is recorded of each path: an absolute one, which starts with byte 47, as it is; any other as it is
      made absolute. Recording stops at the first one that cannot be. */
  lemma AccessPaths(world: World, config: SearchConfig, c: Command)
    ensures var seen, accesses := Seen(world, config, c), Accesses(world, config, c);
      && |accesses| <= |seen|
      && (forall i :: 0 <= i < |accesses| ==>
            && (seen[i] != [] && seen[i][0] == 47 ==> accesses[i] == seen[i])
            && (seen[i] == [] || seen[i][0] != 47 ==> world.absolute(seen[i]) == Some(accesses[i])))
      && (|accesses| < |seen| ==>
            && (seen[|accesses|] == [] || seen[|accesses|][0] != 47)
            && world.absolute(seen[|accesses|]) == None)
  {
    hide Seen;
  }

  /** What is seen of a call that fails: the candidates, then the script if one was found. */
  lemma SeenWithoutResult(world: World, config: SearchConfig, c: Command)
    requires !Resolved(world, config, c).0.Done?
    ensures var (found, probes) := Searched(world, config, c.program);
      Seen(world, config, c) == if found.Ok? then probes + [found.value] else probes
  {
    hide Searched, Unwrapped;
  }

  /** The errors, in the order in which they are met. */
  lemma Failures(world: World, config: SearchConfig, c: Command, encoded: EncodedPayload)
    requires |Accesses(world, config, c)| == |Seen(world, config, c)|
    ensures var found, r := Searched(world, config, c.program).0, HandleResult(world, config, c, encoded);
      && (found.Err? ==> r == Failed(found.error))
      && (found.Ok? && world.open(found.value).Err? ==> r == Failed(world.open(found.value).error))
    ensures Resolved(world, config, c).0.Done? ==>
      var p, r := Resolved(world, config, c).0.value.program, HandleResult(world, config, c, encoded);
      && (world.open(p).Err? ==> r == Failed(world.open(p).error))
      && (world.open(p).Ok? && world.mapFails(p).Some? ==> r == Failed(world.mapFails(p).value))
      && (world.open(p).Ok? && world.mapFails(p).None? ==>
            && (world.linkage(world.open(p).value).Err? ==> r == Failed(world.linkage(world.open(p).value).error))
            && (world.linkage(world.open(p).value) == Ok(true) && !Compatible(c.envs, ReserveOf(encoded)) ==>
                  r == Failed(EINVAL)))
  {
    hide Recorded, Searched, Parse, Peeked, Compatible, Inject, Strip;
    var (resolved, seen) := Resolved(world, config, c);
    if resolved.Done? {
      RecordedAppend(world, seen, resolved.value.program);
      SearchedEnvs(world, config, c);
      EnvironmentOfRun(resolved.value, true, encoded);
    }
  }

  /** The Linux part changes nothing but the environment. */
  lemma EquippedKeeps(world: World, c: Command, encoded: EncodedPayload)
    requires OsHandle(world, c, encoded).Done?
    ensures OsHandle(world, c, encoded).value.command.program == c.program
    ensures OsHandle(world, c, encoded).value.command.args == c.args
  {
    hide Inject, Strip;
  }

  /** The probes are those of the search the configuration asks for: a corollary of `Which`. */
  lemma ProbesAreTheSearch(world: World, custom: Option<Bytes>, program: Bytes)
    requires program != [] && SLASH !in program && |program| <= NAME_MAX
    ensures var (found, probes) := Searched(world, Some(custom), program);
      Answers(world.check, Candidates(SearchPath(world, custom), program), probes, found)
  {
    hide Answers, Candidates, SearchProbes, SearchResult;
    SearchAnswers(world.check, Candidates(SearchPath(world, custom), program));
  }

  // ---------------------------------------------------------------------------------------------
  // What is run
  // ---------------------------------------------------------------------------------------------

  /** The file starts with a shebang. */
  predicate IsScript(content: Bytes) {
    Magic() <= Peeked(content)
  }

  /** There is nothing but white space behind the `#!`. */
  predicate BlankShebang(content: Bytes)
    requires IsScript(content)
  {
    !HasText(BytesSplit.Split(Peeked(content)[2..], IsNewline)[0])
  }

  lemma BlankMeansNoInterpreter(content: Bytes)
    requires IsScript(content)
    ensures BlankShebang(content) <==> Parse(Peeked(content), false).value.interpreter == []
  {
    var line := Line(Peeked(content));
    TrimKeepsText(BytesSplit.Split(Peeked(content)[2..], IsNewline)[0]);
    LineFacts(Peeked(content));
    ArgumentFacts(line);
    if line != [] {
      InterpreterIsNotEmpty(line);
    }
  }

  lemma TrimKeepsText(b: Bytes)
    ensures HasText(b) <==> Trim(b) != []
  {
    if HasText(b) {
      TextSurvivesTrim(b);
    }
    TrimIsTight(b);
    var t := Trim(b);
    hide Trim;
    if t != [] {
      assert t[0] in b;
    }
  }

  lemma InterpreterIsNotEmpty(line: Bytes)
    requires line != [] && Tight(line)
    ensures Interpreter(line) != []
  {
    InterpreterFacts(line);
  }

  /** The arguments of the command that is run, read off the contract of `HandleExec`. Nothing of the
      old command is lost but its argv[0], which a script's name replaces. */
  lemma ArgumentsAreKept(world: World, config: SearchConfig, c: Command, encoded: EncodedPayload)
    requires HandleResult(world, config, c, encoded).Done?
    ensures var run := HandleResult(world, config, c, encoded).value.command;
      var found := Searched(world, config, c.program).0.value;
      && world.open(found).Ok?
      && var content := world.open(found).value;
      if IsScript(content) then
        var s := Parse(Peeked(content), false).value;
        && c.args != []
        && run.program == s.interpreter
        && run.args == [s.interpreter] + s.arguments + [found] + c.args[1..]
      else run.program == found && run.args == c.args
  {
    hide Recorded, Searched, Parse;
    var (resolved, seen) := Resolved(world, config, c);
    EquippedKeeps(world, resolved.value, encoded);
    var content := world.open(Searched(world, config, c.program).0.value).value;
    ParseOnlyScripts(content);
  }

  lemma ParseOnlyScripts(content: Bytes)
    ensures Parse(Peeked(content), false).Some? <==> IsScript(content)
  {
  }

  /** There is no program to look up, or the program is a script whose argument list or shebang is
      empty. */
  predicate NoProgramOrBadScript(world: World, config: SearchConfig, c: Command) {
    || (config.None? && c.program == [])
    || var found := Searched(world, config, c.program).0;
       && found.Ok? && world.open(found.value).Ok? && IsScript(world.open(found.value).value)
       && (c.args == [] || BlankShebang(world.open(found.value).value))
  }

  /** The inputs on which `handle_exec` panics: those, and the ones that have it record a relative path
      while the working directory cannot be read. */
  predicate Panics(world: World, config: SearchConfig, c: Command) {
    || NoProgramOrBadScript(world, config, c)
    || (!world.cwd && exists i :: 0 <= i < |Seen(world, config, c)| && !IsAbsolute(Seen(world, config, c)[i]))
  }

  /** The call panics when resolving does, or when something it saw cannot be recorded. */
  lemma PanicsWhenUnrecorded(world: World, config: SearchConfig, c: Command, encoded: EncodedPayload)
    ensures HandleResult(world, config, c, encoded).Panicked? <==>
      || Resolved(world, config, c).0.Panicked?
      || exists i :: 0 <= i < |Seen(world, config, c)| && Recorded(world, Seen(world, config, c)[i]).None?
  {
    hide Recorded, Resolved, OsHandle;
    var (resolved, seen) := Resolved(world, config, c);
    var all := Seen(world, config, c);
    var some := RecordedAll(world, seen);
    assert forall i :: 0 <= i < |seen| ==> all[i] == seen[i];
    if |some| < |seen| {
      assert Recorded(world, all[|some|]).None?;
    } else {
      assert forall i :: 0 <= i < |seen| ==> Recorded(world, all[i]).Some?;
      if resolved.Done? {
        assert all[|seen|] == resolved.value.program;
        OsNeverPanics(world, resolved.value, encoded);
      }
    }
  }

  lemma ScriptPanics(world: World, c: Command)
    requires c.program != []
    ensures var r := Unwrapped(world, c);
      (r.Panicked? || (r.Done? && r.value.program == []))
      <==> world.open(c.program).Ok? && IsScript(world.open(c.program).value)
           && (c.args == [] || BlankShebang(world.open(c.program).value))
  {
    hide Parse, IsScript, BlankShebang;
    if world.open(c.program).Ok? {
      var content := world.open(c.program).value;
      ParseOnlyScripts(content);
      if IsScript(content) {
        BlankMeansNoInterpreter(content);
      }
    }
  }

  lemma OsNeverPanics(world: World, c: Command, encoded: EncodedPayload)
    ensures !OsHandle(world, c, encoded).Panicked?
  {
    hide Inject, Strip;
  }

  /** Resolving panics, or the empty path is seen, exactly on those inputs. */
  lemma EmptyPathSeen(world: World, config: SearchConfig, c: Command)
    ensures NoProgramOrBadScript(world, config, c) <==>
      || Resolved(world, config, c).0.Panicked?
      || exists i :: 0 <= i < |Seen(world, config, c)| && Seen(world, config, c)[i] == []
  {
    hide Searched, Unwrapped, IsScript, BlankShebang;
    var (found, probes) := Searched(world, config, c.program);
    var (resolved, seen) := Resolved(world, config, c);
    var all := Seen(world, config, c);
    SearchFindsNames(world, config, c.program);
    if found.Ok? {
      assert all[|probes|] == found.value;
      if found.value != [] {
        ScriptPanics(world, c.(program := found.value));
        if resolved.Done? {
          assert all[|probes| + 1] == resolved.value.program;
        }
      }
    }
  }

  /** `handle_exec` panics on exactly these inputs. */
  lemma PanicsExactly(world: World, config: SearchConfig, c: Command, encoded: EncodedPayload)
    requires WellBehaved(world)
    ensures HandleResult(world, config, c, encoded).Panicked? <==> Panics(world, config, c)
  {
    hide Recorded, IsAbsolute, Seen, Resolved, HandleResult, NoProgramOrBadScript;
    PanicsWhenUnrecorded(world, config, c, encoded);
    EmptyPathSeen(world, config, c);
    var seen := Seen(world, config, c);
    forall i | 0 <= i < |seen|
      ensures Recorded(world, seen[i]).None? <==> seen[i] == [] || (!IsAbsolute(seen[i]) && !world.cwd)
    {
      RecordedFacts(world, seen[i]);
    }
  }

  /** A script that is nothing but `#!` and a newline makes the caller of `execve` panic. */
  lemma BlankScriptPanics(world: World, encoded: EncodedPayload)
    requires WellBehaved(world) && world.open([SLASH, 97]) == Ok([35, 33, 10])
    ensures HandleResult(world, None, Command([SLASH, 97], [[97]], []), encoded) == Panicked
  {
    var content: Bytes := [35, 33, 10];
    assert content[2..] == [10];
    assert BytesSplit.Split([], IsNewline) == [[]];
    assert BytesSplit.Split([10], IsNewline)[0] == [];
    PanicsExactly(world, None, Command([SLASH, 97], [[97]], []), encoded);
  }

  /** Without a readable working directory so does the program `./a`, whatever it holds. */
  lemma RelativeProgramPanics(world: World, encoded: EncodedPayload)
    requires WellBehaved(world) && !world.cwd
    ensures HandleResult(world, None, Command([46, SLASH, 97], [[97]], []), encoded) == Panicked
  {
    var c := Command([46, SLASH, 97], [[97]], []);
    assert Seen(world, None, c)[0] == c.program;
    PanicsExactly(world, None, c, encoded);
  }

  // ---------------------------------------------------------------------------------------------
  // The environment
  // ---------------------------------------------------------------------------------------------

  /** A command that is run keeps the user's entries and is followed up one way or the other: it
      carries preload library and payload, or it carries neither and the filter is installed. */
  lemma EnvironmentOfRun(c: Command, dynamic: bool, encoded: EncodedPayload)
    ensures var r := Equipped(c, dynamic, encoded);
      && (r.Done? <==> (dynamic ==> Compatible(c.envs, ReserveOf(encoded))))
      && (r.Done? || r == Failed(EINVAL))
      && (r.Done? ==>
            && UserEnv(r.value.command.envs) == UserEnv(c.envs)
            && Compatible(r.value.command.envs, ReserveOf(encoded))
            && r.value.preExec == (if dynamic then None else Some(encoded.payload.seccompPayload))
            && (dynamic ==> Injected(r.value.command.envs, ReserveOf(encoded)))
            && (dynamic ==> Equipped(r.value.command, dynamic, encoded) == r))
  {
    hide UserEnv, FirstValued, LD_PRELOAD, PAYLOAD_ENV_NAME, Inject;
    InjectFacts(c.envs, ReserveOf(encoded));
    StripFacts(c.envs, LD_PRELOAD());
    StripFacts(c.envs, PAYLOAD_ENV_NAME());
  }

  /** The call gets as far as equipping the resolved command. */
  predicate Reaches(world: World, config: SearchConfig, c: Command) {
    var resolved := Resolved(world, config, c).0;
    && resolved.Done?
    && |Accesses(world, config, c)| == |Seen(world, config, c)|
    && world.open(resolved.value.program).Ok?
    && world.mapFails(resolved.value.program).None?
    && world.linkage(world.open(resolved.value.program).value).Ok?
  }

  /** The resolved program is linked dynamically to libc. */
  predicate ReachesDynamic(world: World, config: SearchConfig, c: Command)
    requires Reaches(world, config, c)
  {
    world.linkage(world.open(Resolved(world, config, c).0.value.program).value).value
  }

  /** The calls that get a command to run. */
  lemma DoneExactly(world: World, config: SearchConfig, c: Command, encoded: EncodedPayload)
    ensures var r := HandleResult(world, config, c, encoded);
      && (r.Done? <==>
            Reaches(world, config, c) && (ReachesDynamic(world, config, c) ==> Compatible(c.envs, ReserveOf(encoded))))
      && (r.Done? ==>
            && r.value.command.program == Resolved(world, config, c).0.value.program
            && (r.value.preExec.None? <==> ReachesDynamic(world, config, c)))
  {
    hide Recorded, Searched, Inject, Strip, Compatible, Unwrapped;
    var (resolved, seen) := Resolved(world, config, c);
    if resolved.Done? {
      RecordedAppend(world, seen, resolved.value.program);
      SearchedEnvs(world, config, c);
      var os := OsHandle(world, resolved.value, encoded);
      if Reaches(world, config, c) {
        EnvironmentOfRun(resolved.value, ReachesDynamic(world, config, c), encoded);
      }
    }
  }

  /** Resolving leaves the environment alone. */
  lemma SearchedEnvs(world: World, config: SearchConfig, c: Command)
    requires Resolved(world, config, c).0.Done?
    ensures Resolved(world, config, c).0.value.envs == c.envs
  {
    hide Searched;
  }

  /** A run from an empty environment: a dynamic program gets the two entries, a static one none and the filter. */
  lemma EquippedFromNothing(program: Bytes, args: seq<Bytes>, encoded: EncodedPayload)
    ensures Equipped(Command(program, args, []), true, encoded)
         == Done(Handled(
              Command(program, args, [
                ([76, 68, 95, 80, 82, 69, 76, 79, 65, 68], Some(encoded.payload.preloadPath)),
                ([70, 83, 80, 89, 95, 80, 65, 89, 76, 79, 65, 68], Some(encoded.encodedString))]),
              None))
    ensures Equipped(Command(program, args, []), false, encoded)
         == Done(Handled(Command(program, args, []), Some(encoded.payload.seccompPayload)))
  {
    InjectIntoUnset([], ReserveOf(encoded));
    assert Inject([], ReserveOf(encoded)).1 == [
      ([76, 68, 95, 80, 82, 69, 76, 79, 65, 68], Some(encoded.payload.preloadPath)),
      ([70, 83, 80, 89, 95, 80, 65, 89, 76, 79, 65, 68], Some(encoded.encodedString))];
    StripOne(([], None), []);
    hide Inject, Strip;
  }

  /** `/a` executed without a search, where it is no script: it is recorded twice, as itself. */
  lemma PlainCallRecorded(world: World, args: seq<Bytes>, content: Bytes)
    requires world.open([47, 97]) == Ok(content) && !(|content| >= 2 && content[0] == 35 && content[1] == 33)
    ensures Accesses(world, None, Command([47, 97], args, [])) == [[47, 97], [47, 97]]
  {
    OnlyMagic(Peeked(content), false);
    var c := Command([47, 97], args, []);
    assert Seen(world, None, c) == [[47, 97], [47, 97]];
    AccessPaths(world, None, c);
  }
}
