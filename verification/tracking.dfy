/** Whole trees of processes: whoever forks, spawns or executes, tracking is never lost. */
module Tracking {
  import opened Common
  import opened Envs
  import opened Payloads
  import opened Execs
  import opened Spawns
  import opened Commands
  import opened RawExecs

  // ---------------------------------------------------------------------------------------------
  // Loading an image
  // ---------------------------------------------------------------------------------------------

  /** The value of the last valued entry. */
  function LastValued(envs: seq<Entry>, name: Bytes): Option<Bytes> {
    if envs == [] then None
    else if LastValued(envs[1..], name).Some? then LastValued(envs[1..], name)
    else if envs[0].0 == name then envs[0].1
    else None
  }

  /** The value a loader uses. */
  function LoaderValue(envs: seq<Entry>, name: Bytes, loader: Loader): Option<Bytes> {
    match loader
    case LastWins => LastValued(envs, name)
    case FirstWins => FirstValued(envs, name)
  }

  /** A seccomp filter: absent, handing its notifications to the supervisor, or installed without its
      notification fd having reached the supervisor. */
  datatype FilterState = NoFilter | Supervised | Orphaned

  /** A process: its environment when its image was loaded, the client of the preload library if that
      was loaded, its filter, and whether the descriptor that the library's path names is open and will be
      inherited. */
  datatype Process =
    Process(environ: seq<Bytes>, client: Option<EncodedPayload>, filter: FilterState, libraryOpen: bool)

  /** A program to be run: the loader of a dynamic one, and whether it runs in secure mode. */
  datatype Image = Image(loader: Option<Loader>, secure: bool)

  /** The loader can read the library: its path `/proc/self/fd/N` opens only while the descriptor is there,
      and in secure mode a path with a slash is not looked at. */
  predicate CanRead(image: Image, open: bool) {
    image.loader.Some? && open && !image.secure
  }

  /** What a fresh image is. A loader that cannot read the library goes on without it. The library's
      constructor takes the payload as `getenv` finds it and panics when there is none. */
  function Load(environ: seq<Bytes>, image: Image, filter: FilterState, open: bool, library: Bytes): Option<Process> {
    var envs := ParseEntries(environ);
    if CanRead(image, open) && LoaderValue(envs, LD_PRELOAD(), image.loader.value) == Some(library) then
      match FirstValued(envs, PAYLOAD_ENV_NAME())
      case None => None
      case Some(text) =>
        match DecodePayload(text)
        case Decoded(encoded) => Some(Process(environ, Some(encoded), filter, open))
        case _ => None
    else Some(Process(environ, None, filter, open))
  }

  /** The payload is what its own encoding says, and its path fits into a C string. */
  predicate Encodes(encoded: EncodedPayload) {
    EncodePayload(encoded.payload) == encoded && 0 !in encoded.payload.preloadPath
  }

  /** Accesses of the process reach the supervisor: through the preload library with the right
      payload, or through the filter. */
  predicate Tracked(p: Process, encoded: EncodedPayload) {
    p.client == Some(encoded) || p.filter.Supervised?
  }

  // ---------------------------------------------------------------------------------------------
  // Steps
  // ---------------------------------------------------------------------------------------------

  /** An intercepted call: the caller's C arrays, the system's answers, the kind of search. */
  datatype Call = Call(memory: Memory, raw: RawExec, world: World, config: SearchConfig)

  /** What installing a filter comes to: nothing, a filter whose fd could not be sent, a filter. */
  datatype Install = Refused | NotSent | Installed

  /** `CloseLibrary`: the program closes the descriptor of the library, or marks it close-on-exec, by hand.
      `PlainExec` is any exec that does not reach `handle_exec`. A spawn may close the descriptor in the
      child. */
  datatype Action =
    | Exit(pid: nat)
    | Fork(pid: nat, child: nat)
    | CloseLibrary(pid: nat)
    | PlainExec(pid: nat, environ: seq<Bytes>, image: Image)
    | InterceptedExec(pid: nat, call: Call, install: Install, runs: bool)
    | InterceptedSpawn(pid: nat, child: nat, call: Call, install: Install, runs: bool, closes: bool)

  type State = map<nat, Process>

  predicate WellFormed(call: Call) {
    ReadStrings(call.memory, call.raw).Some?
  }

  function CalledWith(call: Call): Command
    requires WellFormed(call)
  {
    CommandOf(ReadStrings(call.memory, call.raw).value)
  }

  /** The environment block the kernel finds when the command is handed over. */
  function HandedOver(c: Command): seq<Bytes> {
    var (m, raw) := RawOf(c);
    match ReadStrings(m, raw)
    case Some(strings) => strings.envp
    case None => []
  }

  /** The loader of a dynamic program. */
  function Linked(world: World, program: Bytes): Option<Loader> {
    if world.open(program).Ok? && world.linkage(world.open(program).value) == Ok(true) then
      Some(world.loader(world.open(program).value))
    else None
  }

  function ImageOf(world: World, program: Bytes): Image {
    Image(Linked(world, program), world.secure(program))
  }

  /** The kernel allows one filter with a listener; installing a second one is refused. */
  function FilterAfter(filter: FilterState, h: Handled, install: Install): (bool, FilterState) {
    if h.preExec.None? then (true, filter)
    else if !filter.NoFilter? then (false, filter)
    else
      match install
      case Refused => (false, NoFilter)
      case NotSent => (false, Orphaned)
      case Installed => (true, Supervised)
  }

  /** What an intercepted `exec` makes of its process: dead after a panic, the same image after a
      failure, a fresh image otherwise. `runs` says whether the kernel accepts the final call. */
  function AfterExec(p: Process, call: Call, install: Install, runs: bool, library: Bytes): Option<Process>
    requires p.client.Some? && WellFormed(call)
  {
    match HandleResult(call.world, call.config, CalledWith(call), p.client.value)
    case Panicked => None
    case Failed(_) => Some(p)
    case Done(h) =>
      var (ok, filter) := FilterAfter(p.filter, h, install);
      if !ok || !runs then Some(p.(filter := filter))
      else Load(HandedOver(h.command), ImageOf(call.world, h.command.program), filter, p.libraryOpen, library)
  }

  /** The child an intercepted `posix_spawn` makes, if any. The filter is installed on a thread of its
      own, so it never stays on the caller. */
  function AfterSpawn(
    p: Process, call: Call, install: Install, runs: bool, closes: bool, library: Bytes): Option<Process>
    requires p.client.Some? && WellFormed(call)
  {
    match HandleResult(call.world, call.config, CalledWith(call), p.client.value)
    case Done(h) =>
      var (ok, filter) := FilterAfter(p.filter, h, install);
      if !ok || !runs then None
      else
        Load(HandedOver(h.command), ImageOf(call.world, h.command.program), filter, p.libraryOpen && !closes, library)
    case _ => None
  }

  predicate Enabled(s: State, a: Action) {
    && a.pid in s
    && match a
       case Exit(_) => true
       case Fork(_, child) => child !in s
       case CloseLibrary(_) => true
       case PlainExec(_, _, _) => true
       case InterceptedExec(pid, call, _, _) => s[pid].client.Some? && WellFormed(call)
       case InterceptedSpawn(pid, child, call, _, _, _) => s[pid].client.Some? && WellFormed(call) && child !in s
  }

  function Put(s: State, pid: nat, p: Option<Process>): State {
    if p.Some? then s[pid := p.value] else s - {pid}
  }

  /** A panic is a death: `Exit` may happen at any time, also inside a call. */
  function Step(s: State, a: Action, library: Bytes): State
    requires Enabled(s, a)
  {
    match a
    case Exit(pid) => Put(s, pid, None)
    case Fork(pid, child) => Put(s, child, Some(s[pid]))
    case CloseLibrary(pid) => Put(s, pid, Some(s[pid].(libraryOpen := false)))
    case PlainExec(pid, environ, image) =>
      Put(s, pid, Load(environ, image, s[pid].filter, s[pid].libraryOpen, library))
    case InterceptedExec(pid, call, install, runs) => Put(s, pid, AfterExec(s[pid], call, install, runs, library))
    case InterceptedSpawn(pid, child, call, install, runs, closes) =>
      Put(s, child, AfterSpawn(s[pid], call, install, runs, closes, library))
  }

  /** The environment map the root is spawned from can be laid out as C strings. */
  predicate Printable(envs: EnvMap) {
    forall name :: name in envs ==> 0 !in name && EQUALS !in name && 0 !in envs[name]
  }

  /** The root process, as `spawn` leaves it: its environment is the one the map was turned into, walked
      in some order; the library's descriptor is inherited; a static root has the filter installed before it
      runs. */
  ghost predicate IsRoot(p: Process, envs: EnvMap, order: seq<Bytes>, image: Image, encoded: EncodedPayload) {
    var launch := LaunchEnv(envs, image.loader.Some?, ReserveOf(encoded));
    && Printable(envs)
    && Walks(order, launch)
    && Load(PrintEntries(Walked(order, launch)), image, if image.loader.Some? then NoFilter else Supervised, true,
            encoded.payload.preloadPath) == Some(p)
  }

  /** A run: states joined by steps, from a tree that is only its root. */
  ghost predicate IsRun(states: seq<State>, actions: seq<Action>, library: Bytes) {
    && |states| == |actions| + 1
    && forall i :: 0 <= i < |actions| ==>
         Enabled(states[i], actions[i]) && states[i + 1] == Step(states[i], actions[i], library)
  }

  // ---------------------------------------------------------------------------------------------
  // What the loader makes of an injected environment
  // ---------------------------------------------------------------------------------------------

  lemma {:induction false} LastIsFirst(envs: seq<Entry>, name: Bytes)
    requires CountValued(envs, name) <= 1
    ensures LastValued(envs, name) == FirstValued(envs, name)
  {
    if envs != [] {
      CountedIsFirst(envs[1..], name);
      LastIsFirst(envs[1..], name);
    }
  }

  lemma {:induction false} LastValuedAppend(envs: seq<Entry>, e: Entry, name: Bytes)
    ensures LastValued(envs + [e], name) == if e.0 == name && e.1.Some? then e.1 else LastValued(envs, name)
  {
    if envs == [] {
      assert envs + [e] == [e] && [e][1..] == [];
    } else {
      assert (envs + [e])[1..] == envs[1..] + [e];
      LastValuedAppend(envs[1..], e, name);
    }
  }

  lemma {:induction false} SomeLastSomeFirst(envs: seq<Entry>, name: Bytes)
    ensures LastValued(envs, name).Some? <==> FirstValued(envs, name).Some?
  {
    if envs != [] {
      SomeLastSomeFirst(envs[1..], name);
    }
  }

  /** A later entry hides the right value of LD_PRELOAD from a loader that takes the last one, though
      not from the check. */
  predicate Shadowed(envs: seq<Entry>, library: Bytes) {
    FirstValued(envs, LD_PRELOAD()) == Some(library) && LastValued(envs, LD_PRELOAD()) != Some(library)
  }

  /** After a successful injection the loader loads the library, except exactly when it takes the last
      entry and the environment was shadowed to begin with. */
  lemma LoaderAgreesExactly(envs: seq<Entry>, r: Reserve, loader: Loader)
    requires Compatible(envs, r)
    ensures LoaderValue(Inject(envs, r).1, LD_PRELOAD(), loader) == Some(r.preloadPath)
       <==> !(loader.LastWins? && Shadowed(envs, r.preloadPath))
  {
    hide FirstValued, LastValued, LD_PRELOAD, PAYLOAD_ENV_NAME;
    ReservedNamesDiffer();
    InjectFacts(envs, r);
    SomeLastSomeFirst(envs, LD_PRELOAD());
    var preload: Entry := (LD_PRELOAD(), Some(r.preloadPath));
    var payload: Entry := (PAYLOAD_ENV_NAME(), Some(r.payloadText));
    LastValuedAppend(envs, preload, LD_PRELOAD());
    InjectedNames(envs, r);
    var envs1 := Ensured(envs, LD_PRELOAD(), r.preloadPath).value;
    LastValuedAppend(envs1, payload, LD_PRELOAD());
  }

  lemma InjectedNames(envs: seq<Entry>, r: Reserve)
    requires Compatible(envs, r)
    ensures Ensured(envs, LD_PRELOAD(), r.preloadPath).Ok?
    ensures var envs1 := Ensured(envs, LD_PRELOAD(), r.preloadPath).value;
      && Ensured(envs1, PAYLOAD_ENV_NAME(), r.payloadText).Ok?
      && Inject(envs, r).1 == Ensured(envs1, PAYLOAD_ENV_NAME(), r.payloadText).value
  {
    hide FirstValued, LD_PRELOAD, PAYLOAD_ENV_NAME;
    ReservedNamesDiffer();
    EnsuredFactsAt(envs, LD_PRELOAD(), r.preloadPath, PAYLOAD_ENV_NAME());
  }

  lemma UnambiguousIsNotShadowed(envs: seq<Entry>, library: Bytes)
    requires Unambiguous(envs)
    ensures !Shadowed(envs, library)
  {
    LastIsFirst(envs, LD_PRELOAD());
  }

  /** An environment that passes the check and still loses the library. */
  lemma ShadowedExample(library: Bytes)
    requires library != []
    ensures var envs: seq<Entry> := [(LD_PRELOAD(), Some(library)), (LD_PRELOAD(), Some([]))];
      Shadowed(envs, library) && forall text :: Compatible(envs, Reserve(library, text))
  {
    ReservedNamesDiffer();
    var envs: seq<Entry> := [(LD_PRELOAD(), Some(library)), (LD_PRELOAD(), Some([]))];
    hide LD_PRELOAD, PAYLOAD_ENV_NAME;
    assert envs[1..] == [envs[1]] && envs[1..][1..] == [];
    assert LastValued(envs[1..], LD_PRELOAD()) == Some([]);
    assert FirstValued(envs[1..], PAYLOAD_ENV_NAME()) == None;
  }

  // ---------------------------------------------------------------------------------------------
  // Through the C block
  // ---------------------------------------------------------------------------------------------

  /** The entry survives as a C string. */
  predicate Survives(e: Entry) {
    0 !in PrintEntry(e) && EQUALS !in e.0
  }

  predicate AllSurvive(envs: seq<Entry>) {
    forall i :: 0 <= i < |envs| ==> Survives(envs[i])
  }

  lemma HandedOverEnv(c: Command)
    requires AllSurvive(c.envs)
    ensures HandedOver(c) == PrintEntries(c.envs) && ParseEntries(HandedOver(c)) == c.envs
  {
    LaidOut(c);
    hide RawOf, ReadStrings, UpToNul, ParseEntry, PrintEntry;
    var block := HandedOver(c);
    forall i | 0 <= i < |c.envs|
      ensures UpToNul(PrintEntry(c.envs[i])) == PrintEntry(c.envs[i])
      ensures ParseEntry(PrintEntry(c.envs[i])) == c.envs[i]
    {
      assert Survives(c.envs[i]);
      UpToNulIsWhole(PrintEntry(c.envs[i]));
      ParsePrinted(c.envs[i]);
    }
  }

  /** What was read from C strings survives as C strings. */
  lemma ReadEntriesSurvive(call: Call)
    requires WellFormed(call)
    ensures AllSurvive(CalledWith(call).envs)
  {
    hide CStr, CStrings, ParseEntry, PrintEntry;
    var strings := ReadStrings(call.memory, call.raw).value.envp;
    ArrayHasNoNul(call.memory, call.raw.envp);
    forall i | 0 <= i < |strings|
      ensures Survives(ParseEntry(strings[i]))
    {
      PrintParsed(strings[i]);
    }
  }

  lemma ReservedSurvive(encoded: EncodedPayload)
    requires Encodes(encoded)
    ensures Survives((LD_PRELOAD(), Some(encoded.payload.preloadPath)))
    ensures Survives((PAYLOAD_ENV_NAME(), Some(encoded.encodedString)))
  {
    PayloadTextHasNoNul(encoded.payload);
    hide EncodePayload;
    NamesArePlain();
  }

  lemma NamesArePlain()
    ensures 0 !in LD_PRELOAD() && EQUALS !in LD_PRELOAD()
    ensures 0 !in PAYLOAD_ENV_NAME() && EQUALS !in PAYLOAD_ENV_NAME()
  {
  }

  lemma {:induction false} StripSurvives(envs: seq<Entry>)
    requires AllSurvive(envs)
    ensures AllSurvive(UserEnv(envs))
  {
    hide Survives, Reserved;
    if envs != [] {
      StripSurvives(envs[1..]);
    }
  }

  /** Whatever is run has an environment that survives. */
  lemma EquippedSurvives(c: Command, dynamic: bool, encoded: EncodedPayload)
    requires AllSurvive(c.envs) && Encodes(encoded) && Equipped(c, dynamic, encoded).Done?
    ensures AllSurvive(Equipped(c, dynamic, encoded).value.command.envs)
  {
    hide Survives, UserEnv, FirstValued, LD_PRELOAD, PAYLOAD_ENV_NAME, Encodes;
    ReservedSurvive(encoded);
    StripSurvives(c.envs);
  }
}
