/** The properties of whole runs of a process tree. */
module TrackingRuns {
  import opened Common
  import opened Envs
  import opened Payloads
  import opened Execs
  import opened PathSearch
  import Shebangs
  import opened Spawns
  import opened Commands
  import opened RawExecs
  import opened Tracking

  // ---------------------------------------------------------------------------------------------
  // One intercepted call
  // ---------------------------------------------------------------------------------------------

  /** Resolving leaves the environment alone, so a call that succeeds equips the caller's. */
  lemma SuccessIsEquipped(world: World, config: SearchConfig, c: Command, encoded: EncodedPayload)
    returns (resolved: Command)
    ensures var r := HandleResult(world, config, c, encoded);
      r.Done? ==>
        resolved.envs == c.envs && Equipped(resolved, Linked(world, r.value.command.program).Some?, encoded) == r
  {
    hide Searched, Recorded, RecordedAll, Inject, Strip;
    resolved := c;
    if HandleResult(world, config, c, encoded).Done? {
      resolved := Resolved(world, config, c).0.value;
      EquippedKeeps(world, resolved, encoded);
    }
  }

  lemma DecodesToItself(encoded: EncodedPayload)
    requires Encodes(encoded)
    ensures DecodePayload(encoded.encodedString) == Decoded(encoded)
  {
    hide EncodePayload, DecodePayload;
    PayloadHandoff(encoded.payload);
  }

  lemma EquippedStaysUnambiguous(c: Command, dynamic: bool, encoded: EncodedPayload)
    requires Unambiguous(c.envs) && Equipped(c, dynamic, encoded).Done?
    ensures Unambiguous(Equipped(c, dynamic, encoded).value.command.envs)
  {
    hide UserEnv, FirstValued, CountValued, LD_PRELOAD, PAYLOAD_ENV_NAME;
    InjectStaysUnambiguous(c.envs, ReserveOf(encoded));
    StripFacts(c.envs, LD_PRELOAD());
    StripFacts(c.envs, PAYLOAD_ENV_NAME());
  }

  /** The image comes without the library: it is static, the loader cannot read the library, or it takes the
      last LD_PRELOAD and the right one is shadowed. */
  predicate Unread(envs: seq<Entry>, image: Image, open: bool, library: Bytes) {
    !CanRead(image, open) || (image.loader.value.LastWins? && Shadowed(envs, library))
  }

  /** What becomes of a command that is run, for a caller whose environment was `envs`: the user entries
      are kept, the C block brings the entries over, and a dynamic program finds library and payload again
      unless the library is unread. */
  ghost predicate LoadsAs(
    envs: seq<Entry>, h: Handled, image: Image, encoded: EncodedPayload, filter: FilterState, open: bool)
  {
    var environ := HandedOver(h.command);
    var library := encoded.payload.preloadPath;
    && ParseEntries(environ) == h.command.envs
    && UserEnv(h.command.envs) == UserEnv(envs)
    && Compatible(h.command.envs, ReserveOf(encoded))
    && (Unambiguous(envs) ==> Unambiguous(h.command.envs))
    && (image.loader.Some? <==> h.preExec.None?)
    && Load(environ, image, filter, open, library)
       == Some(Process(environ, if Unread(envs, image, open, library) then None else Some(encoded), filter, open))
  }

  lemma LoadedImage(
    environ: seq<Bytes>, c: Command, h: Handled, image: Image, encoded: EncodedPayload, filter: FilterState, open: bool)
    requires Encodes(encoded) && ParseEntries(environ) == h.command.envs
    requires Equipped(c, image.loader.Some?, encoded) == Done(h)
    ensures var library := encoded.payload.preloadPath;
      Load(environ, image, filter, open, library)
      == Some(Process(environ, if Unread(c.envs, image, open, library) then None else Some(encoded), filter, open))
  {
    hide FirstValued, LastValued, UserEnv, LD_PRELOAD, PAYLOAD_ENV_NAME, DecodePayload, Encodes, Shadowed, CountValued;
    EnvironmentOfRun(c, image.loader.Some?, encoded);
    if image.loader.Some? {
      DecodesToItself(encoded);
      LoaderAgreesExactly(c.envs, ReserveOf(encoded), image.loader.value);
    }
  }

  /** The image that a successful call of a client with payload `encoded` loads. A dynamic program gets
      the same payload again unless its loader does not read the library; a static one gets the filter. */
  lemma FreshImage(call: Call, encoded: EncodedPayload, filter: FilterState, open: bool)
    requires Encodes(encoded) && WellFormed(call)
    ensures var r := HandleResult(call.world, call.config, CalledWith(call), encoded);
      r.Done? ==>
        LoadsAs(CalledWith(call).envs, r.value, ImageOf(call.world, r.value.command.program), encoded, filter, open)
  {
    var c := CalledWith(call);
    var r := HandleResult(call.world, call.config, c, encoded);
    var resolved := SuccessIsEquipped(call.world, call.config, c, encoded);
    hide HandleResult, Linked, FirstValued, LastValued, UserEnv, LD_PRELOAD, PAYLOAD_ENV_NAME, HandedOver,
      DecodePayload, Load, Encodes, CalledWith, AllSurvive, Shadowed, CountValued, Unread;
    if r.Done? {
      var h := r.value;
      var image := ImageOf(call.world, h.command.program);
      var dynamic := image.loader.Some?;
      EnvironmentOfRun(resolved, dynamic, encoded);
      ReadEntriesSurvive(call);
      EquippedSurvives(resolved, dynamic, encoded);
      HandedOverEnv(h.command);
      if Unambiguous(c.envs) {
        EquippedStaysUnambiguous(resolved, dynamic, encoded);
      }
      LoadedImage(HandedOver(h.command), resolved, h, image, encoded, filter, open);
    }
  }

  /** What a caller can see of a call that runs a dynamic program without the library: the call gets that
      far, and the library's descriptor is gone, the program runs in secure mode, or its loader takes the last
      LD_PRELOAD and the right one, found first, is shadowed. */
  predicate RunsUntracked(call: Call, open: bool, encoded: EncodedPayload)
    requires WellFormed(call)
  {
    var c := CalledWith(call);
    && Reaches(call.world, call.config, c)
    && ReachesDynamic(call.world, call.config, c)
    && Compatible(c.envs, ReserveOf(encoded))
    && Unread(c.envs, ImageOf(call.world, Resolved(call.world, call.config, c).0.value.program), open,
              encoded.payload.preloadPath)
  }

  /** An intercepted exec of a process with the right client leaves it untracked exactly when it runs such a
      call without a filter. */
  lemma TrackingLostExactly(p: Process, call: Call, install: Install, runs: bool, encoded: EncodedPayload)
    requires Encodes(encoded) && WellFormed(call) && p.client == Some(encoded)
    ensures var q := AfterExec(p, call, install, runs, encoded.payload.preloadPath);
      q.Some? && !Tracked(q.value, encoded)
      <==> runs && !p.filter.Supervised? && RunsUntracked(call, p.libraryOpen, encoded)
  {
    hide HandleResult, HandedOver, Load, Unread, CalledWith, Encodes, UserEnv, Compatible, ParseEntries, Reaches,
      Resolved, ReachesDynamic;
    var c := CalledWith(call);
    var r := HandleResult(call.world, call.config, c, encoded);
    DoneExactly(call.world, call.config, c, encoded);
    if Reaches(call.world, call.config, c) {
      ReachesLinked(call.world, call.config, c);
    }
    if r.Done? {
      FreshImage(call, encoded, FilterAfter(p.filter, r.value, install).1, p.libraryOpen);
      StaticIsUnread(CalledWith(call).envs, ImageOf(call.world, r.value.command.program), p.libraryOpen,
                     encoded.payload.preloadPath);
    }
  }

  /** So does an intercepted spawn with its child. */
  lemma SpawnLostExactly(p: Process, call: Call, install: Install, runs: bool, closes: bool, encoded: EncodedPayload)
    requires Encodes(encoded) && WellFormed(call) && p.client == Some(encoded)
    ensures var q := AfterSpawn(p, call, install, runs, closes, encoded.payload.preloadPath);
      q.Some? && !Tracked(q.value, encoded)
      <==> runs && !p.filter.Supervised? && RunsUntracked(call, p.libraryOpen && !closes, encoded)
  {
    hide HandleResult, HandedOver, Load, Unread, CalledWith, Encodes, UserEnv, Compatible, ParseEntries, Reaches,
      Resolved, ReachesDynamic;
    var c := CalledWith(call);
    var r := HandleResult(call.world, call.config, c, encoded);
    DoneExactly(call.world, call.config, c, encoded);
    if Reaches(call.world, call.config, c) {
      ReachesLinked(call.world, call.config, c);
    }
    if r.Done? {
      FreshImage(call, encoded, FilterAfter(p.filter, r.value, install).1, p.libraryOpen && !closes);
      StaticIsUnread(CalledWith(call).envs, ImageOf(call.world, r.value.command.program), p.libraryOpen && !closes,
                     encoded.payload.preloadPath);
    }
  }

  lemma StaticIsUnread(envs: seq<Entry>, image: Image, open: bool, library: Bytes)
    ensures image.loader.None? ==> Unread(envs, image, open, library)
  {
    hide Shadowed;
  }

  lemma ReachesLinked(world: World, config: SearchConfig, c: Command)
    requires Reaches(world, config, c)
    ensures Resolved(world, config, c).0.Done?
    ensures ReachesDynamic(world, config, c)
       <==> ImageOf(world, Resolved(world, config, c).0.value.program).loader.Some?
  {
    hide Resolved, Accesses, Seen;
  }

  // ---------------------------------------------------------------------------------------------
  // Calls that lose tracking
  // ---------------------------------------------------------------------------------------------

  /** A world in which every file is a dynamic program that asks for glibc's loader. */
  function DynamicWorld(secure: bool): World {
    World(None, (_, _) => None, _ => Ok([]), _ => Shebangs.Transfers(1), _ => None, _ => Ok(true), _ => LastWins,
          _ => secure, true, _ => None)
  }

  lemma PlainProgramReaches(c: Command, secure: bool)
    requires c.program == [SLASH, 97]
    ensures Reaches(DynamicWorld(secure), None, c) && ReachesDynamic(DynamicWorld(secure), None, c)
    ensures Resolved(DynamicWorld(secure), None, c).0 == Done(c)
    ensures ImageOf(DynamicWorld(secure), c.program) == Image(Some(LastWins), secure)
  {
  }

  /** The C block of `/a` with that environment. */
  function CallOf(envs: seq<Entry>, secure: bool): Call {
    var (memory, raw) := RawOf(Command([SLASH, 97], [[97]], envs));
    Call(memory, raw, DynamicWorld(secure), None)
  }

  lemma CallOfReads(envs: seq<Entry>, secure: bool)
    requires AllSurvive(envs)
    ensures WellFormed(CallOf(envs, secure)) && CalledWith(CallOf(envs, secure)) == Command([SLASH, 97], [[97]], envs)
  {
    hide RawOf, ReadStrings;
    var c := Command([SLASH, 97], [[97]], envs);
    assert forall i :: 0 <= i < |envs| ==> Survives(envs[i]);
    CommandRoundTrip(c);
  }

  /** Such a call loses an unfiltered process when its library is unread. */
  lemma UnreadCall(envs: seq<Entry>, secure: bool, open: bool, encoded: EncodedPayload)
    requires Encodes(encoded) && AllSurvive(envs) && Compatible(envs, ReserveOf(encoded))
    requires Unread(envs, Image(Some(LastWins), secure), open, encoded.payload.preloadPath)
    ensures var call, library := CallOf(envs, secure), encoded.payload.preloadPath;
      && WellFormed(call)
      && var q := AfterExec(Process([], Some(encoded), NoFilter, open), call, Installed, true, library);
      && q.Some? && !Tracked(q.value, encoded)
  {
    hide AfterExec, Encodes, Tracked, Compatible, Unread, CallOf, AllSurvive;
    CallOfReads(envs, secure);
    PlainProgramReaches(Command([SLASH, 97], [[97]], envs), secure);
    CallWorld(envs, secure);
    TrackingLostExactly(Process([], Some(encoded), NoFilter, open), CallOf(envs, secure), Installed, true, encoded);
  }

  lemma CallWorld(envs: seq<Entry>, secure: bool)
    ensures CallOf(envs, secure).world == DynamicWorld(secure) && CallOf(envs, secure).config == None
  {
  }

  /** Two LD_PRELOAD entries, the right one first. */
  lemma ShadowedCall(encoded: EncodedPayload)
    requires Encodes(encoded) && encoded.payload.preloadPath != []
    ensures var library := encoded.payload.preloadPath;
      var call := CallOf([(LD_PRELOAD(), Some(library)), (LD_PRELOAD(), Some([]))], false);
      && WellFormed(call)
      && var q := AfterExec(Process([], Some(encoded), NoFilter, true), call, Installed, true, library);
      && q.Some? && !Tracked(q.value, encoded)
  {
    var library := encoded.payload.preloadPath;
    var envs: seq<Entry> := [(LD_PRELOAD(), Some(library)), (LD_PRELOAD(), Some([]))];
    NamesArePlain();
    ShadowedExample(library);
    hide AfterExec, Tracked, LD_PRELOAD, CallOf, Shadowed, Compatible;
    assert AllSurvive(envs);
    UnreadCall(envs, false, true, encoded);
  }

  /** An empty environment, and the descriptor of the library closed. */
  lemma ClosedDescriptorCall(encoded: EncodedPayload)
    requires Encodes(encoded)
    ensures var call, library := CallOf([], false), encoded.payload.preloadPath;
      && WellFormed(call)
      && var q := AfterExec(Process([], Some(encoded), NoFilter, false), call, Installed, true, library);
      && q.Some? && !Tracked(q.value, encoded)
  {
    hide AfterExec, Tracked, CallOf;
    UnreadCall([], false, false, encoded);
  }

  /** An empty environment, and a set-user-ID program. */
  lemma SecureCall(encoded: EncodedPayload)
    requires Encodes(encoded)
    ensures var call, library := CallOf([], true), encoded.payload.preloadPath;
      && WellFormed(call)
      && var q := AfterExec(Process([], Some(encoded), NoFilter, true), call, Installed, true, library);
      && q.Some? && !Tracked(q.value, encoded)
  {
    hide AfterExec, Tracked, CallOf;
    UnreadCall([], true, true, encoded);
  }

  // ---------------------------------------------------------------------------------------------
  // All runs
  // ---------------------------------------------------------------------------------------------

  predicate AllTracked(s: State, encoded: EncodedPayload) {
    forall pid :: pid in s ==> Tracked(s[pid], encoded)
  }

  /** The process is tracked by its client alone. */
  predicate ByClient(p: Process, encoded: EncodedPayload) {
    p.client == Some(encoded) && !p.filter.Supervised?
  }

  /** The step leaves a process untracked: one that is tracked by its client alone runs an intercepted call
      whose program does not read the library, or executes without `handle_exec` a program that does not come
      up as a client again. */
  predicate Loses(s: State, a: Action, encoded: EncodedPayload)
    requires Enabled(s, a)
  {
    && ByClient(s[a.pid], encoded)
    && match a
       case PlainExec(pid, environ, image) =>
         var q := Load(environ, image, s[pid].filter, s[pid].libraryOpen, encoded.payload.preloadPath);
         q.Some? && q.value.client != Some(encoded)
       case InterceptedExec(pid, call, _, runs) => runs && RunsUntracked(call, s[pid].libraryOpen, encoded)
       case InterceptedSpawn(pid, _, call, _, runs, closes) =>
         runs && RunsUntracked(call, s[pid].libraryOpen && !closes, encoded)
       case _ => false
  }

  lemma SupervisedStays(p: Process, call: Call, install: Install, runs: bool, closes: bool, library: Bytes)
    requires WellFormed(call) && p.client.Some? && p.filter.Supervised?
    ensures var q := AfterExec(p, call, install, runs, library); q.Some? ==> q.value.filter.Supervised?
    ensures var q := AfterSpawn(p, call, install, runs, closes, library); q.Some? ==> q.value.filter.Supervised?
  {
    hide HandleResult, CalledWith, HandedOver, ImageOf, ParseEntries, FirstValued, LoaderValue, DecodePayload;
  }

  /** A step keeps every process tracked exactly when it does not lose one. */
  lemma StepTrackedExactly(s: State, a: Action, encoded: EncodedPayload)
    requires Encodes(encoded) && AllTracked(s, encoded) && Enabled(s, a)
    ensures AllTracked(Step(s, a, encoded.payload.preloadPath), encoded) <==> !Loses(s, a, encoded)
  {
    hide AfterExec, AfterSpawn, Encodes, ParseEntries, FirstValued, LoaderValue, DecodePayload, WellFormed,
      RunsUntracked;
    var library := encoded.payload.preloadPath;
    assert Tracked(s[a.pid], encoded);
    var s' := Step(s, a, library);
    match a
    case InterceptedExec(pid, call, install, runs) =>
      if s[pid].filter.Supervised? {
        SupervisedStays(s[pid], call, install, runs, false, library);
      } else {
        TrackingLostExactly(s[pid], call, install, runs, encoded);
        assert Loses(s, a, encoded) ==> pid in s' && !Tracked(s'[pid], encoded);
      }
    case InterceptedSpawn(pid, child, call, install, runs, closes) =>
      if s[pid].filter.Supervised? {
        SupervisedStays(s[pid], call, install, runs, closes, library);
      } else {
        SpawnLostExactly(s[pid], call, install, runs, closes, encoded);
        assert Loses(s, a, encoded) ==> child in s' && !Tracked(s'[child], encoded);
      }
    case PlainExec(pid, _, _) =>
      assert Loses(s, a, encoded) ==> pid in s' && !Tracked(s'[pid], encoded);
    case _ =>
  }

  lemma {:induction false} RunStaysTracked(states: seq<State>, actions: seq<Action>, encoded: EncodedPayload, k: nat)
    requires Encodes(encoded) && IsRun(states, actions, encoded.payload.preloadPath)
    requires AllTracked(states[0], encoded) && k < |states|
    requires forall i :: 0 <= i < k ==> !Loses(states[i], actions[i], encoded)
    ensures AllTracked(states[k], encoded)
  {
    hide AllTracked, Enabled, Loses, Step, Encodes;
    if k > 0 {
      RunStaysTracked(states, actions, encoded, k - 1);
      StepTrackedExactly(states[k - 1], actions[k - 1], encoded);
    }
  }

  // ---------------------------------------------------------------------------------------------
  // The root
  // ---------------------------------------------------------------------------------------------

  /** What holds of a process whose environment came down from the root unchanged but for the
      reserved names. */
  predicate Faithful(p: Process, user: seq<Entry>, encoded: EncodedPayload) {
    var envs := ParseEntries(p.environ);
    && UserEnv(envs) == user
    && Compatible(envs, ReserveOf(encoded))
    && Unambiguous(envs)
    && (p.client.Some? ==> p.client == Some(encoded))
  }

  predicate AllFaithful(s: State, user: seq<Entry>, encoded: EncodedPayload) {
    forall pid :: pid in s ==> Faithful(s[pid], user, encoded)
  }

  lemma WalkedIsReadBack(order: seq<Bytes>, envs: EnvMap)
    requires Printable(envs) && Walks(order, envs)
    ensures ParseEntries(PrintEntries(Walked(order, envs))) == Walked(order, envs)
  {
    hide ParseEntry, PrintEntry;
    var entries := Walked(order, envs);
    forall i | 0 <= i < |entries|
      ensures ParseEntry(PrintEntry(entries[i])) == entries[i]
    {
      assert order[i] in order;
      ParsePrinted(entries[i]);
    }
  }

  lemma LaunchIsPrintable(envs: EnvMap, dynamic: bool, encoded: EncodedPayload)
    requires Printable(envs) && Encodes(encoded)
    ensures Printable(LaunchEnv(envs, dynamic, ReserveOf(encoded)))
  {
    hide LD_PRELOAD, PAYLOAD_ENV_NAME, Reserved, EncodePayload;
    NamesArePlain();
    PayloadTextHasNoNul(encoded.payload);
  }

  lemma LaunchHasReserved(envs: EnvMap, dynamic: bool, r: Reserve)
    ensures var launch := LaunchEnv(envs, dynamic, r);
      && (dynamic ==> LD_PRELOAD() in launch && launch[LD_PRELOAD()] == r.preloadPath)
      && (dynamic ==> PAYLOAD_ENV_NAME() in launch && launch[PAYLOAD_ENV_NAME()] == r.payloadText)
      && (!dynamic ==> LD_PRELOAD() !in launch && PAYLOAD_ENV_NAME() !in launch)
      && Unreserved(launch) == Unreserved(envs)
  {
    ReservedNamesDiffer();
    hide LD_PRELOAD, PAYLOAD_ENV_NAME;
  }

  /** The root is tracked, unless it is a dynamic program that runs in secure mode, and its user entries are
      the map's. */
  lemma RootIsFaithful(p: Process, envs: EnvMap, order: seq<Bytes>, image: Image, encoded: EncodedPayload)
    requires Encodes(encoded) && IsRoot(p, envs, order, image, encoded)
    ensures Faithful(p, UserEnv(ParseEntries(p.environ)), encoded)
    ensures Collected(UserEnv(ParseEntries(p.environ))) == Unreserved(envs)
    ensures Tracked(p, encoded) <==> !(image.loader.Some? && image.secure)
  {
    hide UserEnv, Collected, FirstValued, LastValued, CountValued, LaunchEnv, LD_PRELOAD, PAYLOAD_ENV_NAME,
      DecodePayload, Encodes, Unreserved, Walks, Printable;
    var r := ReserveOf(encoded);
    var launch := LaunchEnv(envs, image.loader.Some?, r);
    LaunchIsPrintable(envs, image.loader.Some?, encoded);
    WalkedIsReadBack(order, launch);
    LaunchHasReserved(envs, image.loader.Some?, r);
    WalkedReserved(order, launch);
    DecodesToItself(encoded);
    var entries := Walked(order, launch);
    LastIsFirst(entries, LD_PRELOAD());
    CollectUserEnv(entries);
    CollectWalked(order, launch);
  }

  function ValueIn(envs: EnvMap, name: Bytes): Option<Bytes> {
    if name in envs then Some(envs[name]) else None
  }

  lemma WalkedReserved(order: seq<Bytes>, envs: EnvMap)
    requires Walks(order, envs)
    ensures forall i :: 0 <= i < |order| ==> order[i] in envs
    ensures var entries := Walked(order, envs);
      && Unambiguous(entries)
      && FirstValued(entries, LD_PRELOAD()) == ValueIn(envs, LD_PRELOAD())
      && FirstValued(entries, PAYLOAD_ENV_NAME()) == ValueIn(envs, PAYLOAD_ENV_NAME())
  {
    hide FirstValued, CountValued, LD_PRELOAD, PAYLOAD_ENV_NAME;
    FirstOfWalked(order, envs, LD_PRELOAD());
    FirstOfWalked(order, envs, PAYLOAD_ENV_NAME());
    CountOfWalked(order, envs, LD_PRELOAD());
    CountOfWalked(order, envs, PAYLOAD_ENV_NAME());
  }

  /** A run that starts from the root alone. */
  ghost predicate FromRoot(
    states: seq<State>, actions: seq<Action>, root: nat, envs: EnvMap, order: seq<Bytes>, image: Image,
    encoded: EncodedPayload)
  {
    && IsRun(states, actions, encoded.payload.preloadPath)
    && root in states[0] && states[0].Keys == {root}
    && IsRoot(states[0][root], envs, order, image, encoded)
  }

  lemma RootTracked(
    states: seq<State>, actions: seq<Action>, root: nat, envs: EnvMap, order: seq<Bytes>, image: Image,
    encoded: EncodedPayload)
    requires Encodes(encoded) && FromRoot(states, actions, root, envs, order, image, encoded)
    ensures AllTracked(states[0], encoded) <==> !(image.loader.Some? && image.secure)
  {
    hide Enabled, Step, IsRoot, UserEnv, Encodes, Compatible, Unambiguous, Collected, ParseEntries;
    RootIsFaithful(states[0][root], envs, order, image, encoded);
  }

  /** Every process of a run is tracked in every state exactly when the root is no dynamic program in secure
      mode and no step loses a process. */
  lemma TrackedExactly(
    states: seq<State>, actions: seq<Action>, root: nat, envs: EnvMap, order: seq<Bytes>, image: Image,
    encoded: EncodedPayload)
    requires Encodes(encoded) && FromRoot(states, actions, root, envs, order, image, encoded)
    ensures (forall k :: 0 <= k < |states| ==> AllTracked(states[k], encoded))
       <==> !(image.loader.Some? && image.secure)
            && forall i :: 0 <= i < |actions| ==> !Loses(states[i], actions[i], encoded)
  {
    hide IsRoot, Encodes, AllTracked, Enabled, Loses, Step;
    RootTracked(states, actions, root, envs, order, image, encoded);
    if forall k :: 0 <= k < |states| ==> AllTracked(states[k], encoded) {
      forall i | 0 <= i < |actions|
        ensures !Loses(states[i], actions[i], encoded)
      {
        StepTrackedExactly(states[i], actions[i], encoded);
        assert AllTracked(states[i + 1], encoded);
      }
    } else if !(image.loader.Some? && image.secure)
              && forall i :: 0 <= i < |actions| ==> !Loses(states[i], actions[i], encoded) {
      forall k | 0 <= k < |states|
        ensures AllTracked(states[k], encoded)
      {
        RunStaysTracked(states, actions, encoded, k);
      }
    }
  }

  /** What a careful process keeps to: it leaves the library's descriptor alone, hands over no shadowed
      environment, runs no program in secure mode and does not get around `handle_exec`. */
  predicate Careful(s: State, a: Action, encoded: EncodedPayload)
    requires Enabled(s, a)
  {
    ByClient(s[a.pid], encoded) ==>
      match a
      case PlainExec(_, _, _) => false
      case InterceptedExec(pid, call, _, _) => CarefulCall(call, s[pid].libraryOpen, encoded)
      case InterceptedSpawn(pid, _, call, _, _, closes) => CarefulCall(call, s[pid].libraryOpen && !closes, encoded)
      case _ => true
  }

  predicate CarefulCall(call: Call, open: bool, encoded: EncodedPayload)
    requires WellFormed(call)
  {
    && open
    && !Shadowed(CalledWith(call).envs, encoded.payload.preloadPath)
    && var resolved := Resolved(call.world, call.config, CalledWith(call)).0;
       resolved.Done? ==> !call.world.secure(resolved.value.program)
  }

  lemma CarefulCallReads(call: Call, open: bool, encoded: EncodedPayload)
    requires WellFormed(call) && CarefulCall(call, open, encoded)
    ensures !RunsUntracked(call, open, encoded)
  {
    hide Resolved, Shadowed, Compatible, Accesses, Seen, CalledWith;
  }

  lemma CarefulLosesNothing(s: State, a: Action, encoded: EncodedPayload)
    requires Enabled(s, a) && Careful(s, a, encoded)
    ensures !Loses(s, a, encoded)
  {
    hide RunsUntracked, CarefulCall, Load;
    if ByClient(s[a.pid], encoded) {
      match a
      case InterceptedExec(pid, call, _, _) => CarefulCallReads(call, s[pid].libraryOpen, encoded);
      case InterceptedSpawn(pid, _, call, _, _, closes) =>
        CarefulCallReads(call, s[pid].libraryOpen && !closes, encoded);
      case _ =>
    }
  }

  /** Tracking is never lost, whatever environments processes make up for their children, as long as they are
      careful otherwise. */
  lemma TrackingIsNeverLost(
    states: seq<State>, actions: seq<Action>, root: nat, envs: EnvMap, order: seq<Bytes>, image: Image,
    encoded: EncodedPayload, k: nat)
    requires Encodes(encoded) && FromRoot(states, actions, root, envs, order, image, encoded)
    requires image.loader.Some? ==> !image.secure
    requires forall i :: 0 <= i < |actions| ==> Careful(states[i], actions[i], encoded)
    requires k < |states|
    ensures AllTracked(states[k], encoded)
  {
    hide IsRoot, Careful, Encodes, AllTracked, Enabled, Loses, Step;
    forall i | 0 <= i < |actions|
      ensures !Loses(states[i], actions[i], encoded)
    {
      CarefulLosesNothing(states[i], actions[i], encoded);
    }
    TrackedExactly(states, actions, root, envs, order, image, encoded);
  }

  // ---------------------------------------------------------------------------------------------
  // Runs in which every process passes its environment on
  // ---------------------------------------------------------------------------------------------

  predicate Inherits(s: State, a: Action)
    requires Enabled(s, a)
  {
    match a
    case PlainExec(pid, environ, _) => environ == s[pid].environ
    case InterceptedExec(pid, call, _, _) => ReadStrings(call.memory, call.raw).value.envp == s[pid].environ
    case InterceptedSpawn(pid, _, call, _, _, _) => ReadStrings(call.memory, call.raw).value.envp == s[pid].environ
    case _ => true
  }

  lemma ExecStaysFaithful(
    p: Process, call: Call, install: Install, runs: bool, closes: bool, user: seq<Entry>, encoded: EncodedPayload)
    requires Encodes(encoded) && WellFormed(call) && p.client.Some? && Faithful(p, user, encoded)
    requires ReadStrings(call.memory, call.raw).value.envp == p.environ
    ensures var q := AfterExec(p, call, install, runs, encoded.payload.preloadPath);
      q.Some? ==> Faithful(q.value, user, encoded)
    ensures var q := AfterSpawn(p, call, install, runs, closes, encoded.payload.preloadPath);
      q.Some? ==> Faithful(q.value, user, encoded)
  {
    hide HandleResult, HandedOver, ImageOf, Unread, Encodes, UserEnv, Compatible, Unambiguous, ParseEntries,
      Load, ReadStrings;
    var r := HandleResult(call.world, call.config, CalledWith(call), encoded);
    if r.Done? {
      FreshImage(call, encoded, FilterAfter(p.filter, r.value, install).1, p.libraryOpen);
      FreshImage(call, encoded, FilterAfter(p.filter, r.value, install).1, p.libraryOpen && !closes);
    }
  }

  lemma PlainStaysFaithful(p: Process, image: Image, user: seq<Entry>, encoded: EncodedPayload)
    requires Encodes(encoded) && Faithful(p, user, encoded)
    ensures var q := Load(p.environ, image, p.filter, p.libraryOpen, encoded.payload.preloadPath);
      q.Some? ==> Faithful(q.value, user, encoded)
  {
    hide Encodes, UserEnv, Unambiguous, ParseEntries, DecodePayload, FirstValued, LastValued, LD_PRELOAD,
      PAYLOAD_ENV_NAME;
    DecodesToItself(encoded);
  }

  lemma StepStaysFaithful(s: State, a: Action, user: seq<Entry>, encoded: EncodedPayload)
    requires Encodes(encoded) && AllFaithful(s, user, encoded)
    requires Enabled(s, a) && Inherits(s, a)
    ensures AllFaithful(Step(s, a, encoded.payload.preloadPath), user, encoded)
  {
    hide AfterExec, AfterSpawn, Load, Encodes, UserEnv, Compatible, Unambiguous, ParseEntries, WellFormed, ReadStrings;
    match a
    case PlainExec(pid, _, image) => PlainStaysFaithful(s[pid], image, user, encoded);
    case InterceptedExec(pid, call, install, runs) =>
      ExecStaysFaithful(s[pid], call, install, runs, false, user, encoded);
    case InterceptedSpawn(pid, _, call, install, runs, closes) =>
      ExecStaysFaithful(s[pid], call, install, runs, closes, user, encoded);
    case _ =>
  }

  lemma {:induction false} RunStaysFaithful(
    states: seq<State>, actions: seq<Action>, user: seq<Entry>, encoded: EncodedPayload, k: nat)
    requires Encodes(encoded) && IsRun(states, actions, encoded.payload.preloadPath)
    requires AllFaithful(states[0], user, encoded)
    requires forall i :: 0 <= i < |actions| ==> Inherits(states[i], actions[i])
    requires k < |states|
    ensures AllFaithful(states[k], user, encoded)
  {
    hide AllFaithful, Enabled, Inherits, Step, Encodes;
    if k > 0 {
      RunStaysFaithful(states, actions, user, encoded, k - 1);
      StepStaysFaithful(states[k - 1], actions[k - 1], user, encoded);
    }
  }

  /** When processes pass their environment on, every one of them has the user entries of the root in the
      root's order, injecting is never refused with EINVAL, and all are tracked up to the first step that loses
      one, which is none with a shadowed environment. */
  lemma UserEnvironmentIsKept(
    states: seq<State>, actions: seq<Action>, root: nat, envs: EnvMap, order: seq<Bytes>, image: Image,
    encoded: EncodedPayload, k: nat)
    requires Encodes(encoded) && FromRoot(states, actions, root, envs, order, image, encoded)
    requires forall i :: 0 <= i < |actions| ==> Inherits(states[i], actions[i])
    requires k < |states|
    ensures var user := UserEnv(ParseEntries(states[0][root].environ));
      && Collected(user) == Unreserved(envs)
      && forall pid :: pid in states[k] ==>
           && UserEnv(ParseEntries(states[k][pid].environ)) == user
           && !Shadowed(ParseEntries(states[k][pid].environ), encoded.payload.preloadPath)
           && forall c: Command, dynamic: bool ::
                c.envs == ParseEntries(states[k][pid].environ) ==> Equipped(c, dynamic, encoded).Done?
    ensures
      (image.loader.Some? ==> !image.secure) && (forall i :: 0 <= i < k ==> !Loses(states[i], actions[i], encoded)) ==>
      AllTracked(states[k], encoded)
  {
    hide Enabled, Step, Inherits, IsRoot, UserEnv, Encodes, Compatible, Unambiguous, Collected, ParseEntries, Tracked,
      Equipped, Unreserved, Loses, Shadowed;
    var user := UserEnv(ParseEntries(states[0][root].environ));
    RootIsFaithful(states[0][root], envs, order, image, encoded);
    RunStaysFaithful(states, actions, user, encoded, k);
    forall c: Command, dynamic: bool | Compatible(c.envs, ReserveOf(encoded))
      ensures Equipped(c, dynamic, encoded).Done?
    {
      EnvironmentOfRun(c, dynamic, encoded);
    }
    forall pid | pid in states[k]
      ensures !Shadowed(ParseEntries(states[k][pid].environ), encoded.payload.preloadPath)
    {
      UnambiguousIsNotShadowed(ParseEntries(states[k][pid].environ), encoded.payload.preloadPath);
    }
    if (image.loader.Some? ==> !image.secure) && (forall i :: 0 <= i < k ==> !Loses(states[i], actions[i], encoded)) {
      RunStaysTracked(states, actions, encoded, k);
    }
  }
}
