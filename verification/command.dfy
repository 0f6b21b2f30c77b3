/** `Command`: the builder the root process is spawned from. Its environment is a hash map, so it has no
    duplicate names and no order. */
module Commands {
  import opened Common
  import opened Envs
  import opened Payloads
  import opened Execs
  import opened Spawns

  type EnvMap = map<Bytes, Bytes>

  /** An order in which a hash map may be walked: every key once. */
  ghost predicate Walks(order: seq<Bytes>, envs: EnvMap) {
    && (forall i, j :: 0 <= i < j < |order| ==> order[i] != order[j])
    && (forall name :: name in order <==> name in envs)
  }

  /** The entries met when walking the map in that order. */
  function Walked(order: seq<Bytes>, envs: EnvMap): (entries: seq<Entry>)
    requires forall i :: 0 <= i < |order| ==> order[i] in envs
    ensures |entries| == |order|
    ensures forall i :: 0 <= i < |order| ==> entries[i] == (order[i], Some(envs[order[i]]))
  {
    seq(|order|, i requires 0 <= i < |order| => (order[i], Some(envs[order[i]])))
  }

  /** Collecting into a hash map: a later entry replaces an earlier one, a missing value is empty. */
  function Collected(entries: seq<Entry>): EnvMap {
    if entries == [] then map[]
    else
      var last := entries[|entries| - 1];
      Collected(entries[..|entries| - 1])[last.0 := if last.1.Some? then last.1.value else []]
  }

  class CommandBuilder {
    var program: Bytes
    var args: seq<Bytes>
    var envs: EnvMap
    var arg0: Option<Bytes>

    constructor (program: Bytes)
      ensures this.program == program && args == [] && envs == map[] && arg0 == None
    {
      this.program, args, envs, arg0 := program, [], map[], None;
    }

    /** `get_exec`, with the order in which the hash map happens to be walked. */
    method GetExec(order: seq<Bytes>) returns (c: Command)
      requires Walks(order, envs)
      ensures c.program == program
      ensures c.args == [if arg0.Some? then arg0.value else program] + args
      ensures c.envs == Walked(order, envs)
    {
      var first := if arg0.Some? then arg0.value else program;
      var entries: seq<Entry> := [];
      for i := 0 to |order|
        invariant |entries| == i
        invariant forall j :: 0 <= j < i ==> entries[j] == (order[j], Some(envs[order[j]]))
      {
        assert order[i] in order;
        entries := entries + [(order[i], Some(envs[order[i]]))];
      }
      c := Command(program, [first] + args, entries);
    }

    /** `set_exec`: panics on an empty argument list, having replaced the program. */
    method SetExec(c: Command) returns (r: Outcome<()>)
      modifies this
      ensures r == if c.args == [] then Panicked else Done(())
      ensures c.args != [] ==>
        && program == c.program && arg0 == Some(c.args[0]) && args == c.args[1..] && envs == Collected(c.envs)
    {
      program := c.program;
      if c.args == [] {
        return Panicked;
      }
      arg0 := Some(c.args[0]);
      args := c.args[1..];
      envs := map[];
      assert c.envs[..|c.envs|] == c.envs;
      for i := 0 to |c.envs|
        invariant program == c.program && arg0 == Some(c.args[0]) && args == c.args[1..]
        invariant envs == Collected(c.envs[..i])
      {
        assert c.envs[..i + 1][..i] == c.envs[..i];
        var (name, value) := c.envs[i];
        envs := envs[name := if value.Some? then value.value else []];
      }
      r := Done(());
    }
  }

  // ---------------------------------------------------------------------------------------------
  // Maps and entries
  // ---------------------------------------------------------------------------------------------

  lemma CollectedAppend(entries: seq<Entry>, name: Bytes, value: Bytes)
    ensures Collected(entries + [(name, Some(value))]) == Collected(entries)[name := value]
  {
    assert (entries + [(name, Some(value))])[..|entries|] == entries;
  }

  /** Walking a map in any order and collecting again gives the map. */
  lemma CollectWalked(order: seq<Bytes>, envs: EnvMap)
    requires Walks(order, envs)
    ensures Collected(Walked(order, envs)) == envs
  {
    CollectSome(order, envs);
  }

  lemma {:induction false} CollectSome(order: seq<Bytes>, envs: EnvMap)
    requires forall i :: 0 <= i < |order| ==> order[i] in envs
    ensures forall name :: name in Collected(Walked(order, envs)) <==> name in order
    ensures forall name :: name in order ==> Collected(Walked(order, envs))[name] == envs[name]
  {
    if order != [] {
      var init, last := order[..|order| - 1], order[|order| - 1];
      CollectSome(init, envs);
      assert order == init + [last];
      assert Walked(order, envs) == Walked(init, envs) + [(last, Some(envs[last]))];
      CollectedAppend(Walked(init, envs), last, envs[last]);
    }
  }

  /** In a walked map the first valued entry of a name is its value. */
  lemma {:induction false} FirstOfWalked(order: seq<Bytes>, envs: EnvMap, name: Bytes)
    requires forall i :: 0 <= i < |order| ==> order[i] in envs
    ensures FirstValued(Walked(order, envs), name) == if name in order then Some(envs[name]) else None
  {
    if order != [] {
      FirstOfWalked(order[1..], envs, name);
      assert Walked(order, envs)[1..] == Walked(order[1..], envs);
      assert order == [order[0]] + order[1..];
    }
  }

  /** A walked map holds each name at most once. */
  lemma {:induction false} CountOfWalked(order: seq<Bytes>, envs: EnvMap, name: Bytes)
    requires forall i :: 0 <= i < |order| ==> order[i] in envs
    requires forall i, j :: 0 <= i < j < |order| ==> order[i] != order[j]
    ensures CountValued(Walked(order, envs), name) == if name in order then 1 else 0
  {
    if order != [] {
      CountOfWalked(order[1..], envs, name);
      assert Walked(order, envs)[1..] == Walked(order[1..], envs);
      assert order == [order[0]] + order[1..];
    }
  }

  /** The environment without the reserved names. */
  function Unreserved(envs: EnvMap): EnvMap {
    map name | name in envs && !Reserved(name) :: envs[name]
  }

  lemma UnreservedUpdate(envs: EnvMap, name: Bytes, value: Bytes)
    ensures Unreserved(envs[name := value])
         == if Reserved(name) then Unreserved(envs) else Unreserved(envs)[name := value]
  {
    hide Reserved;
  }

  lemma {:induction false} CollectUserEnv(entries: seq<Entry>)
    ensures Collected(UserEnv(entries)) == Unreserved(Collected(entries))
  {
    hide Reserved, Unreserved;
    if entries == [] {
      UnreservedEmpty();
    } else {
      var init, last := entries[..|entries| - 1], entries[|entries| - 1];
      CollectUserEnv(init);
      assert entries == init + [last];
      UserEnvAppend(init, last);
      UnreservedUpdate(Collected(init), last.0, if last.1.Some? then last.1.value else []);
      if !Reserved(last.0) {
        assert UserEnv(entries)[..|UserEnv(init)|] == UserEnv(init);
      } else {
        assert UserEnv(init) + [] == UserEnv(init);
      }
    }
  }

  lemma UnreservedEmpty()
    ensures Unreserved(map[]) == map[]
  {
  }

  // ---------------------------------------------------------------------------------------------
  // Spawning
  // ---------------------------------------------------------------------------------------------

  /** Each reserved name is absent from the map or has the right value. */
  predicate MapCompatible(envs: EnvMap, r: Reserve) {
    && (LD_PRELOAD() in envs ==> envs[LD_PRELOAD()] == r.preloadPath)
    && (PAYLOAD_ENV_NAME() in envs ==> envs[PAYLOAD_ENV_NAME()] == r.payloadText)
  }

  /** The environment the root process is spawned with. */
  function LaunchEnv(envs: EnvMap, dynamic: bool, r: Reserve): EnvMap {
    if dynamic then envs[LD_PRELOAD() := r.preloadPath][PAYLOAD_ENV_NAME() := r.payloadText] else Unreserved(envs)
  }

  lemma CollectEnsured(entries: seq<Entry>, name: Bytes, value: Bytes)
    requires Ensured(entries, name, value).Ok?
    requires FirstValued(entries, name).Some? ==> name in Collected(entries) && Collected(entries)[name] == value
    ensures Collected(Ensured(entries, name, value).value) == Collected(entries)[name := value]
  {
    CollectedAppend(entries, name, value);
  }

  /** The order of the hash map does not matter: whether the root can be spawned, and with what
      environment, depends on the map alone. */
  lemma LaunchIgnoresOrder(c: Command, order: seq<Bytes>, envs: EnvMap, dynamic: bool, encoded: EncodedPayload)
    requires Walks(order, envs) && c.envs == Walked(order, envs)
    ensures var r, launched := ReserveOf(encoded), Equipped(c, dynamic, encoded);
      && (launched.Done? <==> (dynamic ==> MapCompatible(envs, r)))
      && (launched.Done? ==> Collected(launched.value.command.envs) == LaunchEnv(envs, dynamic, r))
  {
    hide Reserved, LD_PRELOAD, PAYLOAD_ENV_NAME, FirstValued, Collected;
    var r := ReserveOf(encoded);
    EnvironmentOfRun(c, dynamic, encoded);
    FirstOfWalked(order, envs, LD_PRELOAD());
    FirstOfWalked(order, envs, PAYLOAD_ENV_NAME());
    CollectWalked(order, envs);
    CollectUserEnv(c.envs);
    if dynamic && Compatible(c.envs, r) {
      ReservedNamesDiffer();
      var first := Ensured(c.envs, LD_PRELOAD(), r.preloadPath).value;
      CollectEnsured(c.envs, LD_PRELOAD(), r.preloadPath);
      EnsuredFactsAt(c.envs, LD_PRELOAD(), r.preloadPath, PAYLOAD_ENV_NAME());
      CollectEnsured(first, PAYLOAD_ENV_NAME(), r.payloadText);
    }
  }

  lemma EnsuredFactsAt(envs: seq<Entry>, name: Bytes, value: Bytes, other: Bytes)
    requires name == LD_PRELOAD() && Ensured(envs, name, value).Ok? && other != name
    ensures FirstValued(Ensured(envs, name, value).value, other) == FirstValued(envs, other)
  {
    EnsuredFacts(envs, name, value, other);
  }
}
