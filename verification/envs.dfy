/** The environment a command carries, and how the tracker injects into it or strips it. */
module Envs {
  import opened Common

  /** A name and, when the entry holds a `=`, a value. */
  type Entry = (Bytes, Option<Bytes>)

  function LD_PRELOAD(): Bytes {
    Ascii("LD_PRELOAD")
  }

  function PAYLOAD_ENV_NAME(): Bytes {
    Ascii("FSPY_PAYLOAD")
  }

  lemma ReservedNamesDiffer()
    ensures LD_PRELOAD() != PAYLOAD_ENV_NAME()
  {
    assert LD_PRELOAD()[0] == 76;
  }

  /** The names `LD_PRELOAD` and `FSPY_PAYLOAD`, byte by byte. */
  lemma NamesSpelled()
    ensures LD_PRELOAD() == [76, 68, 95, 80, 82, 69, 76, 79, 65, 68]
    ensures PAYLOAD_ENV_NAME() == [70, 83, 80, 89, 95, 80, 65, 89, 76, 79, 65, 68]
  {
  }

  predicate Reserved(name: Bytes) {
    name == LD_PRELOAD() || name == PAYLOAD_ENV_NAME()
  }

  /** The value of the first valued entry of that name; entries without a value are skipped. */
  function FirstValued(envs: seq<Entry>, name: Bytes): Option<Bytes> {
    if envs == [] then None
    else if envs[0].0 == name && envs[0].1.Some? then envs[0].1
    else FirstValued(envs[1..], name)
  }

  /** `ensure_env` on a value. */
  function Ensured(envs: seq<Entry>, name: Bytes, value: Bytes): Result<seq<Entry>, Errno> {
    match FirstValued(envs, name)
    case None => Ok(envs + [(name, Some(value))])
    case Some(existing) => if existing == value then Ok(envs) else Err(EINVAL)
  }

  /** The entries of all names but the reserved ones, in order. */
  function UserEnv(envs: seq<Entry>): seq<Entry> {
    if envs == [] then []
    else (if Reserved(envs[0].0) then [] else [envs[0]]) + UserEnv(envs[1..])
  }

  /** How many valued entries a name has. */
  function CountValued(envs: seq<Entry>, name: Bytes): nat {
    if envs == [] then 0
    else (if envs[0].0 == name && envs[0].1.Some? then 1 else 0) + CountValued(envs[1..], name)
  }

  // ---------------------------------------------------------------------------------------------
  // Appending
  // ---------------------------------------------------------------------------------------------

  lemma {:induction false} FirstValuedAppend(envs: seq<Entry>, e: Entry, name: Bytes)
    ensures FirstValued(envs + [e], name)
         == if FirstValued(envs, name).Some? then FirstValued(envs, name)
            else if e.0 == name then e.1 else None
  {
    if envs == [] {
      assert envs + [e] == [e] && [e][1..] == [];
    } else {
      assert (envs + [e])[1..] == envs[1..] + [e];
      FirstValuedAppend(envs[1..], e, name);
    }
  }

  lemma {:induction false} UserEnvAppend(envs: seq<Entry>, e: Entry)
    ensures UserEnv(envs + [e]) == UserEnv(envs) + (if Reserved(e.0) then [] else [e])
  {
    hide Reserved;
    if envs == [] {
      assert envs + [e] == [e] && [e][1..] == [];
    } else {
      UserEnvAppend(envs[1..], e);
      assert (envs + [e])[1..] == envs[1..] + [e];
      var first := if Reserved(envs[0].0) then [] else [envs[0]];
      assert UserEnv(envs + [e]) == first + UserEnv(envs[1..] + [e]);
      assert UserEnv(envs) == first + UserEnv(envs[1..]);
    }
  }

  lemma {:induction false} CountValuedAppend(envs: seq<Entry>, e: Entry, name: Bytes)
    ensures CountValued(envs + [e], name) == CountValued(envs, name) + (if e.0 == name && e.1.Some? then 1 else 0)
  {
    if envs == [] {
      assert envs + [e] == [e] && [e][1..] == [];
    } else {
      assert (envs + [e])[1..] == envs[1..] + [e];
      CountValuedAppend(envs[1..], e, name);
    }
  }

  lemma {:induction false} CountedIsFirst(envs: seq<Entry>, name: Bytes)
    ensures CountValued(envs, name) == 0 <==> FirstValued(envs, name).None?
  {
    if envs != [] {
      CountedIsFirst(envs[1..], name);
    }
  }

  /** What one injection does, for the injected name, for any other name and for the user. */
  lemma EnsuredFacts(envs: seq<Entry>, name: Bytes, value: Bytes, other: Bytes)
    requires Reserved(name) && Ensured(envs, name, value).Ok?
    ensures var envs' := Ensured(envs, name, value).value;
      && FirstValued(envs', name) == Some(value)
      && (other != name ==> FirstValued(envs', other) == FirstValued(envs, other))
      && UserEnv(envs') == UserEnv(envs)
      && CountValued(envs', other)
         <= (if other == name && CountValued(envs, name) == 0 then 1 else CountValued(envs, other))
      && Ensured(envs', name, value) == Ok(envs')
  {
    hide Reserved;
    var e: Entry := (name, Some(value));
    FirstValuedAppend(envs, e, name);
    FirstValuedAppend(envs, e, other);
    UserEnvAppend(envs, e);
    CountValuedAppend(envs, e, other);
    CountedIsFirst(envs, name);
  }

  // ---------------------------------------------------------------------------------------------
  // The two branches
  // ---------------------------------------------------------------------------------------------

  /** What a tracked process is told through its environment. */
  datatype Reserve = Reserve(preloadPath: Bytes, payloadText: Bytes)

  predicate AbsentOr(envs: seq<Entry>, name: Bytes, value: Bytes) {
    FirstValued(envs, name) == None || FirstValued(envs, name) == Some(value)
  }

  /** Each reserved name is absent or holds the right value. */
  predicate Compatible(envs: seq<Entry>, r: Reserve) {
    AbsentOr(envs, LD_PRELOAD(), r.preloadPath) && AbsentOr(envs, PAYLOAD_ENV_NAME(), r.payloadText)
  }

  /** Both reserved names hold the right value. */
  predicate Injected(envs: seq<Entry>, r: Reserve) {
    && FirstValued(envs, LD_PRELOAD()) == Some(r.preloadPath)
    && FirstValued(envs, PAYLOAD_ENV_NAME()) == Some(r.payloadText)
  }

  /** The dynamic branch: both names are ensured, one after the other. When the second fails the
      first has already changed the environment. */
  function Inject(envs: seq<Entry>, r: Reserve): (Result<(), Errno>, seq<Entry>) {
    match Ensured(envs, LD_PRELOAD(), r.preloadPath)
    case Err(e) => (Err(e), envs)
    case Ok(envs1) =>
      match Ensured(envs1, PAYLOAD_ENV_NAME(), r.payloadText)
      case Err(e) => (Err(e), envs1)
      case Ok(envs2) => (Ok(()), envs2)
  }

  /** The static branch: every entry of a reserved name goes, valued or not. */
  function Strip(envs: seq<Entry>): seq<Entry> {
    UserEnv(envs)
  }

  /** Injection fails exactly on incompatible environments, always with EINVAL. It never touches a
      user entry, and injecting twice is injecting once. */
  lemma InjectFacts(envs: seq<Entry>, r: Reserve)
    ensures var (ok, envs') := Inject(envs, r);
      && (ok.Ok? <==> Compatible(envs, r))
      && (ok.Err? ==> ok == Err(EINVAL))
      && UserEnv(envs') == UserEnv(envs)
      && (ok.Ok? ==> Injected(envs', r) && Inject(envs', r) == (Ok(()), envs'))
  {
    hide FirstValued, UserEnv, CountValued, LD_PRELOAD, PAYLOAD_ENV_NAME;
    ReservedNamesDiffer();
    var first := Ensured(envs, LD_PRELOAD(), r.preloadPath);
    if first.Ok? {
      EnsuredFacts(envs, LD_PRELOAD(), r.preloadPath, PAYLOAD_ENV_NAME());
      if Ensured(first.value, PAYLOAD_ENV_NAME(), r.payloadText).Ok? {
        EnsuredFacts(first.value, PAYLOAD_ENV_NAME(), r.payloadText, LD_PRELOAD());
      }
    }
  }

  /** At most one valued entry per reserved name: the loader and `getenv` then agree with
      `FirstValued`. */
  predicate Unambiguous(envs: seq<Entry>) {
    CountValued(envs, LD_PRELOAD()) <= 1 && CountValued(envs, PAYLOAD_ENV_NAME()) <= 1
  }

  lemma InjectStaysUnambiguous(envs: seq<Entry>, r: Reserve)
    requires Unambiguous(envs)
    ensures Unambiguous(Inject(envs, r).1)
  {
    hide FirstValued, UserEnv, CountValued, LD_PRELOAD, PAYLOAD_ENV_NAME;
    ReservedNamesDiffer();
    var first := Ensured(envs, LD_PRELOAD(), r.preloadPath);
    if first.Ok? {
      EnsuredFacts(envs, LD_PRELOAD(), r.preloadPath, PAYLOAD_ENV_NAME());
      EnsuredFacts(envs, LD_PRELOAD(), r.preloadPath, LD_PRELOAD());
      if Ensured(first.value, PAYLOAD_ENV_NAME(), r.payloadText).Ok? {
        EnsuredFacts(first.value, PAYLOAD_ENV_NAME(), r.payloadText, LD_PRELOAD());
        EnsuredFacts(first.value, PAYLOAD_ENV_NAME(), r.payloadText, PAYLOAD_ENV_NAME());
      }
    }
  }

  lemma {:induction false} StripFacts(envs: seq<Entry>, name: Bytes)
    requires Reserved(name)
    ensures FirstValued(Strip(envs), name) == None && CountValued(Strip(envs), name) == 0
    ensures UserEnv(Strip(envs)) == UserEnv(envs)
  {
    if envs != [] {
      StripFacts(envs[1..], name);
      var rest := UserEnv(envs[1..]);
      hide Reserved;
      if !Reserved(envs[0].0) {
        assert ([envs[0]] + rest)[1..] == rest;
      } else {
        assert [] + rest == rest;
      }
    }
  }

  // ---------------------------------------------------------------------------------------------
  // In plain terms
  // ---------------------------------------------------------------------------------------------

  /** The first entry of the name that has a value counts; entries of it without one are skipped. */
  lemma {:induction false} FirstValuedIs(before: seq<Entry>, name: Bytes, value: Bytes, rest: seq<Entry>)
    requires forall i :: 0 <= i < |before| ==> before[i].0 != name || before[i].1 == None
    ensures FirstValued(before + [(name, Some(value))] + rest, name) == Some(value)
    ensures FirstValued(before, name) == None
  {
    var all := before + [(name, Some(value))] + rest;
    if before == [] {
      assert all[0] == (name, Some(value));
    } else {
      assert all[0] == before[0] && all[1..] == before[1..] + [(name, Some(value))] + rest;
      FirstValuedIs(before[1..], name, value, rest);
    }
  }

  /** Where neither name has a value, injection appends both, LD_PRELOAD first. */
  lemma InjectIntoUnset(envs: seq<Entry>, r: Reserve)
    requires forall i :: 0 <= i < |envs| && envs[i].1.Some? ==>
      && envs[i].0 != [76, 68, 95, 80, 82, 69, 76, 79, 65, 68]
      && envs[i].0 != [70, 83, 80, 89, 95, 80, 65, 89, 76, 79, 65, 68]
    ensures Inject(envs, r)
         == (Ok(()), envs + [
              ([76, 68, 95, 80, 82, 69, 76, 79, 65, 68], Some(r.preloadPath)),
              ([70, 83, 80, 89, 95, 80, 65, 89, 76, 79, 65, 68], Some(r.payloadText))])
  {
    NamesSpelled();
    ReservedNamesDiffer();
    var first, second := LD_PRELOAD(), PAYLOAD_ENV_NAME();
    hide LD_PRELOAD, PAYLOAD_ENV_NAME, FirstValued;
    assert forall i :: 0 <= i < |envs| ==> envs[i].0 != first || envs[i].1 == None;
    assert forall i :: 0 <= i < |envs| ==> envs[i].0 != second || envs[i].1 == None;
    FirstValuedIs(envs, first, [], []);
    FirstValuedIs(envs, second, [], []);
    FirstValuedAppend(envs, (first, Some(r.preloadPath)), second);
    assert envs + [(first, Some(r.preloadPath))] + [(second, Some(r.payloadText))]
        == envs + [(first, Some(r.preloadPath)), (second, Some(r.payloadText))];
  }

  /** Stripping drops the entries of the two names and keeps all others, in order. */
  lemma StripOne(e: Entry, rest: seq<Entry>)
    ensures Strip([]) == []
    ensures e.0 == [76, 68, 95, 80, 82, 69, 76, 79, 65, 68] ==> Strip([e] + rest) == Strip(rest)
    ensures e.0 == [70, 83, 80, 89, 95, 80, 65, 89, 76, 79, 65, 68] ==> Strip([e] + rest) == Strip(rest)
    ensures
      && e.0 != [76, 68, 95, 80, 82, 69, 76, 79, 65, 68]
      && e.0 != [70, 83, 80, 89, 95, 80, 65, 89, 76, 79, 65, 68] ==>
        Strip([e] + rest) == [e] + Strip(rest)
  {
    NamesSpelled();
    hide LD_PRELOAD, PAYLOAD_ENV_NAME;
    assert ([e] + rest)[1..] == rest;
    assert [] + UserEnv(rest) == UserEnv(rest);
  }
}
