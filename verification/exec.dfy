/** `Exec`: resolving the program of an exec call, shebang included. */
module Execs {
  import opened Common
  import opened Envs
  import opened PathSearch
  import opened Shebangs

  /** How a call ends: with a value, with an error number, or by panicking. */
  datatype Outcome<+T> = Done(value: T) | Failed(errno: Errno) | Panicked

  /** How a dynamic loader treats a second LD_PRELOAD: glibc takes the last one, musl the first. */
  datatype Loader = LastWins | FirstWins

  /** The answers of the operating system. */
  datatype World = World(
    /** The process's own PATH variable. */
    pathVar: Option<Bytes>,
    /** The executability check of the `i`-th PATH candidate. */
    check: Checker,
    /** Opening an executable: its content. */
    open: Bytes -> Result<Bytes, Errno>,
    /** The `i`-th read while peeking. */
    answers: nat -> ReadAnswer,
    /** Mapping the opened executable. */
    mapFails: Bytes -> Option<Errno>,
    /** Whether an executable of this content is dynamically linked to libc. */
    linkage: Bytes -> Result<bool, Errno>,
    /** The loader an executable of this content asks for. */
    loader: Bytes -> Loader,
    /** Whether the kernel would run this program in secure mode, as it does for a set-user-ID one. */
    secure: Bytes -> bool,
    /** Whether the working directory can be read. */
    cwd: bool,
    /** `std::path::absolute`. */
    absolute: Bytes -> Option<Bytes>)

  /** The value of a command. */
  datatype Command = Command(program: Bytes, args: seq<Bytes>, envs: seq<Entry>)

  /** `None`: no search. `Some(None)`: search PATH. `Some(Some(p))`: search `p` instead. */
  type SearchConfig = Option<Option<Bytes>>

  function DefaultPath(): Bytes {
    Ascii("/usr/local/bin:/bin:/usr/bin")
  }

  function SearchPath(world: World, custom: Option<Bytes>): Bytes {
    if custom.Some? then custom.value else if world.pathVar.Some? then world.pathVar.value else DefaultPath()
  }

  /** The program after the search, and the candidates reported on the way. */
  function Searched(world: World, config: SearchConfig, program: Bytes): (Result<Bytes, Errno>, seq<Bytes>) {
    match config
    case None => (Ok(program), [])
    case Some(custom) =>
      var path := SearchPath(world, custom);
      (Found(program, path, world.check), Probed(program, path, world.check))
  }

  /** The command once its program was looked up: what a failure after that leaves. */
  function Looked(world: World, config: SearchConfig, c: Command): Command {
    match Searched(world, config, c.program).0
    case Ok(program) => c.(program := program)
    case Err(_) => c
  }

  /** The command a script runs as: the interpreter, its shebang arguments, the script, then the old
      arguments from index 1. Indexing the empty argument list panics. */
  function Interpreted(c: Command, s: Shebang): Outcome<Command> {
    if c.args == [] then Panicked
    else Done(Command(s.interpreter, [s.interpreter] + s.arguments + [c.program] + c.args[1..], c.envs))
  }

  /** Shebang handling when every read succeeds. Linux does not split the arguments. */
  function Unwrapped(world: World, c: Command): Outcome<Command> {
    match world.open(c.program)
    case Err(e) => Failed(e)
    case Ok(content) =>
      match Parse(Peeked(content), false)
      case None => Done(c)
      case Some(s) => Interpreted(c, s)
  }

  /** `resolve` when every read succeeds: how it ends and the paths it reports, in order. */
  function Resolved(world: World, config: SearchConfig, c: Command): (Outcome<Command>, seq<Bytes>) {
    var (found, probes) := Searched(world, config, c.program);
    match found
    case Err(e) => (Failed(e), probes)
    case Ok(program) => (Unwrapped(world, c.(program := program)), probes + [program])
  }

  /** A read failed with `e` while peeking. */
  ghost predicate ReadFailure(world: World, e: Errno) {
    exists i: nat :: world.answers(i) == ReadFails(e)
  }

  /** Overwriting index 0 and splicing behind it. */
  lemma Spliced(args: seq<Bytes>, first: Bytes, middle: seq<Bytes>)
    requires |args| > 0
    ensures args[0 := first][..1] + middle + args[0 := first][1..] == [first] + middle + args[1..]
  {
  }

  class Exec {
    var program: Bytes
    var args: seq<Bytes>
    var envs: seq<Entry>

    constructor (c: Command)
      ensures View() == c
    {
      program, args, envs := c.program, c.args, c.envs;
    }

    function View(): Command
      reads this
    {
      Command(program, args, envs)
    }

    /** `Exec::parse_shebang`. */
    method UnwrapShebang(world: World) returns (r: Outcome<()>)
      modifies this`program, this`args
      ensures !(r.Failed? && ReadFailure(world, r.errno)) ==>
        match Unwrapped(world, old(View()))
        case Done(c) => r == Done(()) && View() == c
        case Failed(e) => r == Failed(e)
        case Panicked => r == Panicked
      ensures !r.Done? ==> View() == old(View())
    {
      hide Parse, Peeked;
      var file := world.open(program);
      if file.Err? {
        return Failed(file.error);
      }
      var parsed := ParseShebang(file.value, world.answers, false);
      match parsed {
        case Err(e) =>
          assert ReadFailure(world, e);
          return Failed(e);
        case Ok(None) =>
          return Done(());
        case Ok(Some(shebang)) =>
          if |args| == 0 {
            return Panicked;
          }
          args := args[0 := shebang.interpreter];
          var oldProgram := program;
          program := shebang.interpreter;
          Spliced(old(args), shebang.interpreter, shebang.arguments + [oldProgram]);
          args := args[..1] + (shebang.arguments + [oldProgram]) + args[1..];
          r := Done(());
      }
    }

    /** `Exec::resolve`, with the paths handed to the access callback. */
    method Resolve(world: World, config: SearchConfig) returns (r: Outcome<()>, seen: seq<Bytes>)
      modifies this`program, this`args
      ensures seen == Resolved(world, config, old(View())).1
      ensures !(r.Failed? && ReadFailure(world, r.errno)) ==>
        match Resolved(world, config, old(View())).0
        case Done(c) => r == Done(()) && View() == c
        case Failed(e) => r == Failed(e)
        case Panicked => r == Panicked
      ensures !r.Done? ==> View() == Looked(world, config, old(View()))
    {
      hide Unwrapped, Found, Probed;
      seen := [];
      if config.Some? {
        var path := SearchPath(world, config.value);
        var found, probes, calls := Which(program, path, world.check, p => Ok(p));
        seen := probes;
        match found {
          case Err(e) => return Failed(e), seen;
          case Ok(p) => program := p;
        }
      }
      seen := seen + [program];
      r := UnwrapShebang(world);
    }

    /** `ensure_env`. */
    method EnsureEnv(name: Bytes, value: Bytes) returns (r: Result<(), Errno>)
      modifies this`envs
      ensures match Ensured(old(envs), name, value)
              case Ok(envs') => r == Ok(()) && envs == envs'
              case Err(e) => r == Err(e) && envs == old(envs)
    {
      var existing := FirstValued(envs, name);
      if existing.Some? {
        return if existing.value == value then Ok(()) else Err(EINVAL);
      }
      envs := envs + [(name, Some(value))];
      r := Ok(());
    }
  }

  // ---------------------------------------------------------------------------------------------
  // The search, in plain terms
  // ---------------------------------------------------------------------------------------------

  /** The path searched: the given one, else PATH, else `/usr/local/bin:/bin:/usr/bin`. */
  lemma SearchPathIs(world: World, custom: Option<Bytes>)
    ensures custom.Some? ==> SearchPath(world, custom) == custom.value
    ensures custom.None? && world.pathVar.Some? ==> SearchPath(world, custom) == world.pathVar.value
    ensures custom.None? && world.pathVar.None? ==>
      SearchPath(world, custom)
      == [47, 117, 115, 114, 47, 108, 111, 99, 97, 108, 47, 98, 105, 110, 58, 47, 98, 105, 110, 58,
          47, 117, 115, 114, 47, 98, 105, 110]
  {
  }

  /** Without a search the program is taken as it is; with one it is what the search finds. */
  lemma SearchedIs(world: World, custom: Option<Bytes>, program: Bytes)
    ensures Searched(world, None, program) == (Ok(program), [])
    ensures Searched(world, Some(custom), program).0 == Found(program, SearchPath(world, custom), world.check)
    ensures Searched(world, Some(custom), program).1 == Probed(program, SearchPath(world, custom), world.check)
  {
  }
}
