/**
 * The Environment port of the command line interface: every side effect of the
 * orchestrator (log, warn, glob, readFile, writeFile) goes through it.  The model
 * replaces the console by an effect trace and the file system by an in-memory map.
 */
module EnvironmentPort {
  import opened Wrappers

  type Path = string

  /** One interaction of the orchestrator with its environment, in the order it happens. */
  datatype Effect =
    | Log(message: string)
    | Warn(message: string)
    // the environment is handed to the config file loader for `config`
    | LoadConfig(config: Option<Path>)
    | Glob(patterns: seq<string>)
    | Read(path: Path)
    | Write(path: Path, text: string)

  datatype Kind = LogKind | WarnKind | LoadConfigKind | GlobKind | ReadKind | WriteKind

  function KindOf(e: Effect): Kind {
    match e
    case Log(_) => LogKind
    case Warn(_) => WarnKind
    case LoadConfig(_) => LoadConfigKind
    case Glob(_) => GlobKind
    case Read(_) => ReadKind
    case Write(_, _) => WriteKind
  }

  /** How many effects of the given kind a trace holds. */
  function Count(trace: seq<Effect>, kind: Kind): (n: nat)
    ensures n <= |trace|
  {
    if trace == [] then 0
    else Count(trace[..|trace| - 1], kind) + (if KindOf(trace[|trace| - 1]) == kind then 1 else 0)
  }

  lemma {:induction false} CountConcat(a: seq<Effect>, b: seq<Effect>, kind: Kind)
    ensures Count(a + b, kind) == Count(a, kind) + Count(b, kind)
  {
    if b != [] {
      assert (a + b)[..|a + b| - 1] == a + b[..|b| - 1];
      CountConcat(a, b[..|b| - 1], kind);
    } else {
      assert a + b == a;
    }
  }

  lemma CountSingle(e: Effect, kind: Kind)
    ensures Count([e], kind) == if KindOf(e) == kind then 1 else 0
  {
  }

  /** A trace that counts none of a kind holds no effect of that kind. */
  lemma {:induction false} CountZero(trace: seq<Effect>, kind: Kind)
    requires Count(trace, kind) == 0
    ensures forall i :: 0 <= i < |trace| ==> KindOf(trace[i]) != kind
  {
    if trace != [] {
      var shorter := trace[..|trace| - 1];
      CountZero(shorter, kind);
      assert forall i :: 0 <= i < |shorter| ==> trace[i] == shorter[i];
    }
  }

  /** How many writes to one path a trace holds. */
  function WritesTo(trace: seq<Effect>, path: Path): nat
  {
    if trace == [] then 0
    else
      var last := trace[|trace| - 1];
      WritesTo(trace[..|trace| - 1], path) + (if last.Write? && last.path == path then 1 else 0)
  }

  /** A trace never holds more writes to one path than writes. */
  lemma {:induction false} WritesToAtMostWrites(trace: seq<Effect>, path: Path)
    ensures WritesTo(trace, path) <= Count(trace, WriteKind)
  {
    if trace != [] {
      WritesToAtMostWrites(trace[..|trace| - 1], path);
    }
  }

  lemma WritesToSingle(e: Effect, path: Path)
    ensures WritesTo([e], path) == if e.Write? && e.path == path then 1 else 0
  {
  }

  lemma {:induction false} WritesToConcat(a: seq<Effect>, b: seq<Effect>, path: Path)
    ensures WritesTo(a + b, path) == WritesTo(a, path) + WritesTo(b, path)
  {
    if b != [] {
      assert (a + b)[..|a + b| - 1] == a + b[..|b| - 1];
      WritesToConcat(a, b[..|b| - 1], path);
    } else {
      assert a + b == a;
    }
  }

  datatype IoError = NotFound | PermissionDenied

  /**
   * What the host decides and the model does not compute: how patterns expand
   * against the current files (None is a discovery failure), and which paths
   * refuse to be read or written.
   */
  datatype Host = Host(
    discover: (seq<string>, map<Path, string>) -> Option<seq<Path>>,
    unreadable: set<Path>,
    unwritable: set<Path>)

  /** What reading `path` yields when the file system holds `files`. */
  function ReadStep(host: Host, files: map<Path, string>, path: Path): Result<string, IoError> {
    if path !in files then Err(NotFound)
    else if path in host.unreadable then Err(PermissionDenied)
    else Ok(files[path])
  }

  /** The error, if any, that writing `path` runs into. */
  function WriteStep(host: Host, path: Path): Option<IoError> {
    if path in host.unwritable then Some(PermissionDenied) else None
  }

  class Environment {
    const host: Host
    var files: map<Path, string>
    var trace: seq<Effect>

    constructor (host: Host, files: map<Path, string>)
      ensures this.host == host && this.files == files && trace == []
    {
      this.host := host;
      this.files := files;
      trace := [];
    }

    method Log(message: string)
      modifies this`trace
      ensures trace == old(trace) + [Effect.Log(message)]
    {
      trace := trace + [Effect.Log(message)];
    }

    method Warn(message: string)
      modifies this`trace
      ensures trace == old(trace) + [Effect.Warn(message)]
    {
      trace := trace + [Effect.Warn(message)];
    }

    method Glob(patterns: seq<string>) returns (paths: Option<seq<Path>>)
      modifies this`trace
      ensures trace == old(trace) + [Effect.Glob(patterns)]
      ensures paths == host.discover(patterns, files)
    {
      trace := trace + [Effect.Glob(patterns)];
      paths := host.discover(patterns, files);
    }

    method ReadFile(path: Path) returns (text: Result<string, IoError>)
      modifies this`trace
      ensures trace == old(trace) + [Read(path)]
      ensures text == ReadStep(host, files, path)
      ensures text.Ok? ==> path in files && text.value == files[path]
    {
      trace := trace + [Read(path)];
      text := ReadStep(host, files, path);
    }

    method WriteFile(path: Path, text: string) returns (error: Option<IoError>)
      modifies this`trace, this`files
      ensures trace == old(trace) + [Write(path, text)]
      ensures error == WriteStep(host, path)
      ensures files == if error.None? then old(files)[path := text] else old(files)
    {
      trace := trace + [Write(path, text)];
      error := WriteStep(host, path);
      if error.None? {
        files := files[path := text];
      }
    }
  }
}
