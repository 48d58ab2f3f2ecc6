/**
 * What one invocation of runCliWithOptions does, as a function of its options,
 * its collaborators, the host and the files it starts from: the effects it
 * performs, the files it leaves behind and how it settles.
 *
 * The per-file pipeline is described the way the promises run: the loop issues
 * every readFile before any continuation runs, so every read sees the starting
 * files; the continuations (format, then writeFile) run afterwards, here in
 * discovery order.
 */
module RunSpec {
  import opened Wrappers
  import opened EnvironmentPort
  import opened CliTypes

  /** One warning per diagnostic, in list order. */
  function WarnAll(diagnostics: seq<Diagnostic>): (w: seq<Effect>)
    ensures |w| == |diagnostics|
  {
    if diagnostics == [] then []
    else WarnAll(diagnostics[..|diagnostics| - 1]) + [Warn(diagnostics[|diagnostics| - 1].message)]
  }

  /** One log line per path, in discovery order. */
  function LogAll(paths: seq<Path>): (l: seq<Effect>)
    ensures |l| == |paths|
  {
    if paths == [] then []
    else LogAll(paths[..|paths| - 1]) + [Log(paths[|paths| - 1])]
  }

  /** The reads the launch loop issues: one per path, in discovery order. */
  function ReadAll(paths: seq<Path>): (r: seq<Effect>)
    ensures |r| == |paths|
  {
    if paths == [] then []
    else ReadAll(paths[..|paths| - 1]) + [Read(paths[|paths| - 1])]
  }

  /** WarnAll warns every diagnostic's message, in list order. */
  lemma {:induction false} WarnAllAt(diagnostics: seq<Diagnostic>)
    ensures forall i :: 0 <= i < |diagnostics| ==> WarnAll(diagnostics)[i] == Warn(diagnostics[i].message)
  {
    if diagnostics != [] {
      WarnAllAt(diagnostics[..|diagnostics| - 1]);
    }
  }

  /** LogAll logs every path, in discovery order. */
  lemma {:induction false} LogAllAt(paths: seq<Path>)
    ensures forall i :: 0 <= i < |paths| ==> LogAll(paths)[i] == Log(paths[i])
  {
    if paths != [] {
      LogAllAt(paths[..|paths| - 1]);
    }
  }

  /** ReadAll reads every path, in discovery order. */
  lemma {:induction false} ReadAllAt(paths: seq<Path>)
    ensures forall i :: 0 <= i < |paths| ==> ReadAll(paths)[i] == Read(paths[i])
  {
    if paths != [] {
      ReadAllAt(paths[..|paths| - 1]);
    }
  }

  lemma {:induction false} WarnAllCount(diagnostics: seq<Diagnostic>, kind: Kind)
    ensures Count(WarnAll(diagnostics), kind) == if kind == WarnKind then |diagnostics| else 0
  {
    if diagnostics != [] {
      var shorter := diagnostics[..|diagnostics| - 1];
      var last := Warn(diagnostics[|diagnostics| - 1].message);
      WarnAllCount(shorter, kind);
      CountConcat(WarnAll(shorter), [last], kind);
      CountSingle(last, kind);
    }
  }

  lemma {:induction false} LogAllCount(paths: seq<Path>, kind: Kind)
    ensures Count(LogAll(paths), kind) == if kind == LogKind then |paths| else 0
  {
    if paths != [] {
      var shorter := paths[..|paths| - 1];
      var last := Log(paths[|paths| - 1]);
      LogAllCount(shorter, kind);
      CountConcat(LogAll(shorter), [last], kind);
      CountSingle(last, kind);
    }
  }

  lemma {:induction false} ReadAllCount(paths: seq<Path>, kind: Kind)
    ensures Count(ReadAll(paths), kind) == if kind == ReadKind then |paths| else 0
  {
    if paths != [] {
      var shorter := paths[..|paths| - 1];
      var last := Read(paths[|paths| - 1]);
      ReadAllCount(shorter, kind);
      CountConcat(ReadAll(shorter), [last], kind);
      CountSingle(last, kind);
    }
  }

  /** How many of the discovered paths cannot be read. */
  function ReadFailures(host: Host, files: map<Path, string>, paths: seq<Path>): (n: nat)
    ensures n <= |paths|
    ensures n == 0 <==> forall i :: 0 <= i < |paths| ==> ReadStep(host, files, paths[i]).Ok?
  {
    if paths == [] then 0
    else ReadFailures(host, files, paths[..|paths| - 1])
         + (if ReadStep(host, files, paths[|paths| - 1]).Err? then 1 else 0)
  }

  /** The text the continuation for `path` writes: the formatted contents it read. */
  function FormattedText(col: Collaborators, config: ResolvedConfiguration, files: map<Path, string>, path: Path): string
    requires path in files
  {
    col.formatFileText(path, files[path], config)
  }

  /**
   * The writes the continuations attempt: one per path whose read succeeded, each
   * with the formatted text of what was read, all under the one resolved config.
   */
  function WriteAll(host: Host, files: map<Path, string>, col: Collaborators,
                    config: ResolvedConfiguration, paths: seq<Path>): (w: seq<Effect>)
    ensures |w| + ReadFailures(host, files, paths) == |paths|
  {
    if paths == [] then []
    else
      var last := paths[|paths| - 1];
      WriteAll(host, files, col, config, paths[..|paths| - 1])
      + (if ReadStep(host, files, last).Ok? then [Write(last, FormattedText(col, config, files, last))] else [])
  }

  /** The files after the continuations ran, each successful write applied in turn. */
  function Formatted(host: Host, files: map<Path, string>, col: Collaborators,
                     config: ResolvedConfiguration, paths: seq<Path>): map<Path, string>
  {
    if paths == [] then files
    else
      var last := paths[|paths| - 1];
      var before := Formatted(host, files, col, config, paths[..|paths| - 1]);
      if ReadStep(host, files, last).Ok? && WriteStep(host, last).None?
      then before[last := FormattedText(col, config, files, last)]
      else before
  }

  /** The continuations attempt one write per successful read. */
  lemma {:induction false} WriteAllWriteCount(host: Host, files: map<Path, string>, col: Collaborators,
                                              config: ResolvedConfiguration, paths: seq<Path>)
    ensures Count(WriteAll(host, files, col, config, paths), WriteKind) == |paths| - ReadFailures(host, files, paths)
  {
    if paths != [] {
      var shorter := paths[..|paths| - 1];
      var last := paths[|paths| - 1];
      var before := WriteAll(host, files, col, config, shorter);
      WriteAllWriteCount(host, files, col, config, shorter);
      if ReadStep(host, files, last).Ok? {
        var write := Write(last, FormattedText(col, config, files, last));
        CountConcat(before, [write], WriteKind);
        CountSingle(write, WriteKind);
      } else {
        assert WriteAll(host, files, col, config, paths) == before;
      }
    }
  }

  /** The continuations perform no effect but writes. */
  lemma {:induction false} WriteAllOnlyWrites(host: Host, files: map<Path, string>, col: Collaborators,
                                              config: ResolvedConfiguration, paths: seq<Path>, kind: Kind)
    requires kind != WriteKind
    ensures Count(WriteAll(host, files, col, config, paths), kind) == 0
  {
    if paths != [] {
      var shorter := paths[..|paths| - 1];
      var last := paths[|paths| - 1];
      var before := WriteAll(host, files, col, config, shorter);
      WriteAllOnlyWrites(host, files, col, config, shorter, kind);
      if ReadStep(host, files, last).Ok? {
        var write := Write(last, FormattedText(col, config, files, last));
        CountConcat(before, [write], kind);
        CountSingle(write, kind);
      } else {
        assert WriteAll(host, files, col, config, paths) == before;
      }
    }
  }

  lemma WriteAllCount(host: Host, files: map<Path, string>, col: Collaborators,
                      config: ResolvedConfiguration, paths: seq<Path>, kind: Kind)
    ensures Count(WriteAll(host, files, col, config, paths), kind)
         == if kind == WriteKind then |paths| - ReadFailures(host, files, paths) else 0
  {
    if kind == WriteKind {
      WriteAllWriteCount(host, files, col, config, paths);
    } else {
      WriteAllOnlyWrites(host, files, col, config, paths, kind);
    }
  }

  /**
   * Every write a continuation attempts is to a discovered, readable path, with
   * the formatted text of what that path held, under the one resolved config;
   * and every readable discovered path gets that write.
   */
  lemma {:induction false} WriteAllWrites(host: Host, files: map<Path, string>, col: Collaborators,
                                          config: ResolvedConfiguration, paths: seq<Path>)
    ensures forall e :: e in WriteAll(host, files, col, config, paths) ==>
      e.Write? && e.path in paths && ReadStep(host, files, e.path).Ok? &&
      e.path in files && e.text == FormattedText(col, config, files, e.path)
    ensures forall i :: 0 <= i < |paths| && ReadStep(host, files, paths[i]).Ok? ==>
      paths[i] in files && Write(paths[i], FormattedText(col, config, files, paths[i])) in WriteAll(host, files, col, config, paths)
  {
    if paths != [] {
      var shorter := paths[..|paths| - 1];
      WriteAllWrites(host, files, col, config, shorter);
      assert forall p :: p in shorter ==> p in paths;
    }
  }

  /**
   * A readable path gets one write per time glob listed it, an unreadable one
   * none.
   */
  lemma {:induction false} WriteAllWritesTo(host: Host, files: map<Path, string>, col: Collaborators,
                                            config: ResolvedConfiguration, paths: seq<Path>, path: Path)
    ensures WritesTo(WriteAll(host, files, col, config, paths), path)
         == if ReadStep(host, files, path).Ok? then multiset(paths)[path] else 0
  {
    if paths != [] {
      var shorter := paths[..|paths| - 1];
      var last := paths[|paths| - 1];
      WriteAllWritesTo(host, files, col, config, shorter, path);
      assert paths == shorter + [last];
      assert multiset(paths) == multiset(shorter) + multiset{last};
      if ReadStep(host, files, last).Ok? {
        var write := Write(last, FormattedText(col, config, files, last));
        WritesToConcat(WriteAll(host, files, col, config, shorter), [write], path);
        WritesToSingle(write, path);
      } else {
        assert WriteAll(host, files, col, config, paths) == WriteAll(host, files, col, config, shorter);
      }
    }
  }

  /** In a list with no repeated path, each listed path occurs exactly once. */
  lemma {:induction false} DistinctMultiplicity(paths: seq<Path>, path: Path)
    requires forall i, j :: 0 <= i < j < |paths| ==> paths[i] != paths[j]
    ensures multiset(paths)[path] == if path in paths then 1 else 0
  {
    if paths != [] {
      var shorter := paths[..|paths| - 1];
      var last := paths[|paths| - 1];
      assert paths == shorter + [last];
      DistinctMultiplicity(shorter, path);
      if path == last {
        assert path !in shorter by {
          forall k | 0 <= k < |shorter|
            ensures shorter[k] != last
          {
            assert paths[k] != paths[|paths| - 1];
          }
        }
      }
    }
  }

  /**
   * The files after the continuations ran: the same file names; a discovered path
   * that is readable and writable holds the formatted text of what it held, every
   * other file is as it was.
   */
  lemma {:induction false} FormattedContents(host: Host, files: map<Path, string>, col: Collaborators,
                                             config: ResolvedConfiguration, paths: seq<Path>)
    ensures var m := Formatted(host, files, col, config, paths);
      && m.Keys == files.Keys
      && forall p :: p in files ==>
           m[p] == if p in paths && p !in host.unreadable && p !in host.unwritable
                   then FormattedText(col, config, files, p) else files[p]
  {
    if paths != [] {
      var last := paths[|paths| - 1];
      var shorter := paths[..|paths| - 1];
      FormattedContents(host, files, col, config, shorter);
      assert forall p :: p in paths <==> p in shorter || p == last;
    }
  }

  /** The failure, if any, of the task for one path: its read, else its write. */
  function TaskFailure(host: Host, files: map<Path, string>, path: Path): Option<CliError> {
    match ReadStep(host, files, path)
    case Err(e) => Some(ReadFailed(path, e))
    case Ok(_) =>
      match WriteStep(host, path)
      case Some(e) => Some(WriteFailed(path, e))
      case None => None
  }

  /** The failure the joined promise reports: that of the first failing task in discovery order. */
  function FirstFailure(host: Host, files: map<Path, string>, paths: seq<Path>): Option<CliError>
  {
    if paths == [] then None
    else
      var before := FirstFailure(host, files, paths[..|paths| - 1]);
      if before.Some? then before else TaskFailure(host, files, paths[|paths| - 1])
  }

  /** The pipeline functions over a prefix one path longer, in terms of the shorter prefix. */
  lemma PipelineStep(host: Host, files: map<Path, string>, col: Collaborators,
                     config: ResolvedConfiguration, paths: seq<Path>, i: nat)
    requires i < |paths|
    ensures WriteAll(host, files, col, config, paths[..i + 1])
      == WriteAll(host, files, col, config, paths[..i])
         + (if ReadStep(host, files, paths[i]).Ok? then [Write(paths[i], FormattedText(col, config, files, paths[i]))] else [])
    ensures Formatted(host, files, col, config, paths[..i + 1])
      == var before := Formatted(host, files, col, config, paths[..i]);
         if ReadStep(host, files, paths[i]).Ok? && WriteStep(host, paths[i]).None?
         then before[paths[i] := FormattedText(col, config, files, paths[i])] else before
    ensures FirstFailure(host, files, paths[..i + 1])
      == var before := FirstFailure(host, files, paths[..i]);
         if before.Some? then before else TaskFailure(host, files, paths[i])
  {
    assert paths[..i + 1][..i] == paths[..i];
  }

  /**
   * The joined promise fails exactly when some task fails, and then with the
   * failure of the first failing task in discovery order.
   */
  lemma {:induction false} FirstFailureIsFirst(host: Host, files: map<Path, string>, paths: seq<Path>)
    ensures var f := FirstFailure(host, files, paths);
      && (f.None? <==> forall i :: 0 <= i < |paths| ==> TaskFailure(host, files, paths[i]).None?)
      && (f.Some? ==> exists i :: 0 <= i < |paths| && TaskFailure(host, files, paths[i]) == f &&
                                  (forall j :: 0 <= j < i ==> TaskFailure(host, files, paths[j]).None?))
  {
    if paths != [] {
      var shorter := paths[..|paths| - 1];
      FirstFailureIsFirst(host, files, shorter);
      var before := FirstFailure(host, files, shorter);
      if before.Some? {
        var i :| 0 <= i < |shorter| && TaskFailure(host, files, shorter[i]) == before &&
                 (forall j :: 0 <= j < i ==> TaskFailure(host, files, shorter[j]).None?);
        assert paths[i] == shorter[i];
      } else {
        assert forall i :: 0 <= i < |shorter| ==> paths[i] == shorter[i];
      }
    }
  }

  datatype RunResult = RunResult(trace: seq<Effect>, files: map<Path, string>, outcome: Outcome)

  /**
   * The format pipeline over the discovered paths: every read, then every
   * continuation's write; it completes only if every task does.
   */
  function Pipeline(host: Host, files: map<Path, string>, col: Collaborators,
                    config: ResolvedConfiguration, paths: seq<Path>): RunResult
  {
    RunResult(
      ReadAll(paths) + WriteAll(host, files, col, config, paths),
      Formatted(host, files, col, config, paths),
      match FirstFailure(host, files, paths)
      case None => Completed
      case Some(e) => Failed(e))
  }

  /**
   * What runCliWithOptions does once the configuration is resolved: warn every
   * diagnostic, discover the files, then list them, print the config or format them.
   */
  function RunResolved(options: CommandLineOptions, col: Collaborators, host: Host,
                       files: map<Path, string>, resolution: ConfigResolutionResult): RunResult
  {
    var discovery := WarnAll(resolution.diagnostics) + [Glob(options.filePatterns)];
    match host.discover(options.filePatterns, files)
    case None => RunResult(discovery, files, Failed(DiscoveryFailed))
    case Some(paths) =>
      if options.outputFilePaths then
        RunResult(discovery + LogAll(paths), files, Completed)
      else if options.outputResolvedConfig then
        RunResult(discovery + [Log(col.stringify(resolution.config))], files, Completed)
      else
        var pipeline := Pipeline(host, files, col, resolution.config, paths);
        RunResult(discovery + pipeline.trace, pipeline.files, pipeline.outcome)
  }

  /** The effects, final files and outcome of runCliWithOptions(options, environment). */
  function Run(options: CommandLineOptions, col: Collaborators, host: Host, files: map<Path, string>): RunResult {
    if options.showHelp then RunResult([Log(col.helpText)], files, Completed)
    else if options.showVersion then RunResult([Log(col.packageVersion)], files, Completed)
    else
      match col.resolveConfigFile(options.config, files)
      case Err(message) => RunResult([LoadConfig(options.config)], files, Failed(ConfigLoadFailed(message)))
      case Ok(unresolved) =>
        var resolved := RunResolved(options, col, host, files, col.resolveConfiguration(unresolved));
        RunResult([LoadConfig(options.config)] + resolved.trace, resolved.files, resolved.outcome)
  }
}
