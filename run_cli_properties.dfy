/**
 * What runCliWithOptions guarantees, stated over the specification function
 * RunSpec.Run that the method RunCli.RunCliWithOptions is proved to follow.
 */
module RunCliProperties {
  import opened Wrappers
  import opened EnvironmentPort
  import opened CliTypes
  import opened RunSpec

  /** The configuration resolution a run works with, when its config file loads. */
  function Resolution(options: CommandLineOptions, col: Collaborators, files: map<Path, string>): ConfigResolutionResult
    requires col.resolveConfigFile(options.config, files).Ok?
  {
    col.resolveConfiguration(col.resolveConfigFile(options.config, files).value)
  }

  /** The effects of a run up to and including its glob call. */
  function Discovery(options: CommandLineOptions, col: Collaborators, files: map<Path, string>): seq<Effect>
    requires col.resolveConfigFile(options.config, files).Ok?
  {
    [LoadConfig(options.config)] + WarnAll(Resolution(options, col, files).diagnostics) + [Glob(options.filePatterns)]
  }

  /**
   * The effects a run performs after its glob call, in each mode: the suffix of
   * RunSpec.RunResolved's trace that follows the glob effect (DiscoveryThenMode).
   */
  function ModeEffects(options: CommandLineOptions, col: Collaborators, host: Host, files: map<Path, string>): seq<Effect>
    requires col.resolveConfigFile(options.config, files).Ok?
  {
    match host.discover(options.filePatterns, files)
    case None => []
    case Some(paths) =>
      var config := Resolution(options, col, files).config;
      if options.outputFilePaths then LogAll(paths)
      else if options.outputResolvedConfig then [Log(col.stringify(config))]
      else ReadAll(paths) + WriteAll(host, files, col, config, paths)
  }

  /** Once the config file loads, a run's trace is its discovery effects followed by those of its mode. */
  lemma DiscoveryThenMode(options: CommandLineOptions, col: Collaborators, host: Host, files: map<Path, string>)
    requires ResolvesConfig(options)
    requires col.resolveConfigFile(options.config, files).Ok?
    ensures Run(options, col, host, files).trace == Discovery(options, col, files) + ModeEffects(options, col, host, files)
  {
  }

  /** The discovery effects: one config load, one warning per diagnostic, one glob. */
  lemma DiscoveryCount(options: CommandLineOptions, col: Collaborators, files: map<Path, string>, kind: Kind)
    requires col.resolveConfigFile(options.config, files).Ok?
    ensures Count(Discovery(options, col, files), kind)
         == (if kind == LoadConfigKind then 1 else 0)
          + (if kind == WarnKind then |Resolution(options, col, files).diagnostics| else 0)
          + (if kind == GlobKind then 1 else 0)
  {
    var load := LoadConfig(options.config);
    var warnings := WarnAll(Resolution(options, col, files).diagnostics);
    var glob := Glob(options.filePatterns);
    CountSingle(load, kind);
    CountSingle(glob, kind);
    WarnAllCount(Resolution(options, col, files).diagnostics, kind);
    CountConcat([load], warnings, kind);
    CountConcat([load] + warnings, [glob], kind);
  }

  /** Help comes first: one log line with the help text, whatever the other flags say. */
  lemma HelpMode(options: CommandLineOptions, col: Collaborators, host: Host, files: map<Path, string>)
    requires options.showHelp
    ensures Run(options, col, host, files) == RunResult([Log(col.helpText)], files, Completed)
  {
  }

  /** Version comes second: one log line with the version, and nothing else. */
  lemma VersionMode(options: CommandLineOptions, col: Collaborators, host: Host, files: map<Path, string>)
    requires !options.showHelp && options.showVersion
    ensures Run(options, col, host, files) == RunResult([Log(col.packageVersion)], files, Completed)
  {
  }

  /**
   * A config file that does not load fails the run before anything else
   * happens: no warning, no discovery, no file touched.
   */
  lemma ConfigLoadFailureStops(options: CommandLineOptions, col: Collaborators, host: Host, files: map<Path, string>)
    requires ResolvesConfig(options)
    requires col.resolveConfigFile(options.config, files).Err?
    ensures Run(options, col, host, files)
         == RunResult([LoadConfig(options.config)], files,
                      Failed(ConfigLoadFailed(col.resolveConfigFile(options.config, files).error)))
  {
  }

  /**
   * A discovery failure fails the run after the diagnostics are warned and
   * before any file is read or written.
   */
  lemma DiscoveryFailureStops(options: CommandLineOptions, col: Collaborators, host: Host, files: map<Path, string>)
    requires ResolvesConfig(options)
    requires col.resolveConfigFile(options.config, files).Ok?
    requires host.discover(options.filePatterns, files).None?
    ensures Run(options, col, host, files) == RunResult(Discovery(options, col, files), files, Failed(DiscoveryFailed))
  {
  }

  /** How many effects of each kind a mode performs after the glob call. */
  lemma ModeCount(options: CommandLineOptions, col: Collaborators, host: Host,
                  files: map<Path, string>, paths: seq<Path>, kind: Kind)
    requires col.resolveConfigFile(options.config, files).Ok?
    requires host.discover(options.filePatterns, files) == Some(paths)
    ensures Count(ModeEffects(options, col, host, files), kind) ==
            if options.outputFilePaths then (if kind == LogKind then |paths| else 0)
            else if options.outputResolvedConfig then (if kind == LogKind then 1 else 0)
            else ((if kind == ReadKind then |paths| else 0)
                  + (if kind == WriteKind then |paths| - ReadFailures(host, files, paths) else 0))
  {
    var config := Resolution(options, col, files).config;
    if options.outputFilePaths {
      LogAllCount(paths, kind);
    } else if options.outputResolvedConfig {
      CountSingle(Log(col.stringify(config)), kind);
    } else {
      ReadAllCount(paths, kind);
      WriteAllCount(host, files, col, config, paths, kind);
      CountConcat(ReadAll(paths), WriteAll(host, files, col, config, paths), kind);
    }
  }

  /** No mode warns after the glob call. */
  lemma ModeHasNoWarning(options: CommandLineOptions, col: Collaborators, host: Host, files: map<Path, string>)
    requires col.resolveConfigFile(options.config, files).Ok?
    ensures Count(ModeEffects(options, col, host, files), WarnKind) == 0
  {
    match host.discover(options.filePatterns, files)
    case None =>
    case Some(paths) =>
      ModeCount(options, col, host, files, paths, WarnKind);
  }

  /** Counting a whole run from its discovery part and its mode part. */
  lemma RunCount(options: CommandLineOptions, col: Collaborators, host: Host, files: map<Path, string>, kind: Kind)
    requires ResolvesConfig(options)
    requires col.resolveConfigFile(options.config, files).Ok?
    ensures Count(Run(options, col, host, files).trace, kind)
         == Count(Discovery(options, col, files), kind) + Count(ModeEffects(options, col, host, files), kind)
  {
    DiscoveryThenMode(options, col, host, files);
    CountConcat(Discovery(options, col, files), ModeEffects(options, col, host, files), kind);
  }

  /**
   * In every mode but help and version the configuration is resolved exactly
   * once, from options.config, before anything else happens.
   */
  lemma ConfigResolvedOnce(options: CommandLineOptions, col: Collaborators, host: Host, files: map<Path, string>)
    requires ResolvesConfig(options)
    ensures var trace := Run(options, col, host, files).trace;
      && |trace| > 0 && trace[0] == LoadConfig(options.config)
      && Count(trace, LoadConfigKind) == 1
  {
    CountSingle(LoadConfig(options.config), LoadConfigKind);
    if col.resolveConfigFile(options.config, files).Ok? {
      DiscoveryCount(options, col, files, LoadConfigKind);
      RunCount(options, col, host, files, LoadConfigKind);
      match host.discover(options.filePatterns, files)
      case None =>
      case Some(paths) =>
        ModeCount(options, col, host, files, paths, LoadConfigKind);
    }
  }

  /**
   * A trace made of a config load, warnings, a glob call and effects without
   * warnings holds the warnings right after the load and none after the glob.
   */
  lemma WarningsThenGlob(config: Option<Path>, warnings: seq<Effect>, patterns: seq<string>,
                         mode: seq<Effect>, diagnostics: seq<Diagnostic>)
    requires |warnings| == |diagnostics|
    requires forall i :: 0 <= i < |diagnostics| ==> warnings[i] == Warn(diagnostics[i].message)
    requires forall i :: 0 <= i < |mode| ==> KindOf(mode[i]) != WarnKind
    ensures var trace := [LoadConfig(config)] + warnings + [Glob(patterns)] + mode;
      && |trace| >= |diagnostics| + 2
      && (forall i :: 0 <= i < |diagnostics| ==> trace[1 + i] == Warn(diagnostics[i].message))
      && trace[|diagnostics| + 1] == Glob(patterns)
      && (forall j :: |diagnostics| + 1 <= j < |trace| ==> KindOf(trace[j]) != WarnKind)
  {
  }

  /** Outside help and version, once the config file loads, a run warns once per diagnostic. */
  lemma WarningCount(options: CommandLineOptions, col: Collaborators, host: Host, files: map<Path, string>)
    requires ResolvesConfig(options)
    requires col.resolveConfigFile(options.config, files).Ok?
    ensures Count(Run(options, col, host, files).trace, WarnKind) == |Resolution(options, col, files).diagnostics|
  {
    DiscoveryCount(options, col, files, WarnKind);
    ModeHasNoWarning(options, col, host, files);
    RunCount(options, col, host, files, WarnKind);
  }

  /**
   * In every mode but help and version, once the config file loads, every
   * diagnostic is warned, in list order, right after the load; then comes the
   * glob call, and no warning follows it.
   */
  lemma DiagnosticsWarnedBeforeGlob(options: CommandLineOptions, col: Collaborators, host: Host, files: map<Path, string>)
    requires ResolvesConfig(options)
    requires col.resolveConfigFile(options.config, files).Ok?
    ensures var trace := Run(options, col, host, files).trace;
      var diagnostics := Resolution(options, col, files).diagnostics;
      && |trace| >= |diagnostics| + 2
      && (forall i :: 0 <= i < |diagnostics| ==> trace[1 + i] == Warn(diagnostics[i].message))
      && trace[|diagnostics| + 1] == Glob(options.filePatterns)
      && Count(trace, WarnKind) == |diagnostics|
      && (forall j :: |diagnostics| + 1 <= j < |trace| ==> KindOf(trace[j]) != WarnKind)
  {
    var diagnostics := Resolution(options, col, files).diagnostics;
    var mode := ModeEffects(options, col, host, files);
    DiscoveryThenMode(options, col, host, files);
    WarnAllAt(diagnostics);
    ModeHasNoWarning(options, col, host, files);
    CountZero(mode, WarnKind);
    WarningsThenGlob(options.config, WarnAll(diagnostics), options.filePatterns, mode, diagnostics);
    WarningCount(options, col, host, files);
  }

  /**
   * In every mode but help and version, once the config file loads, glob is
   * called exactly once, with options.filePatterns; print-config mode included.
   */
  lemma GlobOnce(options: CommandLineOptions, col: Collaborators, host: Host, files: map<Path, string>)
    requires ResolvesConfig(options)
    requires col.resolveConfigFile(options.config, files).Ok?
    ensures var trace := Run(options, col, host, files).trace;
      && Glob(options.filePatterns) in trace
      && Count(trace, GlobKind) == 1
  {
    var trace := Run(options, col, host, files).trace;
    var diagnostics := Resolution(options, col, files).diagnostics;
    DiscoveryThenMode(options, col, host, files);
    assert trace[|diagnostics| + 1] == Glob(options.filePatterns);
    DiscoveryCount(options, col, files, GlobKind);
    RunCount(options, col, host, files, GlobKind);
    match host.discover(options.filePatterns, files)
    case None =>
    case Some(paths) =>
      ModeCount(options, col, host, files, paths, GlobKind);
  }

  /**
   * List-files mode, which takes precedence over print-config: after the glob
   * call, one log line per discovered path in discovery order, and nothing
   * else; no file is read or written.
   */
  lemma ListFilesMode(options: CommandLineOptions, col: Collaborators, host: Host,
                      files: map<Path, string>, paths: seq<Path>)
    requires ResolvesConfig(options) && options.outputFilePaths
    requires col.resolveConfigFile(options.config, files).Ok?
    requires host.discover(options.filePatterns, files) == Some(paths)
    ensures var r := Run(options, col, host, files);
      var start := |Resolution(options, col, files).diagnostics| + 2;
      && r.outcome == Completed && r.files == files
      && |r.trace| == start + |paths|
      && (forall i :: 0 <= i < |paths| ==> r.trace[start + i] == Log(paths[i]))
      && Count(r.trace, LogKind) == |paths|
      && Count(r.trace, ReadKind) == 0 && Count(r.trace, WriteKind) == 0
  {
    var r := Run(options, col, host, files);
    DiscoveryThenMode(options, col, host, files);
    LogAllAt(paths);
    forall kind | kind in {LogKind, ReadKind, WriteKind}
      ensures Count(r.trace, kind) == if kind == LogKind then |paths| else 0
    {
      DiscoveryCount(options, col, files, kind);
      ModeCount(options, col, host, files, paths, kind);
      RunCount(options, col, host, files, kind);
    }
  }

  /**
   * Print-config mode: after the glob call, exactly one log line, the
   * serialized resolved config; no file is read or written.
   */
  lemma PrintConfigMode(options: CommandLineOptions, col: Collaborators, host: Host,
                        files: map<Path, string>, paths: seq<Path>)
    requires ResolvesConfig(options) && !options.outputFilePaths && options.outputResolvedConfig
    requires col.resolveConfigFile(options.config, files).Ok?
    requires host.discover(options.filePatterns, files) == Some(paths)
    ensures var r := Run(options, col, host, files);
      && r.outcome == Completed && r.files == files
      && |r.trace| == |Resolution(options, col, files).diagnostics| + 3
      && r.trace[|r.trace| - 1] == Log(col.stringify(Resolution(options, col, files).config))
      && Count(r.trace, LogKind) == 1
      && Count(r.trace, ReadKind) == 0 && Count(r.trace, WriteKind) == 0
  {
    var r := Run(options, col, host, files);
    DiscoveryThenMode(options, col, host, files);
    forall kind | kind in {LogKind, ReadKind, WriteKind}
      ensures Count(r.trace, kind) == if kind == LogKind then 1 else 0
    {
      DiscoveryCount(options, col, files, kind);
      ModeCount(options, col, host, files, paths, kind);
      RunCount(options, col, host, files, kind);
    }
  }

  /**
   * A trace made of effects without writes, then one read per path, then writes
   * only, splits at those two points.
   */
  lemma SplitKinds(discovery: seq<Effect>, readEffects: seq<Effect>, writeEffects: seq<Effect>, paths: seq<Path>)
    requires Count(discovery, WriteKind) == 0
    requires |readEffects| == |paths| && forall i :: 0 <= i < |paths| ==> readEffects[i] == Read(paths[i])
    requires forall e :: e in writeEffects ==> e.Write?
    ensures var trace := discovery + readEffects + writeEffects;
      var start := |discovery|;
      && (forall i :: 0 <= i < start ==> KindOf(trace[i]) != WriteKind)
      && (forall i :: start <= i < start + |paths| ==> trace[i] == Read(paths[i - start]))
      && (forall i :: start + |paths| <= i < |trace| ==> KindOf(trace[i]) == WriteKind)
  {
    var trace := discovery + readEffects + writeEffects;
    CountZero(discovery, WriteKind);
    forall i | |discovery| + |paths| <= i < |trace|
      ensures KindOf(trace[i]) == WriteKind
    {
      assert trace[i] == writeEffects[i - |discovery| - |paths|];
      assert writeEffects[i - |discovery| - |paths|] in writeEffects;
    }
  }

  /**
   * A trace split into effects without writes, one read per path from `start`
   * on, then writes only: the reads sit at start + i, and no read follows a write.
   */
  lemma ReadsThenWrites(trace: seq<Effect>, start: nat, paths: seq<Path>)
    requires start + |paths| <= |trace|
    requires forall i :: 0 <= i < start ==> KindOf(trace[i]) != WriteKind
    requires forall i :: start <= i < start + |paths| ==> trace[i] == Read(paths[i - start])
    requires forall i :: start + |paths| <= i < |trace| ==> KindOf(trace[i]) == WriteKind
    ensures forall i :: 0 <= i < |paths| ==> trace[start + i] == Read(paths[i])
    ensures forall i, j :: 0 <= i < j < |trace| && KindOf(trace[i]) == WriteKind ==> KindOf(trace[j]) != ReadKind
  {
  }

  /** Format mode's trace: the discovery effects, one read per path, then the continuations' writes. */
  lemma FormatTrace(options: CommandLineOptions, col: Collaborators, host: Host,
                    files: map<Path, string>, paths: seq<Path>)
    requires FormatsFiles(options)
    requires col.resolveConfigFile(options.config, files).Ok?
    requires host.discover(options.filePatterns, files) == Some(paths)
    ensures Run(options, col, host, files).trace
         == Discovery(options, col, files) + ReadAll(paths)
            + WriteAll(host, files, col, Resolution(options, col, files).config, paths)
  {
  }

  /**
   * Format mode's trace in three parts: the discovery effects, which hold no
   * write; one read per path; then only writes.
   */
  lemma FormatTraceKinds(options: CommandLineOptions, col: Collaborators, host: Host,
                         files: map<Path, string>, paths: seq<Path>)
    requires FormatsFiles(options)
    requires col.resolveConfigFile(options.config, files).Ok?
    requires host.discover(options.filePatterns, files) == Some(paths)
    ensures var trace := Run(options, col, host, files).trace;
      var start := |Resolution(options, col, files).diagnostics| + 2;
      && |trace| >= start + |paths|
      && (forall i :: 0 <= i < start ==> KindOf(trace[i]) != WriteKind)
      && (forall i :: start <= i < start + |paths| ==> trace[i] == Read(paths[i - start]))
      && (forall i :: start + |paths| <= i < |trace| ==> KindOf(trace[i]) == WriteKind)
  {
    var discovery := Discovery(options, col, files);
    var config := Resolution(options, col, files).config;
    FormatTrace(options, col, host, files, paths);
    ReadAllAt(paths);
    DiscoveryCount(options, col, files, WriteKind);
    WriteAllWrites(host, files, col, config, paths);
    SplitKinds(discovery, ReadAll(paths), WriteAll(host, files, col, config, paths), paths);
  }

  /**
   * Format mode reads: exactly one read per discovered path, in discovery
   * order, right after the glob call; no write comes before any read.
   */
  lemma FormatReadsEveryPath(options: CommandLineOptions, col: Collaborators, host: Host,
                             files: map<Path, string>, paths: seq<Path>)
    requires FormatsFiles(options)
    requires col.resolveConfigFile(options.config, files).Ok?
    requires host.discover(options.filePatterns, files) == Some(paths)
    ensures var trace := Run(options, col, host, files).trace;
      var start := |Resolution(options, col, files).diagnostics| + 2;
      && |trace| >= start + |paths|
      && (forall i :: 0 <= i < |paths| ==> trace[start + i] == Read(paths[i]))
      && Count(trace, ReadKind) == |paths|
      && (forall i, j :: 0 <= i < j < |trace| && KindOf(trace[i]) == WriteKind ==> KindOf(trace[j]) != ReadKind)
  {
    FormatTraceKinds(options, col, host, files, paths);
    ReadsThenWrites(Run(options, col, host, files).trace, |Resolution(options, col, files).diagnostics| + 2, paths);
    FormatReadCount(options, col, host, files, paths);
  }

  /** Format mode reads as many times as glob listed paths. */
  lemma FormatReadCount(options: CommandLineOptions, col: Collaborators, host: Host,
                        files: map<Path, string>, paths: seq<Path>)
    requires FormatsFiles(options)
    requires col.resolveConfigFile(options.config, files).Ok?
    requires host.discover(options.filePatterns, files) == Some(paths)
    ensures Count(Run(options, col, host, files).trace, ReadKind) == |paths|
  {
    DiscoveryCount(options, col, files, ReadKind);
    ModeCount(options, col, host, files, paths, ReadKind);
    RunCount(options, col, host, files, ReadKind);
  }

  /** Format mode writes once per successful read: writes and failed reads add up to the paths. */
  lemma FormatWriteCount(options: CommandLineOptions, col: Collaborators, host: Host,
                         files: map<Path, string>, paths: seq<Path>)
    requires FormatsFiles(options)
    requires col.resolveConfigFile(options.config, files).Ok?
    requires host.discover(options.filePatterns, files) == Some(paths)
    ensures Count(Run(options, col, host, files).trace, WriteKind) + ReadFailures(host, files, paths) == |paths|
  {
    DiscoveryCount(options, col, files, WriteKind);
    ModeCount(options, col, host, files, paths, WriteKind);
    RunCount(options, col, host, files, WriteKind);
  }

  /**
   * Format mode writes: every write goes to a discovered path whose read
   * succeeded and carries formatFileText of that path, of the text read and of
   * the one resolved config; every successful read is followed by that write,
   * whatever happened to the other paths.
   */
  lemma FormatWritesFormattedText(options: CommandLineOptions, col: Collaborators, host: Host,
                                  files: map<Path, string>, paths: seq<Path>)
    requires FormatsFiles(options)
    requires col.resolveConfigFile(options.config, files).Ok?
    requires host.discover(options.filePatterns, files) == Some(paths)
    ensures var trace := Run(options, col, host, files).trace;
      var config := Resolution(options, col, files).config;
      && (forall e :: e in trace && e.Write? ==>
            e.path in paths && ReadStep(host, files, e.path).Ok? &&
            e.path in files && e.text == col.formatFileText(e.path, files[e.path], config))
      && (forall i :: 0 <= i < |paths| && ReadStep(host, files, paths[i]).Ok? ==>
            paths[i] in files && Write(paths[i], col.formatFileText(paths[i], files[paths[i]], config)) in trace)
  {
    var trace := Run(options, col, host, files).trace;
    var discovery := Discovery(options, col, files);
    var config := Resolution(options, col, files).config;
    var readEffects := ReadAll(paths);
    var writeEffects := WriteAll(host, files, col, config, paths);
    DiscoveryThenMode(options, col, host, files);
    assert trace == discovery + (readEffects + writeEffects);
    DiscoveryCount(options, col, files, WriteKind);
    WriteAllWrites(host, files, col, config, paths);
    CountZero(discovery, WriteKind);
    ReadAllAt(paths);
    forall e | e in trace && e.Write?
      ensures e in writeEffects
    {
    }
  }

  /**
   * When glob lists no path twice, each readable discovered path is written
   * exactly once, and no other path is written at all.
   */
  lemma FormatWritesEachPathOnce(options: CommandLineOptions, col: Collaborators, host: Host,
                                 files: map<Path, string>, paths: seq<Path>, path: Path)
    requires FormatsFiles(options)
    requires col.resolveConfigFile(options.config, files).Ok?
    requires host.discover(options.filePatterns, files) == Some(paths)
    requires forall i, j :: 0 <= i < j < |paths| ==> paths[i] != paths[j]
    ensures WritesTo(Run(options, col, host, files).trace, path)
         == if path in paths && ReadStep(host, files, path).Ok? then 1 else 0
  {
    var discovery := Discovery(options, col, files);
    var config := Resolution(options, col, files).config;
    var readEffects := ReadAll(paths);
    var writeEffects := WriteAll(host, files, col, config, paths);
    DiscoveryThenMode(options, col, host, files);
    DiscoveryCount(options, col, files, WriteKind);
    ReadAllCount(paths, WriteKind);
    WritesToAtMostWrites(discovery, path);
    WritesToAtMostWrites(readEffects, path);
    WritesToConcat(discovery, readEffects + writeEffects, path);
    WritesToConcat(readEffects, writeEffects, path);
    WriteAllWritesTo(host, files, col, config, paths, path);
    DistinctMultiplicity(paths, path);
  }

  /**
   * A failed read costs only its own write: no write goes to that path, and
   * every other readable path is still written.
   */
  lemma FailedReadSkipsOnlyItsWrite(options: CommandLineOptions, col: Collaborators, host: Host,
                                    files: map<Path, string>, paths: seq<Path>, failed: Path)
    requires FormatsFiles(options)
    requires col.resolveConfigFile(options.config, files).Ok?
    requires host.discover(options.filePatterns, files) == Some(paths)
    requires failed in paths && ReadStep(host, files, failed).Err?
    ensures var trace := Run(options, col, host, files).trace;
      var config := Resolution(options, col, files).config;
      && (forall e :: e in trace && e.Write? ==> e.path != failed)
      && (forall i :: 0 <= i < |paths| && ReadStep(host, files, paths[i]).Ok? ==>
            paths[i] in files && Write(paths[i], col.formatFileText(paths[i], files[paths[i]], config)) in trace)
      && Run(options, col, host, files).outcome.Failed?
  {
    FormatWritesFormattedText(options, col, host, files, paths);
    FormatFailsIffTaskFails(options, col, host, files, paths);
    var i :| 0 <= i < |paths| && paths[i] == failed;
  }

  /**
   * Format mode's files: the same file names as before; a discovered path
   * that could be read and written holds formatFileText of its old contents
   * under the resolved config; every other file, discovered or not, is as it was.
   */
  lemma FormatFilesResult(options: CommandLineOptions, col: Collaborators, host: Host,
                          files: map<Path, string>, paths: seq<Path>)
    requires FormatsFiles(options)
    requires col.resolveConfigFile(options.config, files).Ok?
    requires host.discover(options.filePatterns, files) == Some(paths)
    ensures var after := Run(options, col, host, files).files;
      var config := Resolution(options, col, files).config;
      && after.Keys == files.Keys
      && forall p :: p in files ==>
           after[p] == if p in paths && p !in host.unreadable && p !in host.unwritable
                       then col.formatFileText(p, files[p], config) else files[p]
  {
    FormattedContents(host, files, col, Resolution(options, col, files).config, paths);
  }

  /**
   * Format mode's outcome: the run fails exactly when some discovered path
   * cannot be read or cannot be written, and then with the failure of one of
   * those tasks.
   */
  lemma FormatFailsIffTaskFails(options: CommandLineOptions, col: Collaborators, host: Host,
                                files: map<Path, string>, paths: seq<Path>)
    requires FormatsFiles(options)
    requires col.resolveConfigFile(options.config, files).Ok?
    requires host.discover(options.filePatterns, files) == Some(paths)
    ensures var outcome := Run(options, col, host, files).outcome;
      && (outcome.Failed? <==>
            exists i :: 0 <= i < |paths| && (ReadStep(host, files, paths[i]).Err? || paths[i] in host.unwritable))
      && (outcome.Failed? ==>
            exists i :: 0 <= i < |paths| && TaskFailure(host, files, paths[i]) == Some(outcome.error))
  {
    FirstFailureIsFirst(host, files, paths);
    assert forall i :: 0 <= i < |paths| ==>
      (TaskFailure(host, files, paths[i]).Some? <==> ReadStep(host, files, paths[i]).Err? || paths[i] in host.unwritable);
  }

  /**
   * Running format mode twice with a formatter that is idempotent leaves the
   * files as the first run left them, provided the second run resolves the
   * same configuration and discovers the same paths.
   */
  lemma FormatTwiceIsFormatOnce(options: CommandLineOptions, col: Collaborators, host: Host, files: map<Path, string>)
    requires FormatsFiles(options)
    requires forall p, text, config :: col.formatFileText(p, col.formatFileText(p, text, config), config)
                                      == col.formatFileText(p, text, config)
    requires var once := Run(options, col, host, files).files;
      && col.resolveConfigFile(options.config, once) == col.resolveConfigFile(options.config, files)
      && host.discover(options.filePatterns, once) == host.discover(options.filePatterns, files)
    ensures var once := Run(options, col, host, files).files;
      Run(options, col, host, once).files == once
  {
    var once := Run(options, col, host, files).files;
    if col.resolveConfigFile(options.config, files).Ok? {
      match host.discover(options.filePatterns, files)
      case None =>
      case Some(paths) =>
        var config := Resolution(options, col, files).config;
        assert Resolution(options, col, once).config == config;
        FormatFilesResult(options, col, host, files, paths);
        FormatFilesResult(options, col, host, once, paths);
        var twice := Run(options, col, host, once).files;
        assert twice.Keys == once.Keys;
        forall p | p in once
          ensures twice[p] == once[p]
        {
        }
    }
  }
}
