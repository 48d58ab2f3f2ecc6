/**
 * runCli and runCliWithOptions: the orchestrator.  It dispatches on the mode
 * flags (help, then version, then list files, then print the resolved config,
 * else format), and in format mode reads, formats and writes every discovered
 * file through the environment.
 */
module RunCli {
  import opened Wrappers
  import opened EnvironmentPort
  import opened CliTypes
  import opened RunSpec

  /**
   * The call into the config file loader: it is handed the environment, which
   * records that hand-over, and loads from the files the environment holds.
   */
  method ResolveConfigFile(config: Option<Path>, col: Collaborators, environment: Environment)
    returns (unresolved: Result<UnresolvedConfiguration, string>)
    modifies environment`trace
    ensures environment.trace == old(environment.trace) + [LoadConfig(config)]
    ensures unresolved == col.resolveConfigFile(config, environment.files)
  {
    environment.trace := environment.trace + [LoadConfig(config)];
    unresolved := col.resolveConfigFile(config, environment.files);
  }

  method RunCli(args: seq<string>, col: Collaborators, environment: Environment) returns (outcome: Outcome)
    modifies environment
    ensures var expected := Run(col.parseCommandLineArgs(args), col, environment.host, old(environment.files));
      && environment.trace == old(environment.trace) + expected.trace
      && environment.files == expected.files
      && outcome == expected.outcome
  {
    var options := col.parseCommandLineArgs(args);
    outcome := RunCliWithOptions(options, col, environment);
  }

  /** Lines 29-30: one warning per diagnostic, in list order. */
  method WarnDiagnostics(diagnostics: seq<Diagnostic>, environment: Environment)
    modifies environment`trace
    ensures environment.trace == old(environment.trace) + WarnAll(diagnostics)
  {
    for i := 0 to |diagnostics|
      invariant environment.trace == old(environment.trace) + WarnAll(diagnostics[..i])
    {
      assert diagnostics[..i + 1][..i] == diagnostics[..i];
      environment.Warn(diagnostics[i].message);
    }
    assert diagnostics[..|diagnostics|] == diagnostics;
  }

  /** Lines 35-36: one log line per discovered path, in discovery order. */
  method LogFilePaths(filePaths: seq<Path>, environment: Environment)
    modifies environment`trace
    ensures environment.trace == old(environment.trace) + LogAll(filePaths)
  {
    for i := 0 to |filePaths|
      invariant environment.trace == old(environment.trace) + LogAll(filePaths[..i])
    {
      assert filePaths[..i + 1][..i] == filePaths[..i];
      environment.Log(filePaths[i]);
    }
    assert filePaths[..|filePaths|] == filePaths;
  }

  /**
   * Lines 47-53, the launch: the loop calls readFile for every path before any
   * continuation runs, so every read sees the same files.
   */
  method LaunchReads(filePaths: seq<Path>, environment: Environment)
    returns (pending: seq<Result<string, IoError>>)
    modifies environment`trace
    ensures environment.trace == old(environment.trace) + ReadAll(filePaths)
    ensures |pending| == |filePaths|
    ensures forall k :: 0 <= k < |filePaths| ==> pending[k] == ReadStep(environment.host, environment.files, filePaths[k])
  {
    pending := [];
    for i := 0 to |filePaths|
      invariant environment.trace == old(environment.trace) + ReadAll(filePaths[..i])
      invariant |pending| == i
      invariant forall k :: 0 <= k < i ==> pending[k] == ReadStep(environment.host, environment.files, filePaths[k])
    {
      assert filePaths[..i + 1][..i] == filePaths[..i];
      var read := environment.ReadFile(filePaths[i]);
      pending := pending + [read];
    }
    assert filePaths[..|filePaths|] == filePaths;
  }

  /**
   * Lines 48-55, the join: each continuation formats the text its read produced
   * under the one resolved config and writes it back; the joined promise fails
   * with the first failing task in discovery order.
   */
  method JoinTasks(filePaths: seq<Path>, pending: seq<Result<string, IoError>>, col: Collaborators,
                   config: ResolvedConfiguration, environment: Environment)
    returns (failure: Option<CliError>)
    requires |pending| == |filePaths|
    requires forall k :: 0 <= k < |filePaths| ==> pending[k] == ReadStep(environment.host, environment.files, filePaths[k])
    modifies environment`trace, environment`files
    ensures environment.trace == old(environment.trace) + WriteAll(environment.host, old(environment.files), col, config, filePaths)
    ensures environment.files == Formatted(environment.host, old(environment.files), col, config, filePaths)
    ensures failure == FirstFailure(environment.host, old(environment.files), filePaths)
  {
    ghost var files := environment.files;
    failure := None;
    for i := 0 to |filePaths|
      invariant environment.trace == old(environment.trace) + WriteAll(environment.host, files, col, config, filePaths[..i])
      invariant environment.files == Formatted(environment.host, files, col, config, filePaths[..i])
      invariant failure == FirstFailure(environment.host, files, filePaths[..i])
      invariant forall k :: 0 <= k < |filePaths| ==> pending[k] == ReadStep(environment.host, files, filePaths[k])
    {
      PipelineStep(environment.host, files, col, config, filePaths, i);
      var path := filePaths[i];
      assert pending[i] == ReadStep(environment.host, files, path);
      var taskFailure: Option<CliError> := None;
      match pending[i] {
        case Err(e) =>
          taskFailure := Some(ReadFailed(path, e));
        case Ok(fileText) =>
          assert path in files && fileText == files[path];
          var result := col.formatFileText(path, fileText, config);
          var written := environment.WriteFile(path, result);
          if written.Some? {
            taskFailure := Some(WriteFailed(path, written.value));
          }
      }
      if failure.None? {
        failure := taskFailure;
      }
    }
    assert filePaths[..|filePaths|] == filePaths;
  }

  /** Lines 45-55: launch every task, then join them all. */
  method FormatFiles(filePaths: seq<Path>, col: Collaborators, config: ResolvedConfiguration, environment: Environment)
    returns (outcome: Outcome)
    modifies environment`trace, environment`files
    ensures var expected := Pipeline(environment.host, old(environment.files), col, config, filePaths);
      && environment.trace == old(environment.trace) + expected.trace
      && environment.files == expected.files
      && outcome == expected.outcome
  {
    var pending := LaunchReads(filePaths, environment);
    var failure := JoinTasks(filePaths, pending, col, config, environment);
    outcome := match failure
      case None => Completed
      case Some(e) => Failed(e);
  }

  /** Lines 29-55: everything runCliWithOptions does after resolving the configuration. */
  method RunResolvedWithOptions(options: CommandLineOptions, col: Collaborators,
                                configResult: ConfigResolutionResult, environment: Environment)
    returns (outcome: Outcome)
    modifies environment`trace, environment`files
    ensures var expected := RunResolved(options, col, environment.host, old(environment.files), configResult);
      && environment.trace == old(environment.trace) + expected.trace
      && environment.files == expected.files
      && outcome == expected.outcome
  {
    ghost var files := environment.files;
    ghost var expected := RunResolved(options, col, environment.host, files, configResult);
    var config := configResult.config;
    WarnDiagnostics(configResult.diagnostics, environment);

    var discovered := environment.Glob(options.filePatterns);
    ghost var discovery := WarnAll(configResult.diagnostics) + [Glob(options.filePatterns)];
    assert environment.trace == old(environment.trace) + discovery;
    if discovered.None? {
      return Failed(DiscoveryFailed);
    }
    var filePaths := discovered.value;

    if options.outputFilePaths {
      LogFilePaths(filePaths, environment);
      return Completed;
    } else if options.outputResolvedConfig {
      environment.Log(col.stringify(config));
      return Completed;
    }

    ghost var pipeline := Pipeline(environment.host, files, col, config, filePaths);
    assert expected == RunResult(discovery + pipeline.trace, pipeline.files, pipeline.outcome);
    outcome := FormatFiles(filePaths, col, config, environment);
    assert environment.trace == old(environment.trace) + discovery + pipeline.trace;
  }

  method RunCliWithOptions(options: CommandLineOptions, col: Collaborators, environment: Environment)
    returns (outcome: Outcome)
    modifies environment
    ensures var expected := Run(options, col, environment.host, old(environment.files));
      && environment.trace == old(environment.trace) + expected.trace
      && environment.files == expected.files
      && outcome == expected.outcome
  {
    if options.showHelp {
      environment.Log(col.helpText);
      return Completed;
    } else if options.showVersion {
      environment.Log(col.packageVersion);
      return Completed;
    }

    var unresolvedConfiguration := ResolveConfigFile(options.config, col, environment);
    if unresolvedConfiguration.Err? {
      return Failed(ConfigLoadFailed(unresolvedConfiguration.error));
    }
    var configResult := col.resolveConfiguration(unresolvedConfiguration.value);
    outcome := RunResolvedWithOptions(options, col, configResult, environment);
  }
}
