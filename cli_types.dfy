/**
 * The values the orchestrator consumes: parsed command line options, the
 * configuration types, and the collaborators whose sources are not part of this
 * model, passed in as function values.
 */
module CliTypes {
  import opened Wrappers
  import opened EnvironmentPort

  datatype CommandLineOptions = CommandLineOptions(
    showHelp: bool,
    showVersion: bool,
    config: Option<Path>,
    filePatterns: seq<string>,
    outputFilePaths: bool,
    outputResolvedConfig: bool)

  /** The raw configuration as loaded from a config file; its structure is not modelled. */
  type UnresolvedConfiguration

  /** The validated settings consumed by the formatter; their structure is not modelled. */
  type ResolvedConfiguration

  datatype Diagnostic = Diagnostic(message: string)

  datatype ConfigResolutionResult = ConfigResolutionResult(
    config: ResolvedConfiguration,
    diagnostics: seq<Diagnostic>)

  /**
   * The functions runCli.ts imports.  `resolveConfigFile` sees the files of the
   * environment it is handed and may fail with a message; `stringify` stands for
   * JSON.stringify.
   */
  datatype Collaborators = Collaborators(
    parseCommandLineArgs: seq<string> -> CommandLineOptions,
    helpText: string,
    packageVersion: string,
    resolveConfigFile: (Option<Path>, map<Path, string>) -> Result<UnresolvedConfiguration, string>,
    resolveConfiguration: UnresolvedConfiguration -> ConfigResolutionResult,
    formatFileText: (Path, string, ResolvedConfiguration) -> string,
    stringify: ResolvedConfiguration -> string)

  datatype CliError =
    | ConfigLoadFailed(message: string)
    | DiscoveryFailed
    | ReadFailed(path: Path, error: IoError)
    | WriteFailed(path: Path, error: IoError)

  /** How the promise returned by runCliWithOptions settles. */
  datatype Outcome = Completed | Failed(error: CliError)

  /** The modes in which configuration is resolved and files are discovered. */
  predicate ResolvesConfig(options: CommandLineOptions) {
    !options.showHelp && !options.showVersion
  }

  /** The default mode: format every discovered file. */
  predicate FormatsFiles(options: CommandLineOptions) {
    ResolvesConfig(options) && !options.outputFilePaths && !options.outputResolvedConfig
  }
}
