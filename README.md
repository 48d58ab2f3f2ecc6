# dprint command line orchestrator, modelled in Dafny

This project models `runCliWithOptions`, the orchestrator behind dprint's
command line (`src/cli/runCli.ts`), and proves what it does in each mode.

The orchestrator picks one mode, in a fixed order of precedence:

1. help;
2. version;
3. list the discovered files;
4. print the resolved configuration;
5. otherwise, format every discovered file.

Outside help and version it first loads the config file, resolves the
configuration and warns each diagnostic. It then expands the file patterns.
In format mode it starts one read-format-write task per discovered path and
joins them all.

Every side effect goes through the injected `Environment`. In the model that
is the class `EnvironmentPort.Environment`. It holds:

- a trace of effects (`log`, `warn`, `glob`, `readFile`, `writeFile`, plus one
  marker for the hand-over of the environment to the config file loader);
- an in-memory file map;
- a `Host` value that decides how patterns expand and which paths cannot be
  read or written.

Files:

- `wrappers.dfy`: the `Option` and `Result` datatypes.
- `environment.dfy`: the `Environment` class, the effect trace and counting
  over it.
- `cli_types.dfy`: the options, the configuration types and the `Collaborators`
  value. This value carries the functions runCli.ts imports but whose sources
  are not part of this model, as function values: `parseCommandLineArgs`,
  `getHelpText`, `getPackageVersion`, `resolveConfigFile`,
  `resolveConfiguration`, `formatFileText` and `JSON.stringify`.
- `run_spec.dfy`: `RunSpec.Run`, the specification function. It gives the
  effects, final files and outcome of one invocation.
- `run_cli.dfy`: the imperative model. `RunCli.RunCliWithOptions` and its loops
  are proved to follow `RunSpec.Run` exactly.
- `run_cli_properties.dfy`: the properties of `RunSpec.Run`, one lemma per
  property.

The per-file pipeline follows the way the promises run. The `for` loop at
lines 47-53 calls `readFile` for every path before any `.then` continuation
can run, so every read sees the starting files. The continuations then run:
each formats the text it read and writes it back. The model runs them in
discovery order.

Print-config mode also calls `glob` once, because `runCli.ts` calls it at
line 32, before the `outputResolvedConfig` check at line 39
(`RunCliProperties.GlobOnce`). A failed discovery therefore fails
print-config mode too (`RunCliProperties.DiscoveryFailureStops`).
Diagnostics are warned in list-files and print-config modes as well as in
format mode.

## Model

| member | source | states |
|---|---|---|
| EnvironmentPort.Environment.Log | src/cli/runCli.ts:17 | a log call appends exactly one log effect with its message and changes no file |
| EnvironmentPort.Environment.Warn | src/cli/runCli.ts:30 | a warn call appends exactly one warn effect with its message and changes no file |
| EnvironmentPort.Environment.Glob | src/cli/runCli.ts:32 | a glob call is recorded with its patterns; it returns the host's expansion of them over the current files, or None for a discovery failure |
| EnvironmentPort.Environment.ReadFile | src/cli/runCli.ts:48 | a read is recorded; it yields the file's contents when the file exists and is readable, NotFound or PermissionDenied otherwise, and changes no file |
| EnvironmentPort.Environment.WriteFile | src/cli/runCli.ts:50 | a write attempt is recorded; on success only that path changes, to the new text; on PermissionDenied no file changes |
| RunSpec.WarnAll | src/cli/runCli.ts:29-30 | the warn loop produces exactly as many warnings as there are diagnostics |
| RunSpec.WarnAllAt | src/cli/runCli.ts:29-30 | the i-th warning carries the i-th diagnostic's message: every diagnostic, in list order |
| RunSpec.WarnAllCount | src/cli/runCli.ts:29-30 | the warn loop performs only warnings, one per diagnostic |
| RunSpec.LogAll | src/cli/runCli.ts:35-36 | the listing loop logs exactly as many lines as there are discovered paths |
| RunSpec.LogAllAt | src/cli/runCli.ts:35-36 | the i-th log line is the i-th discovered path: every path once, in glob order |
| RunSpec.LogAllCount | src/cli/runCli.ts:35-36 | the listing loop performs only log calls, one per path |
| RunSpec.ReadAll | src/cli/runCli.ts:47-48 | the launch loop issues exactly one read per discovered path |
| RunSpec.ReadAllAt | src/cli/runCli.ts:47-48 | the i-th read is of the i-th discovered path, in glob order |
| RunSpec.ReadAllCount | src/cli/runCli.ts:47-48 | the launch loop performs only reads, one per path |
| RunSpec.ReadFailures | src/cli/runCli.ts:48 | the number of failed reads is zero exactly when every discovered path reads successfully |
| RunSpec.WriteAll | src/cli/runCli.ts:48-51 | the continuations attempt exactly one write per successful read |
| RunSpec.WriteAllCount | src/cli/runCli.ts:48-51 | the continuations perform only writes, as many as there are successful reads |
| RunSpec.WriteAllWrites | src/cli/runCli.ts:48-51 | every write goes to a discovered, readable path with formatFileText of that path, of its contents and of the one config; every readable discovered path gets that write |
| RunSpec.WriteAllWritesTo | src/cli/runCli.ts:47-51 | a readable path is written once for every time glob listed it; an unreadable path is never written |
| RunSpec.FormattedContents | src/cli/runCli.ts:47-53 | after the pipeline the same files exist; a discovered path that could be read and written holds its formatted text, every other file is unchanged |
| RunSpec.FirstFailureIsFirst | src/cli/runCli.ts:55 | the joined promise fails exactly when some task fails, with the failure of the first failing task in discovery order |
| RunCli.ResolveConfigFile | src/cli/runCli.ts:25 | loading the config file records one hand-over of the environment and yields the loader's result for options.config over the current files |
| RunCli.WarnDiagnostics | src/cli/runCli.ts:29-30 | the loop appends to the trace exactly the warnings of all diagnostics, in order |
| RunCli.LogFilePaths | src/cli/runCli.ts:35-36 | the loop appends to the trace exactly one log line per discovered path, in order |
| RunCli.LaunchReads | src/cli/runCli.ts:45-53 | the launch loop appends one read per path and keeps, per path, the result of reading it from the starting files |
| RunCli.JoinTasks | src/cli/runCli.ts:48-55 | the continuations append the writes of WriteAll, leave the files as Formatted says, and report the first failing task |
| RunCli.FormatFiles | src/cli/runCli.ts:45-55 | the format pipeline's trace, final files and outcome are those of RunSpec.Pipeline |
| RunCli.RunResolvedWithOptions | src/cli/runCli.ts:29-55 | after resolution, the trace, files and outcome are those of RunSpec.RunResolved |
| RunCli.RunCliWithOptions | src/cli/runCli.ts:15-56 | the trace it appends, the files it leaves and its outcome are exactly those of RunSpec.Run for its options and starting files |
| RunCli.RunCli | src/cli/runCli.ts:10-13 | runCli behaves as runCliWithOptions on the parsed arguments |
| RunCliProperties.HelpMode | src/cli/runCli.ts:16-19 | with showHelp set, whatever the other flags: exactly one log call, with the help text; no config load, warn, glob, read or write; success |
| RunCliProperties.VersionMode | src/cli/runCli.ts:20-23 | with showVersion set and showHelp not: exactly one log call, with the version string, and no other effect; success |
| RunCliProperties.ConfigLoadFailureStops | src/cli/runCli.ts:25 | a config file that fails to load fails the run before any warning, discovery, read or write |
| RunCliProperties.DiscoveryFailureStops | src/cli/runCli.ts:32 | a failed glob fails the run after the warnings and before any log of paths, read or write, in every mode that reaches it |
| RunCliProperties.ConfigResolvedOnce | src/cli/runCli.ts:25-27 | outside help and version, the configuration is loaded exactly once, from options.config, as the first effect |
| RunCliProperties.DiagnosticsWarnedBeforeGlob | src/cli/runCli.ts:25-32 | outside help and version, every diagnostic is warned in list order right after the load, then glob follows, and no warning comes after it |
| RunCliProperties.WarningCount | src/cli/runCli.ts:29-32 | outside help and version, once the config loads, a run warns exactly once per diagnostic and at no other point |
| RunCliProperties.GlobOnce | src/cli/runCli.ts:32-43 | outside help and version, glob is called exactly once, with options.filePatterns, print-config mode included |
| RunCliProperties.ModeCount | src/cli/runCli.ts:32-53 | after glob: list-files logs one line per path, print-config logs one line, format reads every path and writes every successful read; nothing else |
| RunCliProperties.ListFilesMode | src/cli/runCli.ts:34-38 | list-files mode, over print-config: logs every discovered path once in glob order, then stops; no read or write; files unchanged; success |
| RunCliProperties.PrintConfigMode | src/cli/runCli.ts:39-43 | print-config mode: exactly one log line, the serialized resolved config, after glob; no read or write; files unchanged; success |
| RunCliProperties.FormatTrace | src/cli/runCli.ts:45-55 | format mode's trace is the discovery effects, then one read per path, then the continuations' writes |
| RunCliProperties.FormatTraceKinds | src/cli/runCli.ts:45-53 | format mode's trace is the discovery effects, with no write, then one read per path, then writes only |
| RunCliProperties.FormatReadsEveryPath | src/cli/runCli.ts:45-53 | format mode attempts exactly K reads for K discovered paths, in glob order, and no write comes before a read |
| RunCliProperties.FormatReadCount | src/cli/runCli.ts:47-48 | format mode reads exactly as many times as glob listed paths |
| RunCliProperties.FormatWriteCount | src/cli/runCli.ts:47-51 | format mode attempts one write per successful read: writes plus failed reads equal the discovered paths |
| RunCliProperties.FormatWritesFormattedText | src/cli/runCli.ts:47-53 | every write in format mode is writeFile(p, formatFileText(p, text read, the one resolved config)) for a readable discovered p; each successful read gets that write |
| RunCliProperties.FormatWritesEachPathOnce | src/cli/runCli.ts:47-53 | when glob lists no path twice, format mode writes each readable discovered path exactly once and writes no other path |
| RunCliProperties.FailedReadSkipsOnlyItsWrite | src/cli/runCli.ts:48-55 | a failed read means no write to that path, while every other readable path is still written, and the run fails |
| RunCliProperties.FormatFilesResult | src/cli/runCli.ts:45-53 | format mode keeps the same set of files; files not discovered, unreadable or unwritable are unchanged; the rest hold their formatted text |
| RunCliProperties.FormatFailsIffTaskFails | src/cli/runCli.ts:48-55 | format mode fails if and only if some discovered path cannot be read or written, and with one of those tasks' failures |
| RunCliProperties.FormatTwiceIsFormatOnce | src/cli/runCli.ts:45-53 | with an idempotent formatter, a second format run that sees the same config and paths leaves the files as the first run left them |

## Left out

- Argument tokenising: `parseCommandLineArgs` is a function value; `RunCli.RunCli` takes its result as given.
- The internals of `resolveConfigFile`, `resolveConfiguration`, `formatFileText`, `getHelpText`, `getPackageVersion` and `JSON.stringify`: their sources are not part of this model, so they are function values. The configuration types are opaque.
- `resolveConfigFile` receives the environment. The model records that as one `LoadConfig` effect and lets the loader see the current file map. Any log, warn or read the loader makes itself is not recorded.
- A `formatFileText` that throws is not modelled: the formatter is a total function, so a task fails only on its read or its write.
- Promise scheduling: the model runs all reads against the starting files, then every continuation in discovery order. This is one admissible schedule. Other completion orders are not modelled. Neither is a write landing before a pending read of the same path, which can only happen when glob returns a path twice.
- RunSpec.FirstFailure: reports the first failing task in discovery order. `Promise.all` rejects with the first failure to settle, so the model fixes one choice where the code leaves it open.
- The returned promise rejects as soon as one task fails, while the other tasks go on running. The model reports the outcome only after every task has settled.
- Glob matching, the real file system and the console streams: the `Host` value and the file map stand for them. `log` and `warn` never fail.
- RunCliProperties.FormatTwiceIsFormatOnce: assumes that the second run loads the same configuration and discovers the same paths. Both depend on the files, which the first run may have changed.
