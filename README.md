# shode script engine — a Dafny model

This project models the core of **shode**, a shell-script runner written in Go. The core is:

- the **execution engine** (`pkg/engine/engine.go`). It runs a parsed script node by node. For each command it picks a mode: an in-process standard library call (*interpreted*) or an external process (*process*). It also:
  - feeds each pipeline stage's output into the next stage;
  - runs `if`, `for` and `while` (the last bounded by 10000 iterations);
  - caches successful external runs that have no redirect;
  - turns a redirect node into stdin/stdout/stderr bindings.
- the **environment manager** (`pkg/environment/manager.go`). It holds the variable map, the working directory, the PATH helpers, sessions and restore-to-original.
- the **line parser** (`pkg/parser/simple_parser.go`). It has a quote-aware tokenizer and skips comments and blank lines.
- the **module registry** (`pkg/module/manager.go`). It extracts `export_` commands, looks an export up exactly and then with `()`, and keeps load/unload bookkeeping.
- the **registry cache** (`pkg/registry/cache.go`). It keeps in-memory package metadata and tarball paths that expire against a clock.
- the **AST** (`pkg/types/ast.go`).

Module layout:

| file | module | form |
|---|---|---|
| `wrappers.dfy` | `Wrappers` | `Option`/`Result` |
| `ast.dfy` | `Ast` | node datatypes with their `Position`/`String` accessors |
| `parser.dfy` | `Parser` | the tokenizer as a step function and as a loop method; `ParseString` as a loop method over the lines |
| `environment.dfy` | `Environment` | `EnvironmentManager` and `Session` classes. The variable map is a heap object (`StrMap`), because Go maps are references and `ApplySession` makes the manager share the session's map |
| `module_registry.dfy` | `ModuleRegistry` | `ModuleManager` class over a `map` of modules; the file system is a parameter |
| `registry_cache.dfy` | `RegistryCache` | `Cache` class over two maps; the clock and the disk are parameters |
| `engine_semantics.dfy` | `EngineSemantics` | what the engine computes, as pure functions of a `Host` and a `State` |
| `engine.dfy` | `Engine` | the `ExecutionEngine` class. Each method is proved to produce the result and the new state the semantics give |
| `engine_properties.dfy` | `EngineProperties` | lemmas about the semantics: pipelines, caching, `Execute`, loops |

Everything the engine calls but whose code is not modelled goes into a `Host` value of total functions:
- the security checker (`CommandNode -> Option<string>`, where `Some` carries the rejection text);
- the operating-system calls behind the standard library;
- file opening for redirects;
- running a process;
- running a process through a stdin pipe.

The engine `State` holds:
- the environment manager's variables and working directory;
- the command cache;
- a ghost log of every command presented to the security checker. This log is what lets the model count how often a `while` condition is evaluated.

The model follows the code as written:
- The `break` statements inside `Execute`'s type switch leave only the switch. Every top-level node therefore runs, and `Execute` always ends with `Success = true`; this is proved.
- `decideExecutionMode` returns *process* for every name outside the 17-name library table. It does so whether or not the binary is on the search path, because both branches of the `LookPath` test give the same mode. *Hybrid* is never selected.
- A pipeline without command leaves indexes an empty slice, which panics in Go. The model gives this as the `Panic` failure.
- A result rejected by the security checker keeps Go's zero `Mode`, which is *interpreted*. So does the value `executeProcess` itself returns; `ExecuteCommand` then stamps *process* on it, redirect errors included.
- The environment manager's current map and its original map are always different objects (`EnvironmentManager.Valid`). The engine's methods and the manager's writers require this, and `ApplySession` requires that the session's map is not the original one. In Go this always holds, because sessions and restores copy.

## Model

| member | source | states |
|---|---|---|
| Ast.RedirectNode.String | pkg/types/ast.go:46 | a redirect prints as its operator |
| Ast.CommandNode.String | pkg/types/ast.go:25 | a command prints as its name |
| Ast.ScriptNode.String | pkg/types/ast.go:55 | a script prints as "script" |
| Ast.Node.GetPosition | pkg/types/ast.go:24-54 | every node kind returns its own stored position |
| Ast.Node.String | pkg/types/ast.go:25-55 | command → name, pipe → "\|", redirect → operator, script → "script" |
| Ast.Node.TypeName | pkg/engine/engine.go:172 | the `%T` text used in "unsupported node type" errors is a `*types.` name |
| Parser.TokenizeLine | pkg/parser/simple_parser.go:100-137 | the byte loop returns exactly `Tokenize(line)`, and no token is empty |
| Parser.ScanSnoc | pkg/parser/simple_parser.go:106-130 | scanning one more character is one more step of the loop |
| Parser.ScanKeepsNoEmptyTokens | pkg/parser/simple_parser.go:121-125 | a token is emitted only when the current token is non-empty |
| Parser.TokensAreNonEmpty | pkg/parser/simple_parser.go:121-134 | `tokenize` never emits an empty token |
| Parser.ScanAppendsTokens | pkg/parser/simple_parser.go:121-125 | scanning only appends to the token list |
| Parser.ScanResetsQuoteChar | pkg/parser/simple_parser.go:110-116 | outside quotes the quote character is always reset |
| Parser.ScanConcat | pkg/parser/simple_parser.go:106-130 | scanning `a + b` is scanning `a` then `b` |
| Parser.SpaceSeparates | pkg/parser/simple_parser.go:121-125 | a space outside quotes splits the line: tokens of `a + " " + b` are tokens of `a` followed by tokens of `b` |
| Parser.ScanInsideQuotes | pkg/parser/simple_parser.go:110-128 | inside quotes every other character, spaces and the other quote included, is kept literally |
| Parser.QuotedWord | pkg/parser/simple_parser.go:110-134 | a quoted word loses its two quotes and keeps its spaces; an empty quoted word gives no token |
| Parser.UnterminatedQuote | pkg/parser/simple_parser.go:106-136 | an unterminated quote is not an error: after any prefix that leaves no quote open, the rest of the line joins the token in progress and ends the line's tokens (`abc"def ghi` gives `abcdef ghi`) |
| Parser.WordLen | pkg/parser/simple_parser.go:121-128 | the length of the leading run of non-space characters |
| Parser.ScanQuoteFree | pkg/parser/simple_parser.go:100-137 | on quote-free text the scan emits the space-separated fields |
| Parser.WordStep | pkg/parser/simple_parser.go:121-128 | a quote-free word is scanned into the current token whole |
| Parser.WordSlices | pkg/parser/simple_parser.go:121-128 | the slices a word boundary splits a line into |
| Parser.QuoteFreeIsFields | pkg/parser/simple_parser.go:100-137 | without quote characters, `tokenize` is splitting on ' ' with empty pieces dropped |
| Parser.TrimLeftDrops | pkg/parser/simple_parser.go:28 | trimming drops exactly a leading run of white space |
| Parser.TrimRightDrops | pkg/parser/simple_parser.go:28 | trimming drops exactly a trailing run of white space |
| Parser.TrimSpaceSlice | pkg/parser/simple_parser.go:28 | `TrimSpace` returns a slice of the line that starts and ends with non-space |
| Parser.SplitLines | pkg/parser/simple_parser.go:26 | at least one line, no line holds '\n', and joining with '\n' gives the source back |
| Parser.IndexOfNewline | pkg/parser/simple_parser.go:26 | the index of the first '\n' |
| Parser.ParseCommand | pkg/parser/simple_parser.go:79-97 | no node iff there are no tokens; otherwise name = first token, args = the rest, line = the given number, column 1, no redirect |
| Parser.ParseString | pkg/parser/simple_parser.go:21-41 | never an error; the script starts at 1:1 and its nodes are those of the source's lines in order |
| Parser.NodeOfLine | pkg/parser/simple_parser.go:34 | the node of a command line is a command without a redirect at the 1-based line number |
| Parser.ComesFromLonger | pkg/parser/simple_parser.go:27-38 | a node that comes from a line still does when more lines follow |
| Parser.ParsedNodesComeFromLines | pkg/parser/simple_parser.go:27-40 | there are at most as many nodes as lines; every node is the node of some command line; no redirect or pipe is ever built |
| Parser.CommandLineIsParsed | pkg/parser/simple_parser.go:27-38 | every line that is not blank, not a comment and has tokens yields its node |
| Parser.SkippedLinesAddNothing | pkg/parser/simple_parser.go:29-31 | a blank, comment or token-less line adds no node |
| Parser.ParsedNodeAccessors | pkg/parser/simple_parser.go:86-93 | a parsed node prints as its first token and sits at (line, 1, 0) |
| Environment.StrMap.constructor | pkg/environment/manager.go:20-21 | a fresh map with the given contents |
| Environment.Lookup | pkg/environment/manager.go:84-88 | a missing key reads as "" |
| Environment.CopyMap | pkg/environment/manager.go:105-115 | the copy equals the source |
| Environment.FirstEquals | pkg/environment/manager.go:42-44 | the index of the first '=', none iff there is no '=' |
| Environment.SplitJoinedEntry | pkg/environment/manager.go:42-48 | `key=value` with '=' not in key splits back into (key, value) |
| Environment.FirstEqualsAt | pkg/environment/manager.go:42-44 | a '=' with none before it is the first one |
| Environment.JoinSplitEntry | pkg/environment/manager.go:42-48 | a split entry joins back to the original, and the key has no '=' |
| Environment.ParseEnvironKeys | pkg/environment/manager.go:37-52 | a key is loaded iff some entry has it before its first '='; entries without '=' are skipped |
| Environment.ParseEnvironValues | pkg/environment/manager.go:42-48 | a loaded key holds the value part of the last entry that sets it, split at that entry's first '=' |
| Environment.PathAppend | pkg/environment/manager.go:172-179 | empty PATH becomes `dir`; otherwise the old value, ':', `dir` |
| Environment.PathPrepend | pkg/environment/manager.go:182-189 | empty PATH becomes `dir`; otherwise `dir`, ':', the old value |
| Environment.EnvironmentManager.constructor | pkg/environment/manager.go:19-34 | the original map is parsed from the process environment, the current one is a separate copy of it, the working directory is `Getwd` or "" |
| Environment.EnvironmentManager.InitializeOriginalEnvironment | pkg/environment/manager.go:37-52 | both maps get every entry split at its first '=' |
| Environment.EnvironmentManager.ChangeDir | pkg/environment/manager.go:62-81 | a relative target is joined onto the working directory; on a failed check the directory is unchanged and the error is returned; the variables are untouched |
| Environment.EnvironmentManager.GetEnv | pkg/environment/manager.go:84-88 | the current value, "" when unset |
| Environment.EnvironmentManager.SetEnv | pkg/environment/manager.go:91-95 | the key maps to the value, every other key is unchanged |
| Environment.EnvironmentManager.UnsetEnv | pkg/environment/manager.go:98-102 | exactly the key is removed |
| Environment.EnvironmentManager.GetAllEnv | pkg/environment/manager.go:105-115 | a value copy equal to the current map |
| Environment.EnvironmentManager.RestoreOriginalEnvironment | pkg/environment/manager.go:132-147 | the current map is a fresh copy equal to the original one |
| Environment.EnvironmentManager.CreateChildProcessEnv | pkg/environment/manager.go:150-159 | exactly one `key=value` entry per variable: each entry renders a distinct variable (`RendersEach`), and every variable is rendered |
| Environment.EnvironmentManager.SetPath | pkg/environment/manager.go:167-169 | PATH is set, nothing else changes |
| Environment.EnvironmentManager.AppendToPath | pkg/environment/manager.go:172-179 | PATH becomes `PathAppend` of its old value |
| Environment.EnvironmentManager.PrependToPath | pkg/environment/manager.go:182-189 | PATH becomes `PathPrepend` of its old value |
| Environment.EnvironmentManager.GetHomeDir | pkg/environment/manager.go:192-198 | the current HOME, or the original one when the current one is empty |
| Environment.EnvironmentManager.GetUsername | pkg/environment/manager.go:201-207 | the current USER, or the original one when the current one is empty |
| Environment.EnvironmentManager.CreateSession | pkg/environment/manager.go:210-225 | a fresh session with a fresh copy of the variables and the same working directory |
| Environment.EnvironmentManager.ApplySession | pkg/environment/manager.go:249-255 | the manager takes the session's directory and shares its variable map |
| Environment.Session.constructor | pkg/environment/manager.go:214-217 | a session with its own map |
| Environment.Session.GetEnv | pkg/environment/manager.go:239-241 | the session's value, "" when unset |
| Environment.Session.SetEnv | pkg/environment/manager.go:244-246 | only the session's map changes |
| Environment.SessionLifecycle | pkg/environment/manager.go:210-255 | a session's writes are invisible to the manager until `ApplySession`, after which they are visible, and later session writes show through the shared map |
| Environment.SetGetUnset | pkg/environment/manager.go:84-102 | set then get returns the value, other keys are unchanged, unset then get returns "" |
| Environment.SetThenRestore | pkg/environment/manager.go:91-147 | after restoring, a variable set before reads as its value in the original map as it was before the set, "" if it was not there; the current map equals that original map, which the set left alone |
| ModuleRegistry.ExportName | pkg/module/manager.go:149-153 | only a command whose name starts with "export_" is an export, named by the rest |
| ModuleRegistry.ExtractExports | pkg/module/manager.go:148-156 | the loop builds exactly `ExportsOf` the parsed nodes |
| ModuleRegistry.ExportsOfLastWins | pkg/module/manager.go:148-156 | a name is exported iff some node exports it, and it maps to the last such node |
| ModuleRegistry.Base | pkg/module/manager.go:71 | `filepath.Base` is never empty |
| ModuleRegistry.StripTrailingSlashes | pkg/module/manager.go:71 | a prefix without a trailing '/' |
| ModuleRegistry.AfterLastSlash | pkg/module/manager.go:71 | a non-empty suffix without '/' |
| ModuleRegistry.Find | pkg/module/manager.go:172-178 | found iff registered and loaded; otherwise "module not loaded: " + path |
| ModuleRegistry.LookupExport | pkg/module/manager.go:217-229 | the exact name first, then name + "()", otherwise the "not found" error |
| ModuleRegistry.EntryLoad | pkg/module/manager.go:112-132 | `index.sh` first, then `<name>.sh` (paths joined with `filepath.Join`), otherwise "no module entry point found" |
| ModuleRegistry.FreshLoad | pkg/module/manager.go:55-84 | a new load succeeds iff the path resolves, exists and its entry script is read; the module is then the entry script's exports under `Base` of the resolved path, marked loaded; otherwise "module not found" or the entry error |
| ModuleRegistry.LoadedStep | pkg/module/manager.go:183-187 | one turn of the listing loop adds one entry iff the module is loaded |
| ModuleRegistry.LoadedFrom | pkg/module/manager.go:135-159 | a read error becomes "failed to read module script"; otherwise the module with the extracted exports |
| ModuleRegistry.ModuleManager.constructor | pkg/module/manager.go:40-46 | an empty registry |
| ModuleRegistry.ModuleManager.LoadModule | pkg/module/manager.go:49-85 | a loaded path returns the stored module unchanged; otherwise the result is `FreshLoad`'s; a successful load is stored under the caller's path with `isLoaded`; a failure changes nothing |
| ModuleRegistry.ModuleManager.LoadModuleExports | pkg/module/manager.go:112-132 | the result is `EntryLoad`'s |
| ModuleRegistry.ModuleManager.LoadScriptExports | pkg/module/manager.go:135-159 | the result is `LoadedFrom` the script |
| ModuleRegistry.ModuleManager.Import | pkg/module/manager.go:162-169 | the exports of the already-loaded module, or `FreshLoad`'s exports and error for a new one |
| ModuleRegistry.ModuleManager.ListModules | pkg/module/manager.go:181-189 | exactly the loaded modules, one entry per loaded path |
| ModuleRegistry.ModuleManager.UnloadModule | pkg/module/manager.go:192-198 | an error iff the path is unknown; otherwise exactly that key is removed |
| ModuleRegistry.ModuleManager.ClearModules | pkg/module/manager.go:201-203 | the registry is empty |
| ModuleRegistry.ModuleManager.GetExport | pkg/module/manager.go:211-230 | the module lookup's error, or the export lookup |
| ModuleRegistry.ModuleManager.HasExport | pkg/module/manager.go:233-248 | the module lookup's error, or whether the exact name or name + "()" is exported |
| ModuleRegistry.ModuleManager.GetModuleInfo | pkg/module/manager.go:251-268 | the module lookup's error, or the name with every export mapped to "function" |
| ModuleRegistry.GetExportAgreesWithHasExport | pkg/module/manager.go:211-248 | `GetExport` succeeds iff `HasExport` says true; both fail for an unloaded path |
| ModuleRegistry.UnloadedIsNotFound | pkg/module/manager.go:192-198 | after an unload the path is not found and every other path is unaffected |
| RegistryCache.LookupMetadata | pkg/registry/cache.go:38-55 | a fresh entry hits; an expired one is deleted and misses; a missing one is loaded from disk when fresh there |
| RegistryCache.LookupTarball | pkg/registry/cache.go:72-88 | a stored path whose file is gone is deleted and misses |
| RegistryCache.Cache.constructor | pkg/registry/cache.go:28-35 | empty maps and a 24-hour maximum age |
| RegistryCache.Cache.GetPackageMetadata | pkg/registry/cache.go:38-55 | new metadata map and answer are `LookupMetadata`'s; tarballs unchanged |
| RegistryCache.Cache.LoadMetadataFromDisk | pkg/registry/cache.go:137-167 | a fresh disk entry is adopted with its modification time |
| RegistryCache.Cache.SetPackageMetadata | pkg/registry/cache.go:58-69 | the entry is stamped with the current time |
| RegistryCache.Cache.GetTarball | pkg/registry/cache.go:72-88 | new tarball map and answer are `LookupTarball`'s |
| RegistryCache.Cache.SetTarball | pkg/registry/cache.go:91-96 | the key maps to the path |
| RegistryCache.Cache.Clear | pkg/registry/cache.go:99-105 | both maps are empty |
| RegistryCache.Cache.CleanExpired | pkg/registry/cache.go:124-134 | the metadata map keeps exactly the unexpired entries |
| RegistryCache.HitIffFresh | pkg/registry/cache.go:42-54 | a stored entry is a hit iff now − timestamp ≤ maxAge; a miss deletes it |
| RegistryCache.SetThenGet | pkg/registry/cache.go:58-65 | a get within maxAge of a set returns the same metadata |
| RegistryCache.CleanRemovesExactlyExpired | pkg/registry/cache.go:124-134 | an entry survives iff it has not expired, with its data unchanged |
| RegistryCache.CleanThenLookup | pkg/registry/cache.go:42-54 | cleaning never changes a lookup's answer without disk; an expired entry hides a fresh disk copy until cleaned |
| RegistryCache.SetThenGetTarball | pkg/registry/cache.go:72-96 | set then get returns the path while the file exists; a missing file deletes the entry |
| EngineSemantics.DecideExecutionMode | pkg/engine/engine.go:377-420 | interpreted iff the name is one of the 17 library names, process otherwise, never hybrid |
| EngineSemantics.ExecInterpreted | pkg/engine/engine.go:423-441 | success iff the library call succeeds; then exit 0 and its output, otherwise exit 1 and its error |
| EngineSemantics.SetupRedirect | pkg/engine/engine.go:628-681 | an unsupported operator is an error; `>`/`>>` bind stdout for fd 0 or 1, stderr for fd 2, neither otherwise; `&>` binds both; `<` binds stdin; `2>&1` binds nothing; no stream is ever captured |
| EngineSemantics.ExitCodeOf | pkg/engine/engine.go:600-608 | 0 on success, the `ExitError` code, otherwise 1 |
| EngineSemantics.ExecProcess | pkg/engine/engine.go:557-625 | the cache is read only without a redirect; only successful runs without a redirect are stored; environment and directory are untouched |
| EngineProperties.ArityRule | pkg/engine/engine.go:444-554 | a library function called with too few arguments fails with the message naming it |
| EngineProperties.UnknownFunction | pkg/engine/engine.go:551-552 | a name outside the table is rejected |
| EngineProperties.NeverFailingSucceeds | pkg/engine/engine.go:446-527 | the print and string functions always succeed |
| EngineProperties.ExecCommandContract | pkg/engine/engine.go:182-220 | a security rejection gives exit 1, a "Security violation: " error, no run and no cache change; otherwise the selected mode is stamped; each call is presented to the checker once |
| EngineProperties.RedirectedCommandIsSilent | pkg/engine/engine.go:579-593 | with a redirect the result has no output and no error text, and the cache is unchanged |
| EngineProperties.SecondRunIsCached | pkg/engine/engine.go:559-563 | a successful external command without a redirect returns the cached result when run again |
| EngineProperties.FailureIsNotCached | pkg/engine/engine.go:619-622 | a failed run is not stored |
| EngineProperties.CollectChain | pkg/engine/engine.go:275-289 | flattening `c0 \| c1 \| … \| cn` gives the commands in order |
| EngineProperties.CollectLeaves | pkg/engine/engine.go:275-289 | flattening is left-then-right concatenation; other node kinds contribute nothing |
| EngineProperties.EmptyPipelinePanics | pkg/engine/engine.go:263-264 | a pipeline without command leaves panics |
| EngineProperties.StagesFrame | pkg/engine/engine.go:230-261 | the pipeline loop never changes the environment or the directory |
| EngineProperties.StagesShape | pkg/engine/engine.go:230-261 | the loop adds one result per stage run, at least one, and those stages are the ones presented to the checker |
| EngineProperties.StagesInputs | pkg/engine/engine.go:234-259 | every later stage receives the previous stage's output as input |
| EngineProperties.StagesOutcome | pkg/engine/engine.go:246-271 | the first failing stage ends the pipeline with its exit code, output and error; otherwise exit 0, no error, the last output |
| EngineProperties.StageFacts | pkg/engine/engine.go:234-240 | stage 0 is an ordinary command, later stages run with input |
| EngineProperties.StagesStep | pkg/engine/engine.go:230-261 | one turn of the pipeline loop |
| EngineProperties.StageTurn | pkg/engine/engine.go:230-261 | one turn, named by its outcome: an engine error stops, a failure ends, a success continues with its output |
| EngineProperties.PipelineFlow | pkg/engine/engine.go:223-272 | the whole pipeline: stage 0 as a command, data flow, halt at the first failure, success outcome, panic without stages |
| EngineProperties.FirstStage | pkg/engine/engine.go:234-236 | the first result is the first stage run as an ordinary command |
| EngineProperties.AllSucceededSnoc | pkg/engine/engine.go:246-257 | all results succeeded iff the earlier ones did and the last one did |
| EngineProperties.LaterStagesRunAsProcesses | pkg/engine/engine.go:292-315 | with input the mode is always process, even for a library name; a rejection keeps the zero mode |
| EngineProperties.NodesKeepText | pkg/engine/engine.go:92-174 | the loop never sets the output or the error |
| EngineProperties.ExecuteNeverFails | pkg/engine/engine.go:176-178 | `Execute` returns success whenever it returns a result, and its output and error are empty |
| EngineProperties.ForNeverFails | pkg/engine/engine.go:731-743 | the failure branch of `ExecuteFor` is unreachable through `Execute` |
| EngineProperties.WhileNeverFails | pkg/engine/engine.go:779-791 | the failure branch of `ExecuteWhile` is unreachable through `Execute` |
| EngineProperties.OnlyCommandsAndPipesFail | pkg/engine/engine.go:121-169 | every node kind other than command or pipe reports success |
| EngineProperties.IfHidesFailure | pkg/engine/engine.go:697-709 | an `if` whose branch holds a rejected command still reports success |
| EngineProperties.IfWithoutElse | pkg/engine/engine.go:711-716 | a false condition without else gives success, exit 0, no commands |
| EngineProperties.UnsupportedNodes | pkg/engine/engine.go:171-172 | unhandled node kinds and non-command conditions give an error naming the Go type |
| EngineProperties.AssignmentAndFunction | pkg/engine/engine.go:163-169 | an assignment sets the variable; a function definition changes nothing |
| EngineProperties.CommandsOf | pkg/engine/engine.go:92-99 | the commands of a command-only script, one per node |
| EngineProperties.CommandStep | pkg/engine/engine.go:94-105 | one turn of `Execute`'s loop at a command |
| EngineProperties.CommandNodesShape | pkg/engine/engine.go:92-105 | a command-only script runs every command, one result each, in order |
| EngineProperties.AllSucceededCons | pkg/engine/engine.go:101-105 | all succeeded iff the first and the rest did |
| EngineProperties.LastFailureCons | pkg/engine/engine.go:101-105 | the last failure of a longer sequence is in its tail or is its head |
| EngineProperties.CommandNodesExit | pkg/engine/engine.go:101-105 | the exit code is that of the last failing command, or the starting one |
| EngineProperties.CommandStepExists | pkg/engine/engine.go:94-105 | one turn of the loop, naming only the result |
| EngineProperties.ExitCons | pkg/engine/engine.go:101-105 | adding a result in front keeps the exit-code rule |
| EngineProperties.SliceCons | pkg/engine/engine.go:99 | a slice starting at an element is that element followed by the rest |
| EngineProperties.ExitRuleOnCons | pkg/engine/engine.go:101-105 | the exit-code rule over the added results |
| EngineProperties.LastFailureExists | pkg/engine/engine.go:101-105 | a sequence with a failure has a last one |
| EngineProperties.CommandScriptRuns | pkg/engine/engine.go:92-178 | a command-only script: one result per command, success, exit code of the last failure or 0 |
| EngineProperties.ParsedScriptRuns | pkg/parser/simple_parser.go:21-41 | every script the line parser builds runs to completion with success |
| EngineProperties.AssignmentsRun | pkg/engine/engine.go:163-165 | assignments only: no commands and no security checks |
| EngineProperties.WhileHitsLimit | pkg/engine/engine.go:757-765 | with a condition that holds in every state and a body without engine errors, the loop runs one turn (condition, then body) per remaining iteration below 10000, then returns the iteration-limit error |
| EngineProperties.WhileLimitFromStart | pkg/engine/engine.go:752-797 | such a loop runs exactly 10000 turns from the start, each evaluating the condition once, then returns "while loop exceeded maximum iterations (10000)" |
| EngineProperties.ConditionComesFirst | pkg/engine/engine.go:760-765 | each turn presents the condition to the security checker exactly once, before the body |
| EngineProperties.IdleLoopHitsLimit | pkg/engine/engine.go:757-765 | for a never-failing library condition and an assignment-only body, the checker sees the condition once per remaining turn and nothing else, then the limit error |
| EngineProperties.RepeatCopies | pkg/engine/engine.go:757-765 | `n` copies of the condition |
| EngineProperties.IdleLoopLimitFromStart | pkg/engine/engine.go:752-797 | for such an idle loop the checker sees exactly 10000 copies of the condition, then the limit error |
| EngineProperties.WhileIdleTurn | pkg/engine/engine.go:760-792 | one idle turn presents the condition once to the checker |
| EngineProperties.ConditionHolds | pkg/engine/engine.go:800-808 | a never-failing library call as condition holds |
| EngineProperties.WhileContinues | pkg/engine/engine.go:778-792 | a true condition and a body without engine error move to the next turn, appending exactly the body's commands and never the condition's result; the body never counts as failed |
| EngineProperties.WhileExit | pkg/engine/engine.go:773-776 | a false condition ends with success and exit 0 |
| EngineProperties.ForLeavesLastItem | pkg/engine/engine.go:726-748 | with an empty body the loop succeeds and leaves the variable at the last item |
| EngineProperties.ForTurn | pkg/engine/engine.go:726-743 | the variable is set before the body runs, and the body's commands are appended in order |
| Engine.ExecutionEngine.constructor | pkg/engine/engine.go:64-82 | an empty command cache over the given environment manager |
| Engine.ExecutionEngine.Execute | pkg/engine/engine.go:92-178 | result and new state are `ExecScript`'s |
| Engine.ExecutionEngine.ExecuteCommand | pkg/engine/engine.go:182-220 | result and new state are `ExecCommand`'s |
| Engine.ExecutionEngine.ExecutePipeline | pkg/engine/engine.go:223-272 | result and new state are `ExecPipeline`'s |
| Engine.ExecutionEngine.ExecuteCommandWithInput | pkg/engine/engine.go:292-315 | result and new state are `ExecCommandWithInput`'s |
| Engine.ExecutionEngine.ExecuteProcessWithInput | pkg/engine/engine.go:318-374 | pipe-creation and write failures are engine errors; a start failure is a failed result; otherwise exit code and both streams of the run |
| Engine.ExecutionEngine.ExecuteProcess | pkg/engine/engine.go:557-625 | result and new state are `ExecProcess`'s |
| Engine.ExecutionEngine.ExecuteIf | pkg/engine/engine.go:697-717 | result and new state are `ExecIf`'s |
| Engine.ExecutionEngine.ExecuteFor | pkg/engine/engine.go:720-749 | result and new state are `ExecFor`'s from the first item |
| Engine.ExecutionEngine.ExecuteWhile | pkg/engine/engine.go:752-797 | result and new state are `ExecWhile`'s from zero iterations |
| Engine.ExecutionEngine.EvaluateCondition | pkg/engine/engine.go:800-813 | result and new state are `EvalCondition`'s |

## Left out

- Process execution (`exec.CommandContext`, `Run`, stdin pipes, `Wait`, context cancellation) is the `Host.run` and `Host.runPiped` oracles. The model decides what the process is given: name, arguments, environment, directory and stdio bindings.
- File opening in `setupRedirect` is the `Host.openFile` oracle, which returns only an error or success. The deferred `Close` runs before the command starts, so the model does not say that redirected output reaches the file.
- The standard library (`pkg/stdlib/stdlib.go`) is not part of this model; its operating-system calls are oracles in `StdLib`. Library `SetEnv`/`ChangeDir` act on the process, not on the environment manager, as in the source. What `Print` and friends write to the terminal is not modelled.
- The `Host` and its `StdLib` are fixed for a whole run: they are plain functions with no operating-system state. So a later call does not see the effect of an earlier one. Examples: `GetEnv` after a library `SetEnv`; `ReadFile` after a `WriteFile`; a relative path after a library `ChangeDir`; `FileExists` after a process created the file. Each such call answers as the oracle did at the start.
- `CommandCache` has no source here. It is modelled as an unbounded map keyed by name and arguments, with no capacity or expiry.
- `ProcessPool` has no source and is unused; the security checker is an opaque function of the command.
- `isExternalCommandAvailable` (`LookPath`) is left out. Both of its outcomes select the process mode, so it cannot change a result.
- `executeHybrid` is left out; mode selection never reaches it.
- `ExecuteProcess`: the order of `key=value` entries handed to the process is Go map order. The model passes the map itself.
- Durations, `time.Now` and start times are left out; the registry cache takes the current time as an integer parameter.
- Floating-point statistics (`GetCacheStats`) are left out.
- The `RWMutex` locks in the environment manager and the registry cache are left out; the model is sequential.
- Registry cache disk I/O (`saveMetadataToDisk`, JSON encoding, file removal in `Clear`) is left out. `LoadMetadataFromDisk` takes the file's decoded content and modification time as a parameter.
- Module path resolution (`resolveModulePath`, `ResolveImport`) and `package.json` reading are the `ModuleFs` oracle. `filepath.Clean`, used by `filepath.Join` for the entry-script paths, is its `clean` function. `Module.Imports` is never filled in the source and is not modelled.
- `ExportEnvironment` is left out. It clears the process environment and writes the manager's map into it, which `RestoreOriginalEnvironment` also does; the model restores only the manager's map.
- `os.Environ` and `os.Getwd` are replaced by parameters of the constructor.
- `ParseFile` is not modelled. It applies the same per-line logic as `ParseString` to lines read from a file.
- `DebugPrint` only prints and is left out.
- `pkg/pkgmgr`, `pkg/repl` and `cmd/*` are not part of this model.
- The ghost `gateLog` of the engine's state is a proof device. It is not in the source.
