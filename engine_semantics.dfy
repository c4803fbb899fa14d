/** What the script execution engine (pkg/engine/engine.go) computes, as pure
    functions of a host and an engine state.

    The host bundles everything the engine calls but whose code is outside this
    model: the security checker, the standard library's operating-system
    wrappers, file opening for redirects and process execution. The state holds
    what the engine reads and changes between commands: the variables and the
    working directory of the environment manager, the command cache and the
    sequence of commands presented to the security checker (a ghost record
    that lets loop counts be stated). */
module EngineSemantics {
  import opened Wrappers
  import opened Ast
  import Parser

  // ---------------------------------------------------------------------------
  // Results

  datatype Mode = Interpreted | Process | Hybrid

  datatype CommandResult = CommandResult(command: CommandNode, success: bool, exitCode: int, output: string, error: string, mode: Mode)

  datatype PipelineResult = PipelineResult(success: bool, exitCode: int, output: string, error: string, results: seq<CommandResult>)

  datatype ExecutionResult = ExecutionResult(success: bool, exitCode: int, output: string, error: string, commands: seq<CommandResult>)

  /** The engine's own `error` return (`Fatal`), and the run-time panic of a
      pipeline without stages (`Panic`). */
  datatype EngineFailure = Fatal(msg: string) | Panic(msg: string)

  datatype CacheKey = CacheKey(name: string, args: seq<string>)

  datatype State = State(env: map<string, string>, wd: string, cache: map<CacheKey, CommandResult>, gateLog: seq<CommandNode>)

  // ---------------------------------------------------------------------------
  // The host

  /** Where a process reads its standard input. */
  datatype Stdin = NoStdin | FromFile(path: string) | FromPipe(data: string)

  /** Where a process writes an output stream: nowhere (Go's `nil`, the null
      device), a builder the engine reads back, or a file. */
  datatype Sink = Discard | Capture | ToFile(path: string, openMode: OpenMode)

  datatype OpenMode = Create | Append | ReadOnly

  datatype StdioPlan = StdioPlan(stdin: Stdin, stdout: Sink, stderr: Sink)

  /** An `exec.Cmd` as configured by the engine. */
  datatype ProcessSpec = ProcessSpec(name: string, args: seq<string>, env: map<string, string>, dir: string, stdio: StdioPlan)

  /** The error `Run`/`Wait` returns: none, an `*exec.ExitError` with its exit
      code, or any other error. */
  datatype RunError = NoError | ExitStatus(code: int) | OtherError(msg: string)

  datatype ProcessRun = ProcessRun(err: RunError, stdout: string, stderr: string)

  /** The stages of running a process fed through a stdin pipe. */
  datatype PipedRun = PipeFailed(msg: string) | StartFailed(msg: string) | WriteFailed(msg: string) | Waited(run: ProcessRun)

  /** The operating-system calls behind pkg/stdlib; error results carry Go's
      error text. */
  datatype StdLib = StdLib(
    readFile: string -> Result<string, string>,
    writeFile: (string, string) -> Option<string>,
    listFiles: string -> Result<seq<string>, string>,
    fileExists: string -> bool,
    replaceAll: (string, string, string) -> string,
    toUpper: string -> string,
    toLower: string -> string,
    getEnv: string -> string,
    setEnv: (string, string) -> Option<string>,
    workingDir: Result<string, string>,
    changeDir: string -> Option<string>)

  datatype Host = Host(
    security: CommandNode -> Option<string>,
    stdlib: StdLib,
    openFile: (OpenMode, string) -> Option<string>,
    run: ProcessSpec -> ProcessRun,
    runPiped: ProcessSpec -> PipedRun)

  // ---------------------------------------------------------------------------
  // Mode selection and the standard library

  /** The table `isStdLibFunction` consults. */
  const StdLibTable: map<string, bool> := map[
    "Print" := true, "Println" := true, "Error" := true, "Errorln" := true,
    "ReadFile" := true, "WriteFile" := true, "ListFiles" := true, "FileExists" := true,
    "Contains" := true, "Replace" := true, "ToUpper" := true, "ToLower" := true,
    "Trim" := true, "GetEnv" := true, "SetEnv" := true, "WorkingDir" := true,
    "ChangeDir" := true]

  /** A Go map lookup of a missing key yields `false`. */
  predicate IsStdLibFunction(name: string) {
    name in StdLibTable && StdLibTable[name]
  }

  function DecideExecutionMode(c: CommandNode): (m: Mode)
    ensures m == Interpreted <==> IsStdLibFunction(c.name)
    ensures m == Process <==> !IsStdLibFunction(c.name)
  {
    if IsStdLibFunction(c.name) then Interpreted else Process
  }

  /** `strings.Contains`. */
  predicate Contains(haystack: string, needle: string)
    decreases |haystack|
  {
    (|needle| <= |haystack| && haystack[..|needle|] == needle)
    || (|haystack| > 0 && Contains(haystack[1..], needle))
  }

  /** `fmt.Sprintf("%v", b)` for a bool. */
  function BoolText(b: bool): string {
    if b then "true" else "false"
  }

  /** `strings.Join(files, "\n")`. */
  function JoinNewline(files: seq<string>): string {
    if files == [] then "" else Parser.JoinLines(files)
  }

  /** The fewest arguments each library function accepts without an error. */
  function MinArgs(name: string): nat {
    if name in {"ReadFile", "FileExists", "GetEnv", "ChangeDir"} then 1
    else if name in {"WriteFile", "Contains", "SetEnv"} then 2
    else if name == "Replace" then 3
    else 0
  }

  /** The error text of a call with too few arguments: the function's name,
      " requires ", and what is missing. */
  function ArityMessage(name: string): string {
    name + " requires " +
      if name == "ReadFile" || name == "FileExists" then "filename argument"
      else if name == "WriteFile" then "filename and content arguments"
      else if name == "Contains" then "haystack and needle arguments"
      else if name == "Replace" then "string, old, and new arguments"
      else if name == "GetEnv" then "environment variable name"
      else if name == "SetEnv" then "key and value arguments"
      else "directory path"
  }

  /** `executeStdLibFunction`: the output text or the error text. The printing
      functions' writes to the terminal are not modelled. */
  function ExecuteStdLibFunction(lib: StdLib, name: string, args: seq<string>): Result<string, string> {
    if name == "Print" || name == "Error" || name == "Println" || name == "Errorln" then
      Ok(if |args| > 0 then args[0] else "")
    else if name == "ReadFile" then
      if |args| == 0 then Err(ArityMessage(name))
      else match lib.readFile(args[0])
        case Ok(content) => Ok(content)
        case Err(e) => Err("failed to read file " + args[0] + ": " + e)
    else if name == "WriteFile" then
      if |args| < 2 then Err(ArityMessage(name))
      else match lib.writeFile(args[0], args[1])
        case None => Ok("File written")
        case Some(e) => Err(e)
    else if name == "ListFiles" then
      var dir := if |args| == 0 then "." else args[0];
      match lib.listFiles(dir)
      case Ok(files) => Ok(JoinNewline(files))
      case Err(e) => Err("failed to list directory " + dir + ": " + e)
    else if name == "FileExists" then
      if |args| == 0 then Err(ArityMessage(name))
      else Ok(BoolText(lib.fileExists(args[0])))
    else if name == "Contains" then
      if |args| < 2 then Err(ArityMessage(name))
      else Ok(BoolText(Contains(args[0], args[1])))
    else if name == "Replace" then
      if |args| < 3 then Err(ArityMessage(name))
      else Ok(lib.replaceAll(args[0], args[1], args[2]))
    else if name == "ToUpper" then
      Ok(if |args| == 0 then "" else lib.toUpper(args[0]))
    else if name == "ToLower" then
      Ok(if |args| == 0 then "" else lib.toLower(args[0]))
    else if name == "Trim" then
      Ok(if |args| == 0 then "" else Parser.TrimSpace(args[0]))
    else if name == "GetEnv" then
      if |args| == 0 then Err(ArityMessage(name))
      else Ok(lib.getEnv(args[0]))
    else if name == "SetEnv" then
      if |args| < 2 then Err(ArityMessage(name))
      else match lib.setEnv(args[0], args[1])
        case None => Ok("Environment variable set")
        case Some(e) => Err(e)
    else if name == "WorkingDir" then
      lib.workingDir
    else if name == "ChangeDir" then
      if |args| == 0 then Err(ArityMessage(name))
      else match lib.changeDir(args[0])
        case None => Ok("Directory changed")
        case Some(e) => Err(e)
    else
      Err("unknown standard library function: " + name)
  }

  /** `executeInterpreted`: a library error becomes a failed result with exit 1. */
  function ExecInterpreted(lib: StdLib, c: CommandNode): (r: CommandResult)
    ensures r.command == c
    ensures r.success <==> ExecuteStdLibFunction(lib, c.name, c.args).Ok?
    ensures r.success ==> r.exitCode == 0 && r.output == ExecuteStdLibFunction(lib, c.name, c.args).value && r.error == ""
    ensures !r.success ==> r.exitCode == 1 && r.output == "" && r.error == ExecuteStdLibFunction(lib, c.name, c.args).error
  {
    match ExecuteStdLibFunction(lib, c.name, c.args)
    case Err(e) => CommandResult(c, false, 1, "", e, Interpreted)
    case Ok(out) => CommandResult(c, true, 0, out, "", Interpreted)
  }

  // ---------------------------------------------------------------------------
  // Processes and redirects

  /** `>` and `>>` bind the file to stdout for descriptor 0 or 1, to stderr for
      descriptor 2, and to neither otherwise. */
  function BindOutput(plan: StdioPlan, fd: int, sink: Sink): StdioPlan {
    if fd == 1 || fd == 0 then plan.(stdout := sink)
    else if fd == 2 then plan.(stderr := sink)
    else plan
  }

  /** The streams of a command with a redirect, before any binding: nothing
      is attached, so both outputs go nowhere. */
  const Unbound: StdioPlan := StdioPlan(NoStdin, Discard, Discard)

  const SupportedRedirects: set<string> := {">", ">>", "<", "2>&1", "&>"}

  /** `setupRedirect`: the operator and descriptor decision, with file opening
      as an oracle that reports an error text or success. */
  function SetupRedirect(openFile: (OpenMode, string) -> Option<string>, r: RedirectNode): (p: Result<StdioPlan, string>)
    ensures r.op !in SupportedRedirects ==> p == Err("unsupported redirect operator: " + r.op)
    ensures p.Ok? ==> p.value.stdout != Capture && p.value.stderr != Capture
    ensures r.op == ">" || r.op == ">>" ==>
      (p.Ok? <==> openFile(if r.op == ">" then Create else Append, r.file).None?)
      && (p.Ok? ==>
        && p.value.stdin == NoStdin
        && (r.fd == 0 || r.fd == 1 ==> p.value.stdout.ToFile? && p.value.stdout.path == r.file && p.value.stderr == Discard)
        && (r.fd == 2 ==> p.value.stderr.ToFile? && p.value.stderr.path == r.file && p.value.stdout == Discard)
        && (r.fd !in {0, 1, 2} ==> p.value.stdout == Discard && p.value.stderr == Discard))
    ensures r.op == "&>" ==>
      (p.Ok? <==> openFile(Create, r.file).None?)
      && (p.Ok? ==> p.value.stdout == p.value.stderr == ToFile(r.file, Create))
    ensures r.op == "<" ==>
      (p.Ok? <==> openFile(ReadOnly, r.file).None?)
      && (p.Ok? ==> p.value.stdin == FromFile(r.file) && p.value.stdout == p.value.stderr == Discard)
    ensures r.op == "2>&1" ==> p == Ok(Unbound)
  {
    if r.op == ">" then
      match openFile(Create, r.file)
      case Some(e) => Err("failed to create file " + r.file + ": " + e)
      case None => Ok(BindOutput(Unbound, r.fd, ToFile(r.file, Create)))
    else if r.op == ">>" then
      match openFile(Append, r.file)
      case Some(e) => Err("failed to open file " + r.file + ": " + e)
      case None => Ok(BindOutput(Unbound, r.fd, ToFile(r.file, Append)))
    else if r.op == "<" then
      match openFile(ReadOnly, r.file)
      case Some(e) => Err("failed to open file " + r.file + ": " + e)
      case None => Ok(Unbound.(stdin := FromFile(r.file)))
    else if r.op == "2>&1" then
      Ok(Unbound.(stderr := Unbound.stdout))
    else if r.op == "&>" then
      match openFile(Create, r.file)
      case Some(e) => Err("failed to create file " + r.file + ": " + e)
      case None => Ok(Unbound.(stdout := ToFile(r.file, Create), stderr := ToFile(r.file, Create)))
    else
      Err("unsupported redirect operator: " + r.op)
  }

  /** The exit code read from `Run`'s error. */
  function ExitCodeOf(e: RunError): (code: int)
    ensures e.NoError? ==> code == 0
    ensures e.OtherError? ==> code == 1
    ensures e.ExitStatus? ==> code == e.code
  {
    match e
    case NoError => 0
    case ExitStatus(k) => k
    case OtherError(_) => 1
  }

  /** What an output stream's builder holds after the run: the text written
      to it if it was attached, "" otherwise. */
  function Collected(sink: Sink, written: string): string {
    if sink == Capture then written else ""
  }

  /** The streams of a command without a redirect: both outputs captured. */
  const Captured: StdioPlan := StdioPlan(NoStdin, Capture, Capture)

  function KeyOf(c: CommandNode): CacheKey {
    CacheKey(c.name, c.args)
  }

  /** `executeProcess`: the cache is consulted and filled only for a command
      without a redirect, and filled only with a run that returned no error. */
  function ExecProcess(h: Host, st: State, c: CommandNode): (out: (CommandResult, State))
    ensures out.1.env == st.env && out.1.wd == st.wd && out.1.gateLog == st.gateLog
    ensures c.redirect.None? && KeyOf(c) in st.cache ==> out == (st.cache[KeyOf(c)], st)
    ensures c.redirect.Some? ==> out.1.cache == st.cache
    ensures c.redirect.None? && KeyOf(c) !in st.cache ==>
      out.1.cache == if out.0.success then st.cache[KeyOf(c) := out.0] else st.cache
    ensures (c.redirect.Some? || KeyOf(c) !in st.cache) ==> out.0.command == c
  {
    var key := KeyOf(c);
    if c.redirect.None? && key in st.cache then
      (st.cache[key], st)
    else
      var plan := if c.redirect.None? then Ok(Captured) else SetupRedirect(h.openFile, c.redirect.value);
      match plan
      case Err(e) =>
        (CommandResult(c, false, 1, "", "redirect error: " + e, Interpreted), st)
      case Ok(p) =>
        var run := h.run(ProcessSpec(c.name, c.args, st.env, st.wd, p));
        var res := CommandResult(c, run.err.NoError?, ExitCodeOf(run.err), Collected(p.stdout, run.stdout), Collected(p.stderr, run.stderr), Interpreted);
        if run.err.NoError? && c.redirect.None? then (res, st.(cache := st.cache[key := res]))
        else (res, st)
  }

  /** The record of a command presented to the security checker. */
  function Checked(st: State, c: CommandNode): State {
    st.(gateLog := st.gateLog + [c])
  }

  /** `ExecuteCommand`: the security check, then the mode's executor; the mode
      is stamped on every result except a rejection, which keeps the zero
      mode. */
  function ExecCommand(h: Host, st: State, c: CommandNode): (CommandResult, State) {
    var st1 := Checked(st, c);
    match h.security(c)
    case Some(e) => (CommandResult(c, false, 1, "", "Security violation: " + e, Interpreted), st1)
    case None =>
      if DecideExecutionMode(c) == Interpreted then
        (ExecInterpreted(h.stdlib, c).(mode := Interpreted), st1)
      else
        var (r, st2) := ExecProcess(h, st1, c);
        (r.(mode := Process), st2)
  }

  /** `executeProcessWithInput`: the process is fed `input` through a stdin
      pipe and its output is captured; it depends on the environment and the
      working directory only. The result carries the zero mode. */
  function PipedProcess(h: Host, env: map<string, string>, wd: string, c: CommandNode, input: string): Result<CommandResult, EngineFailure> {
    match h.runPiped(ProcessSpec(c.name, c.args, env, wd, StdioPlan(FromPipe(input), Capture, Capture)))
    case PipeFailed(e) => Err(Fatal("failed to create stdin pipe: " + e))
    case StartFailed(e) => Ok(CommandResult(c, false, 1, "", e, Interpreted))
    case WriteFailed(e) => Err(Fatal("failed to write to stdin: " + e))
    case Waited(run) => Ok(CommandResult(c, run.err.NoError?, ExitCodeOf(run.err), run.stdout, run.stderr, Interpreted))
  }

  /** `ExecuteCommandWithInput` apart from its record in the gate log: the
      security check, then the piped process stamped with the process mode.
      The command's redirect is ignored and no cache is used. */
  function StageResult(h: Host, env: map<string, string>, wd: string, c: CommandNode, input: string): Result<CommandResult, EngineFailure> {
    match h.security(c)
    case Some(e) => Ok(CommandResult(c, false, 1, "", "Security violation: " + e, Interpreted))
    case None =>
      match PipedProcess(h, env, wd, c, input)
      case Err(e) => Err(e)
      case Ok(r) => Ok(r.(mode := Process))
  }

  function ExecCommandWithInput(h: Host, st: State, c: CommandNode, input: string): (Result<CommandResult, EngineFailure>, State) {
    (StageResult(h, st.env, st.wd, c, input), Checked(st, c))
  }

  // ---------------------------------------------------------------------------
  // Pipelines

  /** `collectPipelineCommands`: the command leaves of a pipe tree, left to
      right; other node kinds contribute nothing. */
  function CollectPipelineCommands(n: Node): seq<CommandNode> {
    match n
    case Pipe(_, l, r) => CollectPipelineCommands(l) + CollectPipelineCommands(r)
    case Command(c) => [c]
    case _ => []
  }

  const PipelinePanic: EngineFailure := Panic("runtime error: index out of range [-1]")

  /** Stage `i` of a pipeline: the first stage runs as an ordinary command,
      every later one with the previous stage's output as its input. */
  function RunStage(h: Host, st: State, cmds: seq<CommandNode>, i: nat, prev: string): (Result<CommandResult, EngineFailure>, State)
    requires i < |cmds|
  {
    if i == 0 then
      var (r, st1) := ExecCommand(h, st, cmds[0]);
      (Ok(r), st1)
    else ExecCommandWithInput(h, st, cmds[i], prev)
  }

  /** The loop of `ExecutePipeline` from stage `i` on, `prev` being the output
      of stage `i - 1` and `results` the results so far. */
  function RunStages(h: Host, st: State, cmds: seq<CommandNode>, i: nat, prev: string, results: seq<CommandResult>)
    : (Result<PipelineResult, EngineFailure>, State)
    requires i <= |cmds|
    decreases |cmds| - i
  {
    if i == |cmds| then
      if |results| == 0 then (Err(PipelinePanic), st)
      else
        var last := results[|results| - 1];
        (Ok(PipelineResult(true, 0, last.output, "", results)), st)
    else
      var (r, st1) := RunStage(h, st, cmds, i, prev);
      match r
      case Err(e) => (Err(e), st1)
      case Ok(res) =>
        var results1 := results + [res];
        if !res.success then (Ok(PipelineResult(false, res.exitCode, res.output, res.error, results1)), st1)
        else RunStages(h, st1, cmds, i + 1, res.output, results1)
  }

  function ExecPipeline(h: Host, st: State, n: Node): (Result<PipelineResult, EngineFailure>, State) {
    RunStages(h, st, CollectPipelineCommands(n), 0, "", [])
  }

  // ---------------------------------------------------------------------------
  // Scripts and control flow

  const MaxIterations: nat := 10000

  const TooManyIterations: EngineFailure := Fatal("while loop exceeded maximum iterations (10000)")

  const NoCommands: ExecutionResult := ExecutionResult(false, 0, "", "", [])

  /** What one top-level node contributes to `Execute`'s result. */
  datatype Step = Step(commands: seq<CommandResult>, success: bool, exitCode: int)

  function StepOf(r: ExecutionResult): Step {
    Step(r.commands, r.success, r.exitCode)
  }

  /** `evaluateCondition`: only a command can be a condition; it holds when
      the command succeeds with exit code 0. */
  function EvalCondition(h: Host, st: State, cond: Node): (Result<bool, EngineFailure>, State) {
    match cond
    case Command(c) =>
      var (r, st1) := ExecCommand(h, st, c);
      (Ok(r.success && r.exitCode == 0), st1)
    case _ => (Err(Fatal("unsupported condition node type: " + cond.TypeName())), st)
  }

  /** `Execute`: every node runs; a failing command or pipeline records its
      exit code, and the result is marked successful at the end regardless. */
  function ExecScript(h: Host, st: State, s: ScriptNode): (Result<ExecutionResult, EngineFailure>, State)
    decreases s
  {
    var (r, st1) := ExecNodes(h, st, s.nodes, NoCommands);
    match r
    case Err(e) => (Err(e), st1)
    case Ok(acc) => (Ok(acc.(success := true)), st1)
  }

  /** The loop of `Execute` over the remaining nodes `ns`. */
  function ExecNodes(h: Host, st: State, ns: seq<Node>, acc: ExecutionResult): (Result<ExecutionResult, EngineFailure>, State)
    decreases ns
  {
    if ns == [] then (Ok(acc), st)
    else
      var (r, st1) := ExecNode(h, st, ns[0]);
      match r
      case Err(e) => (Err(e), st1)
      case Ok(step) =>
        var acc1 := acc.(commands := acc.commands + step.commands);
        var acc2 := if step.success then acc1 else acc1.(success := false, exitCode := step.exitCode);
        ExecNodes(h, st1, ns[1..], acc2)
  }

  /** One case of `Execute`'s type switch. */
  function ExecNode(h: Host, st: State, n: Node): (Result<Step, EngineFailure>, State)
    decreases n, 1
  {
    match n
    case Command(c) =>
      var (r, st1) := ExecCommand(h, st, c);
      (Ok(Step([r], r.success, r.exitCode)), st1)
    case Pipe(_, _, _) =>
      var (r, st1) := ExecPipeline(h, st, n);
      (if r.Ok? then Ok(Step(r.value.results, r.value.success, r.value.exitCode)) else Err(r.error), st1)
    case If(_, _, _, _) =>
      var (r, st1) := ExecIf(h, st, n);
      (if r.Ok? then Ok(StepOf(r.value)) else Err(r.error), st1)
    case For(_, _, _, _) =>
      var (r, st1) := ExecFor(h, st, n, 0, NoCommands);
      (if r.Ok? then Ok(StepOf(r.value)) else Err(r.error), st1)
    case While(_, _, _) =>
      var (r, st1) := ExecWhile(h, st, n, 0, NoCommands);
      (if r.Ok? then Ok(StepOf(r.value)) else Err(r.error), st1)
    case Assignment(_, name, value) =>
      (Ok(Step([], true, 0)), st.(env := st.env[name := value]))
    case FunctionDef(_, _, _) =>
      (Ok(Step([], true, 0)), st)
    case _ =>
      (Err(Fatal("unsupported node type: " + n.TypeName())), st)
  }

  /** `ExecuteIf`. */
  function ExecIf(h: Host, st: State, n: Node): (Result<ExecutionResult, EngineFailure>, State)
    requires n.If?
    decreases n, 0, 0
  {
    var (c, st1) := EvalCondition(h, st, n.condition);
    match c
    case Err(e) => (Err(e), st1)
    case Ok(holds) =>
      if holds then ExecScript(h, st1, n.thenBody)
      else if n.elseBody.Some? then ExecScript(h, st1, n.elseBody.value)
      else (Ok(ExecutionResult(true, 0, "", "", [])), st1)
  }

  /** The loop of `ExecuteFor` from item `i` on: the variable is set to the
      item, then the body runs; the first failing body ends the loop. */
  function ExecFor(h: Host, st: State, n: Node, i: nat, acc: ExecutionResult): (Result<ExecutionResult, EngineFailure>, State)
    requires n.For? && i <= |n.list|
    decreases n, 0, |n.list| - i
  {
    if i == |n.list| then (Ok(acc.(success := true, exitCode := 0)), st)
    else
      var st1 := st.(env := st.env[n.variable := n.list[i]]);
      var (r, st2) := ExecScript(h, st1, n.body);
      match r
      case Err(e) => (Err(e), st2)
      case Ok(body) =>
        var acc1 := acc.(commands := acc.commands + body.commands);
        if !body.success then (Ok(acc1.(success := false, exitCode := body.exitCode)), st2)
        else ExecFor(h, st2, n, i + 1, acc1)
  }

  /** The loop of `ExecuteWhile` after `iterations` condition evaluations. */
  function ExecWhile(h: Host, st: State, n: Node, iterations: nat, acc: ExecutionResult): (Result<ExecutionResult, EngineFailure>, State)
    requires n.While?
    decreases n, 0, MaxIterations - iterations
  {
    if iterations >= MaxIterations then (Err(TooManyIterations), st)
    else
      var (c, st1) := EvalCondition(h, st, n.condition);
      match c
      case Err(e) => (Err(e), st1)
      case Ok(holds) =>
        if !holds then (Ok(acc.(success := true, exitCode := 0)), st1)
        else
          var (r, st2) := ExecScript(h, st1, n.body);
          match r
          case Err(e) => (Err(e), st2)
          case Ok(body) =>
            var acc1 := acc.(commands := acc.commands + body.commands);
            if !body.success then (Ok(acc1.(success := false, exitCode := body.exitCode)), st2)
            else ExecWhile(h, st2, n, iterations + 1, acc1)
  }
}
