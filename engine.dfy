/** The execution engine object (pkg/engine/engine.go): its methods run a
    script node by node, updating the environment manager's variables and the
    command cache as they go. Each method is proved to compute what the
    corresponding function of `EngineSemantics` describes, from the engine's
    state on entry to its state on exit; the properties of those functions are
    proved in `EngineProperties`. */
module Engine {
  import opened Wrappers
  import opened Ast
  import opened EngineSemantics
  import opened Environment

  class ExecutionEngine {
    /** The environment manager the engine was built with; its variable map is
        changed by assignments and `for` loops. */
    const envManager: EnvironmentManager
    /** The security checker, the standard library and the operating system. */
    const host: Host
    /** The command cache: results of successful processes run without a
        redirect, by name and arguments. */
    var cache: map<CacheKey, CommandResult>
    /** Every command presented to the security checker, in order. */
    ghost var gateLog: seq<CommandNode>

    /** The engine state the semantic functions work on. */
    ghost function Snapshot(): State
      reads this, envManager, envManager.environment
    {
      State(envManager.environment.m, envManager.workingDir, cache, gateLog)
    }

    /** `NewExecutionEngine`: an empty cache. */
    constructor (envManager: EnvironmentManager, host: Host)
      ensures this.envManager == envManager && this.host == host
      ensures cache == map[] && gateLog == []
    {
      this.envManager := envManager;
      this.host := host;
      cache := map[];
      gateLog := [];
    }

    /** `Execute`: each node in turn; a node that errs ends the script with
        that error. */
    method Execute(s: ScriptNode) returns (r: Result<ExecutionResult, EngineFailure>)
      requires envManager.Valid()
      modifies this, envManager.environment
      ensures (r, Snapshot()) == ExecScript(host, old(Snapshot()), s)
      decreases s
    {
      var result := NoCommands;
      var i := 0;
      while i < |s.nodes|
        invariant 0 <= i <= |s.nodes|
        decreases |s.nodes| - i
        invariant ExecNodes(host, Snapshot(), s.nodes[i..], result) == ExecNodes(host, old(Snapshot()), s.nodes, NoCommands)
      {
        var node := s.nodes[i];
        assert s.nodes[i..][1..] == s.nodes[i + 1..];
        match node {
          case Command(c) =>
            var cmdResult := ExecuteCommand(c);
            result := result.(commands := result.commands + [cmdResult]);
            if !cmdResult.success {
              result := result.(success := false, exitCode := cmdResult.exitCode);
            }
          case Pipe(_, _, _) =>
            var pipeResult := ExecutePipeline(node);
            if pipeResult.Err? {
              return Err(pipeResult.error);
            }
            result := result.(commands := result.commands + pipeResult.value.results);
            if !pipeResult.value.success {
              result := result.(success := false, exitCode := pipeResult.value.exitCode);
            }
          case If(_, _, _, _) =>
            var ifResult := ExecuteIf(node);
            if ifResult.Err? {
              return Err(ifResult.error);
            }
            result := result.(commands := result.commands + ifResult.value.commands);
            if !ifResult.value.success {
              result := result.(success := false, exitCode := ifResult.value.exitCode);
            }
          case For(_, _, _, _) =>
            var forResult := ExecuteFor(node);
            if forResult.Err? {
              return Err(forResult.error);
            }
            result := result.(commands := result.commands + forResult.value.commands);
            if !forResult.value.success {
              result := result.(success := false, exitCode := forResult.value.exitCode);
            }
          case While(_, _, _) =>
            var whileResult := ExecuteWhile(node);
            if whileResult.Err? {
              return Err(whileResult.error);
            }
            result := result.(commands := result.commands + whileResult.value.commands);
            if !whileResult.value.success {
              result := result.(success := false, exitCode := whileResult.value.exitCode);
            }
          case Assignment(_, name, value) =>
            envManager.SetEnv(name, value);
            assert result.(commands := result.commands + []) == result;
          case FunctionDef(_, _, _) =>
            assert result.(commands := result.commands + []) == result;
          case _ =>
            return Err(Fatal("unsupported node type: " + node.TypeName()));
        }
        i := i + 1;
      }
      r := Ok(result.(success := true));
    }

    /** `ExecuteCommand`: the security check, then the executor of the
        command's mode, whose result is stamped with that mode. */
    method ExecuteCommand(cmd: CommandNode) returns (r: CommandResult)
      modifies this
      ensures (r, Snapshot()) == ExecCommand(host, old(Snapshot()), cmd)
    {
      gateLog := gateLog + [cmd];
      var violation := host.security(cmd);
      if violation.Some? {
        return CommandResult(cmd, false, 1, "", "Security violation: " + violation.value, Interpreted);
      }
      // The hybrid mode is never chosen, and `executeHybrid` is
      // `executeProcess`.
      var mode := DecideExecutionMode(cmd);
      if mode == Interpreted {
        r := ExecInterpreted(host.stdlib, cmd);
      } else {
        r := ExecuteProcess(cmd);
      }
      r := r.(mode := mode);
    }

    /** `ExecutePipeline`: stage 0 runs as an ordinary command, every later
        stage with the previous stage's output as its input; the first
        failing stage ends the pipeline. After the loop the last result is
        read, which panics when there were no stages. */
    method ExecutePipeline(pipeline: Node) returns (r: Result<PipelineResult, EngineFailure>)
      modifies this
      ensures (r, Snapshot()) == ExecPipeline(host, old(Snapshot()), pipeline)
    {
      var commands := CollectPipelineCommands(pipeline);
      var results: seq<CommandResult> := [];
      var previousOutput := "";
      var i := 0;
      while i < |commands|
        invariant 0 <= i <= |commands| && |results| == i
        invariant RunStages(host, Snapshot(), commands, i, previousOutput, results)
               == RunStages(host, old(Snapshot()), commands, 0, "", [])
      {
        var cmd := commands[i];
        var result: Result<CommandResult, EngineFailure>;
        if i == 0 {
          var first := ExecuteCommand(cmd);
          result := Ok(first);
        } else {
          result := ExecuteCommandWithInput(cmd, previousOutput);
        }
        if result.Err? {
          return Err(result.error);
        }
        results := results + [result.value];
        if !result.value.success {
          return Ok(PipelineResult(false, result.value.exitCode, result.value.output, result.value.error, results));
        }
        previousOutput := result.value.output;
        i := i + 1;
      }
      if |results| == 0 {
        return Err(PipelinePanic);
      }
      var lastResult := results[|results| - 1];
      r := Ok(PipelineResult(true, 0, lastResult.output, "", results));
    }

    /** `ExecuteCommandWithInput`: the security check, then the piped
        process, stamped with the process mode. */
    method ExecuteCommandWithInput(cmd: CommandNode, input: string) returns (r: Result<CommandResult, EngineFailure>)
      modifies this
      ensures (r, Snapshot()) == ExecCommandWithInput(host, old(Snapshot()), cmd, input)
    {
      gateLog := gateLog + [cmd];
      var violation := host.security(cmd);
      if violation.Some? {
        return Ok(CommandResult(cmd, false, 1, "", "Security violation: " + violation.value, Interpreted));
      }
      r := ExecuteProcessWithInput(cmd, input);
      if r.Ok? {
        r := Ok(r.value.(mode := Process));
      }
    }

    /** `executeProcessWithInput`: runs in the manager's variables and
        working directory and changes no engine state. */
    method ExecuteProcessWithInput(cmd: CommandNode, input: string) returns (r: Result<CommandResult, EngineFailure>)
      ensures r == PipedProcess(host, envManager.environment.m, envManager.workingDir, cmd, input)
    {
      var envVars := envManager.GetAllEnv();
      var dir := envManager.GetWorkingDir();
      var spec := ProcessSpec(cmd.name, cmd.args, envVars, dir, StdioPlan(FromPipe(input), Capture, Capture));
      match host.runPiped(spec)
      case PipeFailed(e) =>
        r := Err(Fatal("failed to create stdin pipe: " + e));
      case StartFailed(e) =>
        r := Ok(CommandResult(cmd, false, 1, "", e, Interpreted));
      case WriteFailed(e) =>
        r := Err(Fatal("failed to write to stdin: " + e));
      case Waited(run) =>
        r := Ok(CommandResult(cmd, run.err.NoError?, ExitCodeOf(run.err), run.stdout, run.stderr, Interpreted));
    }

    /** `executeProcess`: a cached result is returned for a command without a
        redirect; otherwise the process runs, and a run without error and
        without a redirect is cached. */
    method ExecuteProcess(cmd: CommandNode) returns (r: CommandResult)
      modifies this
      ensures (r, Snapshot()) == ExecProcess(host, old(Snapshot()), cmd)
    {
      var key := KeyOf(cmd);
      if cmd.redirect.None? && key in cache {
        return cache[key];
      }
      var envVars := envManager.GetAllEnv();
      var dir := envManager.GetWorkingDir();
      var plan := Captured;
      if cmd.redirect.Some? {
        var redirected := SetupRedirect(host.openFile, cmd.redirect.value);
        if redirected.Err? {
          return CommandResult(cmd, false, 1, "", "redirect error: " + redirected.error, Interpreted);
        }
        plan := redirected.value;
      }
      var run := host.run(ProcessSpec(cmd.name, cmd.args, envVars, dir, plan));
      r := CommandResult(cmd, run.err.NoError?, ExitCodeOf(run.err), Collected(plan.stdout, run.stdout), Collected(plan.stderr, run.stderr), Interpreted);
      if run.err.NoError? && cmd.redirect.None? {
        cache := cache[key := r];
      }
    }

    /** `ExecuteIf`: the condition, then the branch it selects. */
    method ExecuteIf(ifNode: Node) returns (r: Result<ExecutionResult, EngineFailure>)
      requires ifNode.If?
      requires envManager.Valid()
      modifies this, envManager.environment
      ensures (r, Snapshot()) == ExecIf(host, old(Snapshot()), ifNode)
      decreases ifNode
    {
      var conditionResult := EvaluateCondition(ifNode.condition);
      if conditionResult.Err? {
        return Err(conditionResult.error);
      }
      if conditionResult.value {
        r := Execute(ifNode.thenBody);
      } else if ifNode.elseBody.Some? {
        r := Execute(ifNode.elseBody.value);
      } else {
        r := Ok(ExecutionResult(true, 0, "", "", []));
      }
    }

    /** `ExecuteFor`: for each item the variable is set, then the body runs;
        the first failing body ends the loop. */
    method ExecuteFor(forNode: Node) returns (r: Result<ExecutionResult, EngineFailure>)
      requires forNode.For?
      requires envManager.Valid()
      modifies this, envManager.environment
      ensures (r, Snapshot()) == ExecFor(host, old(Snapshot()), forNode, 0, NoCommands)
      decreases forNode
    {
      var result := NoCommands;
      var i := 0;
      while i < |forNode.list|
        invariant 0 <= i <= |forNode.list|
        invariant ExecFor(host, Snapshot(), forNode, i, result) == ExecFor(host, old(Snapshot()), forNode, 0, NoCommands)
      {
        envManager.SetEnv(forNode.variable, forNode.list[i]);
        var loopResult := Execute(forNode.body);
        if loopResult.Err? {
          return Err(loopResult.error);
        }
        result := result.(commands := result.commands + loopResult.value.commands);
        if !loopResult.value.success {
          result := result.(success := false, exitCode := loopResult.value.exitCode);
          return Ok(result);
        }
        i := i + 1;
      }
      r := Ok(result.(success := true, exitCode := 0));
    }

    /** `ExecuteWhile`: at most 10000 evaluations of the condition; the body
        runs while it holds, and the first failing body ends the loop. */
    method ExecuteWhile(whileNode: Node) returns (r: Result<ExecutionResult, EngineFailure>)
      requires whileNode.While?
      requires envManager.Valid()
      modifies this, envManager.environment
      ensures (r, Snapshot()) == ExecWhile(host, old(Snapshot()), whileNode, 0, NoCommands)
      decreases whileNode
    {
      var result := NoCommands;
      var iterations := 0;
      while true
        invariant 0 <= iterations <= MaxIterations
        invariant ExecWhile(host, Snapshot(), whileNode, iterations, result)
               == ExecWhile(host, old(Snapshot()), whileNode, 0, NoCommands)
        decreases MaxIterations - iterations
      {
        if iterations >= MaxIterations {
          return Err(TooManyIterations);
        }
        iterations := iterations + 1;
        var conditionResult := EvaluateCondition(whileNode.condition);
        if conditionResult.Err? {
          return Err(conditionResult.error);
        }
        if !conditionResult.value {
          return Ok(result.(success := true, exitCode := 0));
        }
        var loopResult := Execute(whileNode.body);
        if loopResult.Err? {
          return Err(loopResult.error);
        }
        result := result.(commands := result.commands + loopResult.value.commands);
        if !loopResult.value.success {
          result := result.(success := false, exitCode := loopResult.value.exitCode);
          return Ok(result);
        }
      }
    }

    /** `evaluateCondition`: a command condition holds when it succeeds with
        exit code 0; any other node is an error. */
    method EvaluateCondition(condition: Node) returns (r: Result<bool, EngineFailure>)
      modifies this
      ensures (r, Snapshot()) == EvalCondition(host, old(Snapshot()), condition)
    {
      match condition
      case Command(c) =>
        var cmdResult := ExecuteCommand(c);
        r := Ok(cmdResult.success && cmdResult.exitCode == 0);
      case _ =>
        r := Err(Fatal("unsupported condition node type: " + condition.TypeName()));
    }
  }
}
