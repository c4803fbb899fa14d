/** Properties of the engine semantics: what `Execute`, pipelines, loops,
    redirects, the cache and the library dispatch promise. */
module EngineProperties {
  import opened Wrappers
  import opened Ast
  import opened EngineSemantics
  import Parser

  // ---------------------------------------------------------------------------
  // Library dispatch

  /** A library function called with fewer arguments than it needs fails
      with its own message, before any operating-system call. */
  lemma ArityRule(lib: StdLib, name: string, args: seq<string>)
    requires |args| < MinArgs(name)
    ensures IsStdLibFunction(name)
    ensures ExecuteStdLibFunction(lib, name, args) == Err(ArityMessage(name))
    ensures ArityMessage(name)[..|name|] == name
  {
    assert name in {"ReadFile", "FileExists", "GetEnv", "ChangeDir", "WriteFile", "Contains", "SetEnv", "Replace"};
    if name == "ReadFile" {
    } else if name == "FileExists" {
    } else if name == "GetEnv" {
    } else if name == "ChangeDir" {
    } else if name == "WriteFile" {
    } else if name == "Contains" {
    } else if name == "SetEnv" {
    } else {
      assert name == "Replace";
    }
  }

  /** A name outside the table is rejected by the dispatcher; `ExecuteCommand`
      never sends one there, since such a name selects the process mode. */
  lemma UnknownFunction(lib: StdLib, name: string, args: seq<string>)
    requires !IsStdLibFunction(name)
    ensures ExecuteStdLibFunction(lib, name, args) == Err("unknown standard library function: " + name)
  {
  }

  /** The functions that succeed whatever their arguments. */
  const NeverFailing: set<string> := {"Print", "Println", "Error", "Errorln", "ToUpper", "ToLower", "Trim"}

  lemma NeverFailingSucceeds(lib: StdLib, name: string, args: seq<string>)
    requires name in NeverFailing
    ensures IsStdLibFunction(name)
    ensures ExecuteStdLibFunction(lib, name, args).Ok?
    ensures name in {"Print", "Println", "Error", "Errorln"} ==>
      ExecuteStdLibFunction(lib, name, args).value == if |args| > 0 then args[0] else ""
  {
  }

  // ---------------------------------------------------------------------------
  // Single commands

  /** `ExecuteCommand`: a rejected command fails with exit 1 and a
      "Security violation: " error, runs nothing and keeps the zero mode; an
      accepted one carries the mode selected for it; the environment and
      working directory are never changed, and every call is presented to the
      security checker exactly once. */
  lemma ExecCommandContract(h: Host, st: State, c: CommandNode)
    ensures var (r, st1) := ExecCommand(h, st, c);
      && st1.gateLog == st.gateLog + [c] && st1.env == st.env && st1.wd == st.wd
      && (h.security(c).Some? ==>
            r == CommandResult(c, false, 1, "", "Security violation: " + h.security(c).value, Interpreted)
            && st1.cache == st.cache)
      && (h.security(c).None? ==> r.mode == DecideExecutionMode(c) && r.mode != Hybrid)
      && (h.security(c).None? && IsStdLibFunction(c.name) ==>
            r == ExecInterpreted(h.stdlib, c) && st1.cache == st.cache)
  {
  }

  /** A command with a redirect never returns output: with the redirect set
      up its streams go to files or nowhere, and otherwise the result is the
      "redirect error: " failure. It is neither served from nor stored in the
      cache. */
  lemma RedirectedCommandIsSilent(h: Host, st: State, c: CommandNode)
    requires c.redirect.Some?
    ensures var (r, st1) := ExecProcess(h, st, c);
      && r.output == "" && st1.cache == st.cache && r.command == c
      && (SetupRedirect(h.openFile, c.redirect.value).Ok? ==> r.error == "")
      && (SetupRedirect(h.openFile, c.redirect.value).Err? ==>
            !r.success && r.exitCode == 1 && r.error == "redirect error: " + SetupRedirect(h.openFile, c.redirect.value).error)
  {
  }

  /** A successful external command without a redirect is cached: running it
      again returns the same result from the cache without consulting the
      operating system. */
  lemma SecondRunIsCached(h: Host, st: State, c: CommandNode)
    requires h.security(c).None? && !IsStdLibFunction(c.name) && c.redirect.None?
    requires ExecCommand(h, st, c).0.success
    ensures var (r1, st1) := ExecCommand(h, st, c);
      var (r2, st2) := ExecCommand(h, st1, c);
      r2 == r1 && st2.cache == st1.cache && KeyOf(c) in st1.cache
  {
    var (r1, st1) := ExecCommand(h, st, c);
    var s := Checked(st, c);
    if KeyOf(c) !in st.cache {
      assert ExecProcess(h, s, c).1.cache == s.cache[KeyOf(c) := ExecProcess(h, s, c).0];
    }
    assert st1.cache[KeyOf(c)].(mode := Process) == r1;
  }

  /** A failing external command is never cached: when it was not cached
      before, it is not cached after. */
  lemma FailureIsNotCached(h: Host, st: State, c: CommandNode)
    requires h.security(c).None? && !IsStdLibFunction(c.name)
    requires KeyOf(c) !in st.cache
    requires !ExecCommand(h, st, c).0.success
    ensures KeyOf(c) !in ExecCommand(h, st, c).1.cache
  {
  }

  // ---------------------------------------------------------------------------
  // Pipelines

  /** A pipe tree leaning left, `c0 | c1 | ... | cn`, as a parser builds it. */
  function PipeChain(pos: Position, cs: seq<CommandNode>): Node
    requires |cs| >= 1
  {
    if |cs| == 1 then Command(cs[0])
    else Pipe(pos, PipeChain(pos, cs[..|cs| - 1]), Command(cs[|cs| - 1]))
  }

  /** Flattening a pipe chain gives back its commands in order. */
  lemma {:induction false} CollectChain(pos: Position, cs: seq<CommandNode>)
    requires |cs| >= 1
    ensures CollectPipelineCommands(PipeChain(pos, cs)) == cs
  {
    if |cs| > 1 {
      CollectChain(pos, cs[..|cs| - 1]);
      assert cs[..|cs| - 1] + [cs[|cs| - 1]] == cs;
    }
  }

  /** Flattening is left-to-right concatenation, and only command leaves
      count. */
  lemma CollectLeaves(pos: Position, l: Node, r: Node)
    ensures CollectPipelineCommands(Pipe(pos, l, r)) == CollectPipelineCommands(l) + CollectPipelineCommands(r)
    ensures !l.Pipe? && !l.Command? ==> CollectPipelineCommands(l) == []
  {
  }

  /** A pipeline with no command leaves panics when it reads its last result. */
  lemma EmptyPipelinePanics(h: Host, st: State, n: Node)
    requires CollectPipelineCommands(n) == []
    ensures ExecPipeline(h, st, n) == (Err(PipelinePanic), st)
  {
  }

  predicate AllSucceeded(rs: seq<CommandResult>) {
    forall k | 0 <= k < |rs| :: rs[k].success
  }

  /** The pipeline loop never touches the environment or the directory. */
  lemma {:induction false} StagesFrame(h: Host, st: State, cmds: seq<CommandNode>, i: nat, prev: string, results: seq<CommandResult>)
    requires i <= |cmds|
    ensures var out := RunStages(h, st, cmds, i, prev, results);
      out.1.env == st.env && out.1.wd == st.wd
    decreases |cmds| - i
  {
    if i < |cmds| {
      var r0, s0 := StageTurn(h, st, cmds, i, prev, results);
      if r0.Ok? && r0.value.success {
        StagesFrame(h, s0, cmds, i + 1, r0.value.output, results + [r0.value]);
      }
    }
  }

  /** The results of the pipeline loop extend the ones it started with by one
      per stage it ran, at least one in all, and the stages it ran are the
      ones presented to the security checker. */
  lemma {:induction false} StagesShape(h: Host, st: State, cmds: seq<CommandNode>, i: nat, prev: string, results: seq<CommandResult>)
    requires i <= |cmds| && |results| == i
    ensures var out := RunStages(h, st, cmds, i, prev, results);
      out.0.Ok? ==>
        var rs := out.0.value.results;
        && i <= |rs| <= |cmds| && 0 < |rs| && rs[..i] == results
        && out.1.gateLog == st.gateLog + cmds[i..|rs|]
    ensures |cmds| == 0 ==> RunStages(h, st, cmds, i, prev, results) == (Err(PipelinePanic), st)
    decreases |cmds| - i
  {
    if i < |cmds| {
      var r0, s0 := StageTurn(h, st, cmds, i, prev, results);
      if r0.Ok? && !r0.value.success {
        assert (results + [r0.value])[..i] == results;
        assert cmds[i..i + 1] == [cmds[i]];
      } else if r0.Ok? {
        var results1 := results + [r0.value];
        StagesShape(h, s0, cmds, i + 1, r0.value.output, results1);
        var out := RunStages(h, s0, cmds, i + 1, r0.value.output, results1);
        if out.0.Ok? {
          var rs := out.0.value.results;
          assert rs[..i] == results by {
            assert rs[..i + 1][..i] == rs[..i];
            assert results1[..i] == results;
          }
          assert cmds[i..|rs|] == [cmds[i]] + cmds[i + 1..|rs|];
        }
      }
    } else {
      assert cmds[i..i] == [];
    }
  }

  /** Every stage after the first receives the previous stage's output as
      its input, in the environment and directory the loop started with. */
  lemma {:induction false} StagesInputs(h: Host, st: State, cmds: seq<CommandNode>, i: nat, prev: string, results: seq<CommandResult>)
    requires i <= |cmds| && |results| == i
    requires i > 0 ==> prev == results[i - 1].output
    ensures var out := RunStages(h, st, cmds, i, prev, results);
      out.0.Ok? ==>
        var rs := out.0.value.results;
        forall k | i <= k < |rs| && k < |cmds| && 0 < k :: StageResult(h, st.env, st.wd, cmds[k], rs[k - 1].output) == Ok(rs[k])
    decreases |cmds| - i
  {
    if i < |cmds| {
      var (r0, s0) := RunStage(h, st, cmds, i, prev);
      StageFacts(h, st, cmds, i, prev);
      StagesStep(h, st, cmds, i, prev, results);
      if r0.Ok? && r0.value.success {
        var results1 := results + [r0.value];
        StagesInputs(h, s0, cmds, i + 1, r0.value.output, results1);
        StagesShape(h, s0, cmds, i + 1, r0.value.output, results1);
        var out := RunStages(h, s0, cmds, i + 1, r0.value.output, results1);
        if out.0.Ok? && i > 0 {
          var rs := out.0.value.results;
          assert rs[i] == r0.value && rs[i - 1] == results[i - 1] by {
            assert rs[..i + 1][i] == rs[i] && rs[..i + 1][i - 1] == rs[i - 1];
          }
        }
      }
    }
  }

  /** The first failing stage ends the loop and gives the pipeline its exit
      code, output and error; if every stage succeeds the pipeline ends with
      exit 0, no error and the last stage's output. */
  lemma {:induction false} StagesOutcome(h: Host, st: State, cmds: seq<CommandNode>, i: nat, prev: string, results: seq<CommandResult>)
    requires i <= |cmds| && |results| == i && AllSucceeded(results)
    ensures var out := RunStages(h, st, cmds, i, prev, results);
      out.0.Ok? ==>
        var p := out.0.value;
        var rs := p.results;
        && 0 < |rs| <= |cmds| && AllSucceeded(rs[..|rs| - 1])
        && (p.success <==> |rs| == |cmds| && rs[|rs| - 1].success)
        && (p.success ==> p.exitCode == 0 && p.error == "" && p.output == rs[|rs| - 1].output)
        && (!p.success ==>
              p.exitCode == rs[|rs| - 1].exitCode && p.output == rs[|rs| - 1].output && p.error == rs[|rs| - 1].error)
    decreases |cmds| - i
  {
    if i < |cmds| {
      var r0, s0 := StageTurn(h, st, cmds, i, prev, results);
      if r0.Ok? {
        var results1 := results + [r0.value];
        assert results1[..|results1| - 1] == results;
        if r0.value.success {
          AllSucceededSnoc(results1);
          StagesOutcome(h, s0, cmds, i + 1, r0.value.output, results1);
        }
      }
    } else if 0 < |results| {
      AllSucceededSnoc(results);
    }
  }

  /** One stage: the first is an ordinary command, a later one the
      `StageResult` of its input; either is recorded by the security checker
      and leaves the environment and directory alone. */
  lemma StageFacts(h: Host, st: State, cmds: seq<CommandNode>, i: nat, prev: string)
    requires i < |cmds|
    ensures var (r, st1) := RunStage(h, st, cmds, i, prev);
      && st1.env == st.env && st1.wd == st.wd && st1.gateLog == st.gateLog + [cmds[i]]
      && (i == 0 ==> r == Ok(ExecCommand(h, st, cmds[0]).0))
      && (i > 0 ==> r == StageResult(h, st.env, st.wd, cmds[i], prev))
  {
    ExecCommandContract(h, st, cmds[0]);
  }

  /** One turn of the pipeline loop. */
  lemma StagesStep(h: Host, st: State, cmds: seq<CommandNode>, i: nat, prev: string, results: seq<CommandResult>)
    requires i < |cmds|
    ensures var (r0, s0) := RunStage(h, st, cmds, i, prev);
      && (r0.Err? ==> RunStages(h, st, cmds, i, prev, results) == (Err(r0.error), s0))
      && (r0.Ok? && !r0.value.success ==>
            RunStages(h, st, cmds, i, prev, results)
            == (Ok(PipelineResult(false, r0.value.exitCode, r0.value.output, r0.value.error, results + [r0.value])), s0))
      && (r0.Ok? && r0.value.success ==>
            RunStages(h, st, cmds, i, prev, results) == RunStages(h, s0, cmds, i + 1, r0.value.output, results + [r0.value]))
  {
  }

  /** One turn of the pipeline loop, naming the stage's outcome `r0` and the
      state `s0` after it. */
  lemma StageTurn(h: Host, st: State, cmds: seq<CommandNode>, i: nat, prev: string, results: seq<CommandResult>)
    returns (r0: Result<CommandResult, EngineFailure>, s0: State)
    requires i < |cmds|
    ensures s0.env == st.env && s0.wd == st.wd && s0.gateLog == st.gateLog + [cmds[i]]
    ensures r0.Err? ==> RunStages(h, st, cmds, i, prev, results) == (Err(r0.error), s0)
    ensures r0.Ok? && !r0.value.success ==>
      RunStages(h, st, cmds, i, prev, results)
      == (Ok(PipelineResult(false, r0.value.exitCode, r0.value.output, r0.value.error, results + [r0.value])), s0)
    ensures r0.Ok? && r0.value.success ==>
      RunStages(h, st, cmds, i, prev, results) == RunStages(h, s0, cmds, i + 1, r0.value.output, results + [r0.value])
  {
    StageFacts(h, st, cmds, i, prev);
    StagesStep(h, st, cmds, i, prev, results);
    r0, s0 := RunStage(h, st, cmds, i, prev).0, RunStage(h, st, cmds, i, prev).1;
  }

  /** `ExecutePipeline`: stage 0 is an ordinary command; every later stage
      receives the previous stage's output as its input and runs in the
      environment and directory the pipeline started with; the first failing
      stage ends the pipeline and gives it its exit code and error; a pipeline
      whose stages all succeed ends with exit 0, no error and the last stage's
      output; a pipe tree without command leaves panics. */
  lemma PipelineFlow(h: Host, st: State, n: Node)
    ensures var cmds := CollectPipelineCommands(n);
      var (r, st1) := ExecPipeline(h, st, n);
      && st1.env == st.env && st1.wd == st.wd
      && (cmds == [] ==> r == Err(PipelinePanic))
      && (r.Ok? ==>
        var rs := r.value.results;
        && 0 < |rs| <= |cmds|
        && st1.gateLog == st.gateLog + cmds[..|rs|]
        && rs[0] == ExecCommand(h, st, cmds[0]).0
        && (forall k | 0 < k < |rs| :: StageResult(h, st.env, st.wd, cmds[k], rs[k - 1].output) == Ok(rs[k]))
        && (r.value.success <==> |rs| == |cmds| && AllSucceeded(rs))
        && (r.value.success ==> r.value.exitCode == 0 && r.value.error == "" && r.value.output == rs[|rs| - 1].output)
        && (!r.value.success ==> r.value.exitCode == rs[|rs| - 1].exitCode && r.value.error == rs[|rs| - 1].error))
  {
    var cmds := CollectPipelineCommands(n);
    StagesFrame(h, st, cmds, 0, "", []);
    StagesShape(h, st, cmds, 0, "", []);
    StagesInputs(h, st, cmds, 0, "", []);
    StagesOutcome(h, st, cmds, 0, "", []);
    FirstStage(h, st, cmds);
    var r := ExecPipeline(h, st, n).0;
    if r.Ok? {
      var rs := r.value.results;
      assert cmds[0..|rs|] == cmds[..|rs|];
      AllSucceededSnoc(rs);
    }
  }

  /** The first result of a pipeline is that of running its first stage as an
      ordinary command. */
  lemma FirstStage(h: Host, st: State, cmds: seq<CommandNode>)
    ensures var r := RunStages(h, st, cmds, 0, "", []).0;
      r.Ok? ==> 0 < |cmds| && 0 < |r.value.results| && r.value.results[0] == ExecCommand(h, st, cmds[0]).0
  {
    StagesShape(h, st, cmds, 0, "", []);
    if 0 < |cmds| {
      var (r0, s0) := RunStage(h, st, cmds, 0, "");
      StageFacts(h, st, cmds, 0, "");
      StagesStep(h, st, cmds, 0, "", []);
      assert r0 == Ok(ExecCommand(h, st, cmds[0]).0);
      assert [] + [r0.value] == [r0.value];
      if r0.Ok? && r0.value.success {
        StagesShape(h, s0, cmds, 1, r0.value.output, [r0.value]);
        var rs := RunStages(h, s0, cmds, 1, r0.value.output, [r0.value]).0;
        if rs.Ok? {
          assert rs.value.results[..1][0] == rs.value.results[0];
        }
      }
    }
  }

  lemma AllSucceededSnoc(rs: seq<CommandResult>)
    requires 0 < |rs|
    ensures AllSucceeded(rs) <==> AllSucceeded(rs[..|rs| - 1]) && rs[|rs| - 1].success
  {
    var pre := rs[..|rs| - 1];
    if AllSucceeded(pre) && rs[|rs| - 1].success {
      forall k | 0 <= k < |rs| ensures rs[k].success {
        if k < |rs| - 1 {
          assert pre[k] == rs[k];
        }
      }
    }
    if AllSucceeded(rs) {
      forall k | 0 <= k < |pre| ensures pre[k].success {
        assert pre[k] == rs[k];
      }
    }
  }

  /** Stages after the first bypass mode selection: even a library function's
      name runs as a process there, and the result is stamped with the process
      mode unless the security checker rejected it. */
  lemma LaterStagesRunAsProcesses(h: Host, env: map<string, string>, wd: string, c: CommandNode, input: string)
    requires StageResult(h, env, wd, c, input).Ok?
    ensures h.security(c).None? ==> StageResult(h, env, wd, c, input).value.mode == Process
    ensures h.security(c).Some? ==> StageResult(h, env, wd, c, input).value.mode == Interpreted
  {
  }

  // ---------------------------------------------------------------------------
  // Execute never reports failure

  /** The loop of `Execute` keeps the output and error it started with, and
      only appends results. */
  lemma {:induction false} NodesKeepText(h: Host, st: State, ns: seq<Node>, acc: ExecutionResult)
    ensures var r := ExecNodes(h, st, ns, acc).0;
      r.Ok? ==>
        && r.value.output == acc.output && r.value.error == acc.error
        && |acc.commands| <= |r.value.commands| && r.value.commands[..|acc.commands|] == acc.commands
    decreases ns
  {
    if ns != [] {
      var (r, st1) := ExecNode(h, st, ns[0]);
      if r.Ok? {
        var acc1 := acc.(commands := acc.commands + r.value.commands);
        var acc2 := if r.value.success then acc1 else acc1.(success := false, exitCode := r.value.exitCode);
        NodesKeepText(h, st1, ns[1..], acc2);
        var res := ExecNodes(h, st1, ns[1..], acc2).0;
        if res.Ok? {
          assert res.value.commands[..|acc.commands|] == res.value.commands[..|acc2.commands|][..|acc.commands|];
        }
      }
    }
  }

  /** `Execute` as written: whenever it returns a result, that result is
      successful, and its output and error are empty, whatever the nodes did. */
  lemma ExecuteNeverFails(h: Host, st: State, s: ScriptNode)
    ensures var r := ExecScript(h, st, s).0;
      r.Ok? ==> r.value.success && r.value.output == "" && r.value.error == ""
  {
    NodesKeepText(h, st, s.nodes, NoCommands);
  }

  /** Hence the failure branch of `ExecuteFor` is unreachable: a body run by
      `Execute` never fails, so every item runs and the loop succeeds. */
  lemma {:induction false} ForNeverFails(h: Host, st: State, n: Node, i: nat, acc: ExecutionResult)
    requires n.For? && i <= |n.list|
    ensures var r := ExecFor(h, st, n, i, acc).0;
      r.Ok? ==> r.value.success && r.value.exitCode == 0
    decreases |n.list| - i
  {
    if i < |n.list| {
      var st1 := st.(env := st.env[n.variable := n.list[i]]);
      ExecuteNeverFails(h, st1, n.body);
      var (r, st2) := ExecScript(h, st1, n.body);
      if r.Ok? {
        ForNeverFails(h, st2, n, i + 1, acc.(commands := acc.commands + r.value.commands));
      }
    }
  }

  /** Likewise the failure branch of `ExecuteWhile` is unreachable. */
  lemma {:induction false} WhileNeverFails(h: Host, st: State, n: Node, iterations: nat, acc: ExecutionResult)
    requires n.While?
    ensures var r := ExecWhile(h, st, n, iterations, acc).0;
      r.Ok? ==> r.value.success && r.value.exitCode == 0
    decreases MaxIterations - iterations
  {
    if iterations < MaxIterations {
      var (c, st1) := EvalCondition(h, st, n.condition);
      if c.Ok? && c.value {
        ExecuteNeverFails(h, st1, n.body);
        var (r, st2) := ExecScript(h, st1, n.body);
        if r.Ok? {
          WhileNeverFails(h, st2, n, iterations + 1, acc.(commands := acc.commands + r.value.commands));
        }
      }
    }
  }

  /** So only a top-level command or pipeline can record a failure in
      `Execute`: every other node kind that runs reports success. */
  lemma OnlyCommandsAndPipesFail(h: Host, st: State, n: Node)
    requires !n.Command? && !n.Pipe?
    ensures var r := ExecNode(h, st, n).0;
      r.Ok? ==> r.value.success
  {
    match n
    case If(_, _, _, _) =>
      var (c, st1) := EvalCondition(h, st, n.condition);
      if c.Ok? && c.value {
        ExecuteNeverFails(h, st1, n.thenBody);
      } else if c.Ok? && n.elseBody.Some? {
        ExecuteNeverFails(h, st1, n.elseBody.value);
      }
    case For(_, _, _, _) => ForNeverFails(h, st, n, 0, NoCommands);
    case While(_, _, _) => WhileNeverFails(h, st, n, 0, NoCommands);
    case _ =>
  }

  /** An example: an `if` whose branch holds a command the security checker
      rejects still reports success, although the rejected result is among its
      commands. */
  lemma IfHidesFailure(h: Host, st: State, pos: Position, cond: CommandNode, bad: CommandNode)
    requires h.security(cond).None? && cond.name == "Print" && h.security(bad).Some?
    ensures var n := If(pos, Command(cond), ScriptNode(pos, [Command(bad)]), None);
      var r := ExecNode(h, st, n).0;
      && r.Ok? && r.value.success && |r.value.commands| == 1 && !r.value.commands[0].success
  {
    NeverFailingSucceeds(h.stdlib, "Print", cond.args);
    var (c, st1) := EvalCondition(h, st, Command(cond));
    assert c == Ok(true);
    var body := ScriptNode(pos, [Command(bad)]);
    var (r0, st2) := ExecCommand(h, st1, bad);
    assert !r0.success;
    assert ExecNode(h, st1, Command(bad)) == (Ok(Step([r0], false, r0.exitCode)), st2);
    assert body.nodes[1..] == [];
    assert NoCommands.commands + [r0] == [r0];
    var acc := NoCommands.(commands := [r0], success := false, exitCode := r0.exitCode);
    assert ExecNodes(h, st2, [], acc) == (Ok(acc), st2);
    assert ExecNodes(h, st1, body.nodes, NoCommands) == (Ok(acc), st2);
    assert ExecScript(h, st1, body).0 == Ok(acc.(success := true));
  }

  /** `ExecuteIf` with a false condition and no else branch: success, exit 0,
      no commands. */
  lemma IfWithoutElse(h: Host, st: State, n: Node)
    requires n.If? && n.elseBody.None? && EvalCondition(h, st, n.condition).0 == Ok(false)
    ensures ExecIf(h, st, n) == (Ok(ExecutionResult(true, 0, "", "", [])), EvalCondition(h, st, n.condition).1)
  {
  }

  /** Node kinds `Execute` does not handle stop it with an error naming the
      Go type; so does a condition that is not a command. */
  lemma UnsupportedNodes(h: Host, st: State, n: Node)
    ensures n.Redirect? || n.Script? ==>
      ExecNode(h, st, n) == (Err(Fatal("unsupported node type: " + n.TypeName())), st)
    ensures !n.Command? ==>
      EvalCondition(h, st, n) == (Err(Fatal("unsupported condition node type: " + n.TypeName())), st)
  {
  }

  /** Assignments set the variable; function definitions change nothing. */
  lemma AssignmentAndFunction(h: Host, st: State, n: Node)
    ensures n.Assignment? ==> ExecNode(h, st, n) == (Ok(Step([], true, 0)), st.(env := st.env[n.name := n.value]))
    ensures n.FunctionDef? ==> ExecNode(h, st, n) == (Ok(Step([], true, 0)), st)
  {
  }

  // ---------------------------------------------------------------------------
  // Scripts of plain commands

  predicate LastFailure(rs: seq<CommandResult>, j: int) {
    0 <= j < |rs| && !rs[j].success && forall k | j < k < |rs| :: rs[k].success
  }

  predicate AllCommands(ns: seq<Node>) {
    forall k | 0 <= k < |ns| :: ns[k].Command?
  }

  function CommandsOf(ns: seq<Node>): seq<CommandNode>
    requires AllCommands(ns)
    ensures |CommandsOf(ns)| == |ns|
  {
    if ns == [] then [] else [ns[0].cmd] + CommandsOf(ns[1..])
  }

  /** A command result added to `Execute`'s result: appended, and a failure
      recorded. */
  function Record(acc: ExecutionResult, r: CommandResult): ExecutionResult {
    var acc1 := acc.(commands := acc.commands + [r]);
    if r.success then acc1 else acc1.(success := false, exitCode := r.exitCode)
  }

  /** One turn of `Execute`'s loop at a command. */
  lemma CommandStep(h: Host, st: State, ns: seq<Node>, acc: ExecutionResult)
    requires ns != [] && ns[0].Command?
    ensures var (r0, s0) := ExecCommand(h, st, ns[0].cmd);
      ExecNodes(h, st, ns, acc) == ExecNodes(h, s0, ns[1..], Record(acc, r0))
  {
  }

  /** The loop of `Execute` over commands only runs every command, one
      result each, in order. */
  lemma {:induction false} CommandNodesShape(h: Host, st: State, ns: seq<Node>, acc: ExecutionResult)
    requires AllCommands(ns)
    ensures var out := ExecNodes(h, st, ns, acc);
      && out.0.Ok?
      && out.1.gateLog == st.gateLog + CommandsOf(ns) && out.1.env == st.env && out.1.wd == st.wd
      && |out.0.value.commands| == |acc.commands| + |ns| && out.0.value.commands[..|acc.commands|] == acc.commands
    decreases ns
  {
    if ns != [] {
      var c := ns[0].cmd;
      ExecCommandContract(h, st, c);
      CommandStep(h, st, ns, acc);
      var (r0, s0) := ExecCommand(h, st, c);
      var acc2 := Record(acc, r0);
      assert AllCommands(ns[1..]);
      CommandNodesShape(h, s0, ns[1..], acc2);
      var out := ExecNodes(h, s0, ns[1..], acc2);
      assert out.0.value.commands[..|acc.commands|] == acc.commands by {
        assert out.0.value.commands[..|acc2.commands|][..|acc.commands|] == out.0.value.commands[..|acc.commands|];
      }
      assert CommandsOf(ns) == [c] + CommandsOf(ns[1..]);
    }
  }

  lemma AllSucceededCons(r0: CommandResult, rest: seq<CommandResult>)
    ensures AllSucceeded([r0] + rest) <==> r0.success && AllSucceeded(rest)
  {
    var rs := [r0] + rest;
    if r0.success && AllSucceeded(rest) {
      forall k | 0 <= k < |rs| ensures rs[k].success {
        if k > 0 {
          assert rs[k] == rest[k - 1];
        }
      }
    }
    if AllSucceeded(rs) {
      assert rs[0] == r0;
      forall k | 0 <= k < |rest| ensures rest[k].success {
        assert rest[k] == rs[k + 1];
      }
    }
  }

  lemma LastFailureCons(r0: CommandResult, rest: seq<CommandResult>, j: int)
    requires LastFailure([r0] + rest, j)
    ensures j > 0 ==> LastFailure(rest, j - 1)
    ensures j == 0 ==> !r0.success && AllSucceeded(rest)
  {
    var rs := [r0] + rest;
    if j == 0 {
      forall k | 0 <= k < |rest| ensures rest[k].success {
        assert rest[k] == rs[k + 1];
      }
    } else {
      forall k | j - 1 < k < |rest| ensures rest[k].success {
        assert rest[k] == rs[k + 1];
      }
    }
  }

  /** The exit-code rule for the results `final` adds to `acc`: the exit code
      of the last failing one, or that of `acc` if none failed. */
  ghost predicate ExitRule(acc: ExecutionResult, final: ExecutionResult) {
    |acc.commands| <= |final.commands| && ExitRuleOn(final.commands[|acc.commands|..], acc, final)
  }

  /** The exit-code rule for results `rs` run after `acc`. */
  ghost predicate ExitRuleOn(rs: seq<CommandResult>, acc: ExecutionResult, final: ExecutionResult) {
    && (AllSucceeded(rs) ==> final.exitCode == acc.exitCode && final.success == acc.success)
    && (forall j | LastFailure(rs, j) :: final.exitCode == rs[j].exitCode && !final.success)
  }

  /** The exit code of `Execute`'s loop over commands is that of the last
      failing command, or the one the loop started with if none failed. */
  lemma {:induction false} CommandNodesExit(h: Host, st: State, ns: seq<Node>, acc: ExecutionResult)
    requires AllCommands(ns)
    ensures var r := ExecNodes(h, st, ns, acc).0;
      r.Ok? && ExitRule(acc, r.value)
    decreases ns
  {
    if ns == [] {
      assert acc.commands[|acc.commands|..] == [];
    } else {
      var r0, s0 := CommandStepExists(h, st, ns, acc);
      var acc2 := Record(acc, r0);
      assert AllCommands(ns[1..]);
      CommandNodesExit(h, s0, ns[1..], acc2);
      CommandNodesShape(h, s0, ns[1..], acc2);
      var final := ExecNodes(h, s0, ns[1..], acc2).0.value;
      assert final.commands[|acc.commands|] == r0 by {
        assert final.commands[..|acc2.commands|][|acc.commands|] == r0;
      }
      ExitCons(acc, r0, final);
    }
  }

  /** One turn of `Execute`'s loop at a command, naming only its result. */
  lemma CommandStepExists(h: Host, st: State, ns: seq<Node>, acc: ExecutionResult) returns (r0: CommandResult, s0: State)
    requires ns != [] && ns[0].Command?
    ensures ExecNodes(h, st, ns, acc) == ExecNodes(h, s0, ns[1..], Record(acc, r0))
  {
    CommandStep(h, st, ns, acc);
    r0, s0 := ExecCommand(h, st, ns[0].cmd).0, ExecCommand(h, st, ns[0].cmd).1;
  }

  /** Adding a command result in front keeps the exit-code rule. */
  lemma ExitCons(acc: ExecutionResult, r0: CommandResult, final: ExecutionResult)
    requires |acc.commands| + 1 <= |final.commands| && final.commands[|acc.commands|] == r0
    requires ExitRule(Record(acc, r0), final)
    ensures ExitRule(acc, final)
  {
    var n := |acc.commands|;
    var rest := final.commands[n + 1..];
    SliceCons(final.commands, n, r0);
    assert ExitRuleOn(rest, Record(acc, r0), final);
    ExitRuleOnCons(acc, r0, rest, final);
  }

  /** A slice of `s` from `n` starts with the element the prefix ends with. */
  lemma SliceCons<T>(s: seq<T>, n: nat, x: T)
    requires n + 1 <= |s| && s[n] == x
    ensures s[n..] == [x] + s[n + 1..]
  {
  }

  /** `ExitCons` on the added results alone. */
  lemma ExitRuleOnCons(acc: ExecutionResult, r0: CommandResult, rest: seq<CommandResult>, final: ExecutionResult)
    requires ExitRuleOn(rest, Record(acc, r0), final)
    ensures ExitRuleOn([r0] + rest, acc, final)
  {
    var rs := [r0] + rest;
    AllSucceededCons(r0, rest);
    forall j | LastFailure(rs, j)
      ensures final.exitCode == rs[j].exitCode && !final.success
    {
      LastFailureCons(r0, rest, j);
      if j > 0 {
        assert rs[j] == rest[j - 1];
      }
    }
    if !AllSucceeded(rest) {
      var j :| 0 <= j < |rest| && !rest[j].success;
      LastFailureExists(rest, j);
      var k :| LastFailure(rest, k);
      assert LastFailure(rs, k + 1);
    }
  }

  /** A sequence with a failure has a last one. */
  lemma {:induction false} LastFailureExists(rs: seq<CommandResult>, j: int)
    requires 0 <= j < |rs| && !rs[j].success
    ensures exists k :: LastFailure(rs, k)
    decreases |rs| - j
  {
    if !LastFailure(rs, j) {
      var k :| j < k < |rs| && !rs[k].success;
      LastFailureExists(rs, k);
    }
  }

  /** `Execute` on a script of commands (what the line parser produces): one
      result per command, success, and the exit code of the last failing
      command, or 0 if none failed. */
  lemma CommandScriptRuns(h: Host, st: State, s: ScriptNode)
    requires AllCommands(s.nodes)
    ensures var (r, st1) := ExecScript(h, st, s);
      && r.Ok? && r.value.success && |r.value.commands| == |s.nodes|
      && st1.gateLog == st.gateLog + CommandsOf(s.nodes)
      && (AllSucceeded(r.value.commands) ==> r.value.exitCode == 0)
      && (forall j | LastFailure(r.value.commands, j) :: r.value.exitCode == r.value.commands[j].exitCode)
  {
    CommandNodesShape(h, st, s.nodes, NoCommands);
    CommandNodesExit(h, st, s.nodes, NoCommands);
    var r := ExecNodes(h, st, s.nodes, NoCommands).0;
    assert r.value.commands[0..] == r.value.commands;
    assert ExitRule(NoCommands, r.value);
  }

  /** What the line parser produces always runs to completion in the engine. */
  lemma ParsedScriptRuns(h: Host, st: State, source: string)
    ensures var s := ScriptNode(Parser.ScriptStart, Parser.ParseLines(Parser.SplitLines(source)));
      var (r, st1) := ExecScript(h, st, s);
      r.Ok? && r.value.success && |r.value.commands| == |s.nodes|
  {
    var lines := Parser.SplitLines(source);
    var nodes := Parser.ParseLines(lines);
    Parser.ParsedNodesComeFromLines(lines);
    assert AllCommands(nodes) by {
      forall k | 0 <= k < |nodes| ensures nodes[k].Command? {
        assert nodes[k] in nodes;
      }
    }
    CommandScriptRuns(h, st, ScriptNode(Parser.ScriptStart, nodes));
  }

  // ---------------------------------------------------------------------------
  // Loops

  /** `n` copies of `c`. */
  function Repeat(c: CommandNode, n: nat): seq<CommandNode> {
    if n == 0 then [] else [c] + Repeat(c, n - 1)
  }

  predicate AssignmentsOnly(ns: seq<Node>) {
    forall k | 0 <= k < |ns| :: ns[k].Assignment?
  }

  lemma {:induction false} AssignmentsRun(h: Host, st: State, ns: seq<Node>, acc: ExecutionResult)
    requires AssignmentsOnly(ns)
    ensures ExecNodes(h, st, ns, acc).0 == Ok(acc)
    ensures ExecNodes(h, st, ns, acc).1.gateLog == st.gateLog
    decreases ns
  {
    if ns != [] {
      assert AssignmentsOnly(ns[1..]);
      AssignmentsRun(h, st.(env := st.env[ns[0].name := ns[0].value]), ns[1..], acc.(commands := acc.commands + []));
      assert acc.(commands := acc.commands + []) == acc;
    }
  }

  /** One turn of a `while` loop: the condition is evaluated once, then the
      body runs. */
  function WhileTurn(h: Host, n: Node, st: State): State
    requires n.While?
  {
    ExecScript(h, EvalCondition(h, st, n.condition).1, n.body).1
  }

  /** The state after `k` turns. */
  function WhileTurns(h: Host, n: Node, st: State, k: nat): State
    requires n.While?
    decreases k
  {
    if k == 0 then st else WhileTurns(h, n, WhileTurn(h, n, st), k - 1)
  }

  /** A `while` whose condition holds in every state and whose body never
      ends with an engine error. */
  ghost predicate AlwaysTrueLoop(h: Host, n: Node) {
    && n.While?
    && (forall st: State :: EvalCondition(h, st, n.condition).0 == Ok(true))
    && (forall st: State :: ExecScript(h, st, n.body).0.Ok?)
  }

  /** Such a loop, after `iterations` turns, runs one more turn for each
      iteration left below 10000, and then stops with the iteration-limit
      error. */
  lemma {:induction false} WhileHitsLimit(h: Host, st: State, n: Node, iterations: nat, acc: ExecutionResult)
    requires AlwaysTrueLoop(h, n)
    requires iterations <= MaxIterations
    ensures ExecWhile(h, st, n, iterations, acc) == (Err(TooManyIterations), WhileTurns(h, n, st, MaxIterations - iterations))
    decreases MaxIterations - iterations
  {
    if iterations < MaxIterations {
      var st1 := EvalCondition(h, st, n.condition).1;
      assert EvalCondition(h, st, n.condition).0 == Ok(true);
      var body := ExecScript(h, st1, n.body);
      assert body.0.Ok?;
      WhileContinues(h, st, n, iterations, acc);
      WhileHitsLimit(h, body.1, n, iterations + 1, acc.(commands := acc.commands + body.0.value.commands));
    }
  }

  /** From the start of the loop: exactly 10000 turns, each evaluating the
      condition once, then "exceeded maximum iterations". */
  lemma WhileLimitFromStart(h: Host, st: State, n: Node)
    requires AlwaysTrueLoop(h, n)
    ensures ExecWhile(h, st, n, 0, NoCommands) == (Err(TooManyIterations), WhileTurns(h, n, st, 10000))
    ensures TooManyIterations == Fatal("while loop exceeded maximum iterations (10000)")
  {
    WhileHitsLimit(h, st, n, 0, NoCommands);
  }

  /** A turn presents the condition to the security checker before the body
      runs. */
  lemma ConditionComesFirst(h: Host, st: State, n: Node)
    requires n.While? && n.condition.Command?
    ensures EvalCondition(h, st, n.condition).1.gateLog == st.gateLog + [n.condition.cmd]
  {
    ExecCommandContract(h, st, n.condition.cmd);
  }

  /** A `while` whose condition is a library call that cannot fail and
      passes the security checker, and whose body only assigns. */
  ghost predicate IdleLoop(h: Host, n: Node) {
    && n.While? && n.condition.Command? && n.condition.cmd.name in NeverFailing
    && h.security(n.condition.cmd).None?
    && AssignmentsOnly(n.body.nodes)
  }

  /** Such a loop, after `iterations` turns, presents its condition to the
      security checker once per remaining turn up to 10000, and nothing
      else, then stops with the iteration-limit error. */
  lemma {:induction false} IdleLoopHitsLimit(h: Host, st: State, n: Node, iterations: nat, acc: ExecutionResult)
    requires IdleLoop(h, n)
    requires iterations <= MaxIterations
    ensures var out := ExecWhile(h, st, n, iterations, acc);
      out.0 == Err(TooManyIterations) && out.1.gateLog == st.gateLog + Repeat(n.condition.cmd, MaxIterations - iterations)
    decreases MaxIterations - iterations
  {
    var c := n.condition.cmd;
    if iterations < MaxIterations {
      var st2 := WhileIdleTurn(h, st, n, iterations, acc);
      IdleLoopHitsLimit(h, st2, n, iterations + 1, acc);
      assert Repeat(c, MaxIterations - iterations) == [c] + Repeat(c, MaxIterations - (iterations + 1));
    }
  }

  /** `Repeat` holds `n` copies of `c` and nothing else. */
  lemma {:induction false} RepeatCopies(c: CommandNode, n: nat)
    ensures |Repeat(c, n)| == n && forall k | 0 <= k < n :: Repeat(c, n)[k] == c
  {
    if n > 0 {
      RepeatCopies(c, n - 1);
    }
  }

  /** From the start of an idle loop: the security checker sees the condition
      exactly 10000 times, then the limit error is returned. */
  lemma IdleLoopLimitFromStart(h: Host, st: State, n: Node)
    requires IdleLoop(h, n)
    ensures var out := ExecWhile(h, st, n, 0, NoCommands);
      && out.0 == Err(TooManyIterations)
      && |out.1.gateLog| == |st.gateLog| + 10000
      && out.1.gateLog[..|st.gateLog|] == st.gateLog
      && forall k | |st.gateLog| <= k < |out.1.gateLog| :: out.1.gateLog[k] == n.condition.cmd
  {
    IdleLoopHitsLimit(h, st, n, 0, NoCommands);
    RepeatCopies(n.condition.cmd, MaxIterations);
    var out := ExecWhile(h, st, n, 0, NoCommands);
    forall k | |st.gateLog| <= k < |out.1.gateLog|
      ensures out.1.gateLog[k] == n.condition.cmd
    {
      assert out.1.gateLog[k] == Repeat(n.condition.cmd, MaxIterations)[k - |st.gateLog|];
    }
  }

  /** A turn of an idle loop: the condition is presented to the security
      checker once, and nothing else is recorded. */
  lemma WhileIdleTurn(h: Host, st: State, n: Node, iterations: nat, acc: ExecutionResult) returns (st2: State)
    requires IdleLoop(h, n)
    requires iterations < MaxIterations
    ensures st2.gateLog == st.gateLog + [n.condition.cmd]
    ensures ExecWhile(h, st, n, iterations, acc) == ExecWhile(h, st2, n, iterations + 1, acc)
  {
    var c := n.condition.cmd;
    ConditionHolds(h, st, c);
    var st1 := Checked(st, c);
    AssignmentsRun(h, st1, n.body.nodes, NoCommands);
    st2 := ExecScript(h, st1, n.body).1;
    WhileContinues(h, st, n, iterations, acc);
    assert acc.(commands := acc.commands + []) == acc;
  }

  /** A condition that is a never-failing library call holds. */
  lemma ConditionHolds(h: Host, st: State, c: CommandNode)
    requires c.name in NeverFailing && h.security(c).None?
    ensures EvalCondition(h, st, Command(c)) == (Ok(true), Checked(st, c))
  {
    NeverFailingSucceeds(h.stdlib, c.name, c.args);
  }

  /** A turn of `ExecuteWhile` whose condition holds and whose body ends
      without an engine error goes on to the next turn. Only the body's
      commands are appended; the condition's result is not, and the body,
      run by `Execute`, never counts as failed. */
  lemma WhileContinues(h: Host, st: State, n: Node, iterations: nat, acc: ExecutionResult)
    requires n.While? && iterations < MaxIterations
    requires EvalCondition(h, st, n.condition).0 == Ok(true)
    requires ExecScript(h, EvalCondition(h, st, n.condition).1, n.body).0.Ok?
    ensures var (body, st2) := ExecScript(h, EvalCondition(h, st, n.condition).1, n.body);
      ExecWhile(h, st, n, iterations, acc) == ExecWhile(h, st2, n, iterations + 1, acc.(commands := acc.commands + body.value.commands))
  {
    ExecuteNeverFails(h, EvalCondition(h, st, n.condition).1, n.body);
  }

  /** A false condition ends `ExecuteWhile` with success and exit 0; the
      condition's own result is not added to the commands. */
  lemma WhileExit(h: Host, st: State, n: Node, iterations: nat, acc: ExecutionResult)
    requires n.While? && iterations < MaxIterations
    requires EvalCondition(h, st, n.condition).0 == Ok(false)
    ensures ExecWhile(h, st, n, iterations, acc) == (Ok(acc.(success := true, exitCode := 0)), EvalCondition(h, st, n.condition).1)
  {
  }

  /** A `for` loop with an empty body runs through all items and leaves its
      variable set to the last one. */
  lemma {:induction false} ForLeavesLastItem(h: Host, st: State, n: Node, i: nat, acc: ExecutionResult)
    requires n.For? && n.body.nodes == [] && i <= |n.list|
    ensures var (r, st1) := ExecFor(h, st, n, i, acc);
      && r == Ok(acc.(success := true, exitCode := 0))
      && st1.env == (if i < |n.list| then st.env[n.variable := n.list[|n.list| - 1]] else st.env)
    decreases |n.list| - i
  {
    if i < |n.list| {
      var st1 := st.(env := st.env[n.variable := n.list[i]]);
      assert ExecScript(h, st1, n.body) == (Ok(NoCommands.(success := true)), st1);
      ForLeavesLastItem(h, st1, n, i + 1, acc.(commands := acc.commands + []));
      assert acc.(commands := acc.commands + []) == acc;
    }
  }

  /** A turn of `ExecuteFor`: the variable is set to the item before the body
      runs, and a successful body's commands are appended after those of the
      earlier items. */
  lemma ForTurn(h: Host, st: State, n: Node, i: nat, acc: ExecutionResult)
    requires n.For? && i < |n.list|
    requires var body := ExecScript(h, st.(env := st.env[n.variable := n.list[i]]), n.body).0;
      body.Ok? && body.value.success
    ensures var st1 := st.(env := st.env[n.variable := n.list[i]]);
      var (body, st2) := ExecScript(h, st1, n.body);
      ExecFor(h, st, n, i, acc) == ExecFor(h, st2, n, i + 1, acc.(commands := acc.commands + body.value.commands))
  {
  }
}
