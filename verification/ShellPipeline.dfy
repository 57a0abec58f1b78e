/** The Pipeline class of waf-tools/shellcmd.py: parsing a token list into nodes and running them.
    Commands exit as an oracle says; starting a process and opening a file always succeed. */
module ShellPipeline {
  import opened Wrappers
  import opened ShellSyntax
  import opened ShellParse
  import opened ShellEval
  import opened ShellMeaning
  import opened ShellSpawns

  /** How run returns: with an exit status or an exception as the evaluator has it, with None, or
      with a failed assertion about the kind of a node. */
  datatype Return = Ended(outcome: Outcome) | ReturnedNone | FailedAssertion

  class Pipeline {
    var currentCommand: Option<Node>
    var pipeline: seq<Node>

    constructor ()
      ensures currentCommand == None && pipeline == []
    {
      currentCommand := None;
      pipeline := [];
    }

    method CommitCommand() returns (ok: bool)
      modifies this
      ensures ok == old(currentCommand).Some?
      ensures ok ==> currentCommand == None && pipeline == old(pipeline) + [old(currentCommand).value]
      ensures !ok ==> currentCommand == old(currentCommand) && pipeline == old(pipeline)
    {
      ok := currentCommand.Some?;
      if ok {
        pipeline := pipeline + [currentCommand.value];
        currentCommand := None;
      }
    }

    /** One token, as the branch for the current state treats it; false on a failed assertion. */
    method Consume(mode0: Mode, env0: Env, token: string) returns (ok: bool, mode: Mode, env: Env)
      requires Coherent(State(mode0, env0, currentCommand, pipeline))
      modifies this
      ensures ok == Feed(old(State(mode0, env0, currentCommand, pipeline)), token).Success?
      ensures ok ==> Feed(old(State(mode0, env0, currentCommand, pipeline)), token) ==
                     Success(State(mode, env, currentCommand, pipeline))
    {
      mode, env, ok := mode0, env0, true;
      match mode0 {
        case Begin =>
          var envVarMatch := MatchEnv(token);
          if envVarMatch.Some? {
            env := SetVar(env, envVarMatch.value.0, envVarMatch.value.1);
          } else if token == "cd" {
            currentCommand := Some(Chdir(None));
            ok := env == [];
            mode := InChdir;
          } else {
            currentCommand := Some(NewCommand(token, env));
            env := [];
            mode := InCommand;
          }
        case InCommand =>
          var c := currentCommand.value;
          if token == ">" {
            mode := AtStdout;
          } else if token == "2>" {
            mode := AtStderr;
          } else if token == "2>&1" {
            ok := c.stderr == Inherit;
            currentCommand := Some(c.(stderr := ToStdout));
          } else if token == "<" {
            mode := AtStdin;
          } else if token == "|" {
            ok := c.stdout == Inherit;
            currentCommand := Some(c.(stdout := ToPipe));
            var committed := CommitCommand();
            pipeline := pipeline + [PipeOp];
            mode := Begin;
          } else if token == "&&" {
            var committed := CommitCommand();
            pipeline := pipeline + [AndOp];
            mode := Begin;
          } else if token == "||" {
            var committed := CommitCommand();
            pipeline := pipeline + [OrOp];
            mode := Begin;
          } else {
            currentCommand := Some(c.(argv := c.argv + [token]));
          }
        case InChdir =>
          if token == "&&" {
            var committed := CommitCommand();
            pipeline := pipeline + [AndOp];
            mode := Begin;
          } else {
            ok := currentCommand.value.dir == None;
            currentCommand := Some(Chdir(Some(token)));
          }
        case AtStdout =>
          ok := currentCommand.value.stdout == Inherit;
          currentCommand := Some(currentCommand.value.(stdout := ToFile(token)));
          mode := InCommand;
        case AtStderr =>
          ok := currentCommand.value.stderr == Inherit;
          currentCommand := Some(currentCommand.value.(stderr := ToFile(token)));
          mode := InCommand;
        case AtStdin =>
          ok := currentCommand.value.stdin == None;
          currentCommand := Some(currentCommand.value.(stdin := Some(token)));
          mode := InCommand;
      }
    }

    method Parse(tokens: seq<string>) returns (ok: bool)
      modifies this
      ensures ok == ParseTokens(tokens).Success?
      ensures ok ==> pipeline == ParseTokens(tokens).value && WellFormed(pipeline) && currentCommand == None
    {
      currentCommand := None;
      pipeline := [];
      var mode, env := Begin, [];
      for i := 0 to |tokens|
        invariant Coherent(State(mode, env, currentCommand, pipeline))
        invariant FeedAll(Start, tokens) == FeedAll(State(mode, env, currentCommand, pipeline), tokens[i..])
      {
        ok, mode, env := Consume(mode, env, tokens[i]);
        if !ok {
          return;
        }
        assert tokens[i..][1..] == tokens[i + 1..];
      }
      assert tokens[|tokens|..] == [];
      ok := CommitCommand();
      if ok {
        ParsedIsWellFormed(tokens);
      }
    }

    /** Waits for the given processes in order. Any non-zero status makes the last one the result. */
    method ExecPipedCommands(oracle: Oracle, w0: World, pids: seq<nat>) returns (retval: int, w: World)
      requires pids != [] ==> pids == Pids(pids[0], |pids|)
      ensures pids == [] ==> retval == 0 && w == w0
      ensures pids != [] ==>
                && w == WaitAll(w0, pids[0], pids[0] + |pids|)
                && retval == oracle(WaitAll(w0, pids[0], pids[0] + |pids| - 1).log, pids[0] + |pids| - 1)
    {
      var retvals: seq<int> := [];
      w := w0;
      for i := 0 to |pids|
        invariant |retvals| == i
        invariant pids != [] ==> w == WaitAll(w0, pids[0], pids[0] + i)
        invariant pids == [] ==> w == w0
        invariant i > 0 ==> retvals[i - 1] == oracle(WaitAll(w0, pids[0], pids[0] + i - 1).log, pids[0] + i - 1)
      {
        retvals := retvals + [oracle(w.log, pids[i])];
        w := Log(w, Waited(pids[i]));
      }
      retval := 0;
      for i := 0 to |retvals|
        invariant retval == 0 && forall k :: 0 <= k < i ==> retvals[k] == 0
      {
        if retvals[i] != 0 {
          retval := retvals[|retvals| - 1];
          break;
        }
      }
    }

    method CloseFiles(w0: World, files: seq<nat>) returns (w: World)
      requires files != [] ==> files == Pids(files[0], |files|)
      ensures files == [] ==> w == w0
      ensures files != [] ==> w == CloseAll(w0, files[0], files[0] + |files|)
    {
      w := w0;
      for i := 0 to |files|
        invariant files == [] ==> w == w0
        invariant files != [] ==> w == CloseAll(w0, files[0], files[0] + i)
      {
        w := Log(w, Closed(files[i]));
      }
    }

    /** Opens what the command's redirections name and starts it. The null device is shared and
        never closed, so it is not put among the files to close. */
    method StartCommand(w0: World, cmd: Node, cwd: string, piped: Option<nat>, filesToClose0: seq<nat>)
      returns (w: World, filesToClose: seq<nat>)
      requires cmd.Command?
      ensures w == Spawn(w0, Placed(cmd, cwd), piped)
      ensures filesToClose == filesToClose0 + Pids(w0.files, w.files - w0.files)
    {
      w, filesToClose := w0, filesToClose0;
      var stdin, stdout, stderr;
      if piped.Some? {
        stdin := FromProcess(piped.value);
      } else if cmd.stdin.Some? {
        stdin := FromFile(w.files);
        filesToClose := filesToClose + [w.files];
        w := OpenFile(w, OpenedForReading(cmd.stdin.value));
      } else {
        stdin := OwnStdin;
      }
      w, filesToClose, stdout := OpenRedirect(w, filesToClose, cmd.stdout);
      w, filesToClose, stderr := OpenRedirect(w, filesToClose, cmd.stderr);
      var procCwd := if cwd == "." then None else Some(cwd);
      w := World(w.log + [Spawned(cmd.argv, stdin, stdout, stderr, cmd.env, procCwd)], w.files, w.procs + 1);
    }

    method OpenRedirect(w0: World, filesToClose0: seq<nat>, r: Redirect)
      returns (w: World, filesToClose: seq<nat>, target: Target)
      ensures (w, target) == OpenTarget(w0, r) && w.files >= w0.files
      ensures filesToClose == filesToClose0 + Pids(w0.files, w.files - w0.files)
    {
      w, filesToClose := w0, filesToClose0;
      match r {
        case Inherit => target := OwnStream;
        case ToPipe => target := NewPipe;
        case ToStdout => target := Merged;
        case ToFile(name) =>
          if name == "NUL:" || name == "/dev/null" {
            target := NullDevice;
          } else {
            target := IntoFile(w.files);
            filesToClose := filesToClose + [w.files];
            w := OpenFile(w, OpenedForWriting(name));
          }
      }
    }

    /** Waits for everything started since start and closes what has been opened since. */
    method FinishGroup(oracle: Oracle, w0: World, pids: seq<nat>, files: seq<nat>, ghost start: World)
      returns (retval: int, w: World)
      requires pids != [] && SinceStart(start, w0, pids, files)
      ensures start.procs < w0.procs && start.files <= w0.files && (Exit(retval), w) == Finish(oracle, start, w0)
    {
      retval, w := ExecPipedCommands(oracle, w0, pids);
      w := CloseFiles(w, files);
    }

    /** Runs the pipeline without verbose output. */
    method Run(oracle: Oracle) returns (r: Return, w: World)
      ensures pipeline == [] ==> r == ReturnedNone && w == World([], 0, 0)
      ensures WellFormed(pipeline) ==>
                var script := ScriptOf(pipeline, ".", []);
                ScriptOk(script) && (var meaning := RightNested(oracle, World([], 0, 0), script);
                                     r == Ended(meaning.0) && w == meaning.1)
      ensures WellFormed(pipeline) ==> r.Ended? && RanAs(oracle, pipeline, r.outcome, w)
    {
      hide Running, SinceStart, WellFormed, ScriptOf, RightNested, SpawnAll, RunGroup, Finish, Spawn, ScriptOk,
        Meaning, AreCommands, Pids, JoinPath, RanAs;
      var rest := pipeline;
      var filesToClose: seq<nat>, pipedCommands: seq<nat>, inPipe, cwd := [], [], false, ".";
      w := World([], 0, 0);
      ghost var start, group: seq<Placed> := w, [];
      ghost var goal := StartOfRun(oracle, pipeline);
      if WellFormed(pipeline) {
        RunsAsWritten(oracle, pipeline);
      }
      NothingSinceStart(w);
      while rest != []
        invariant inPipe ==> pipedCommands != []
        invariant SinceStart(start, w, pipedCommands, filesToClose)
        invariant WellFormed(pipeline) ==> Running(oracle, goal, rest, cwd, start, group, w)
        invariant WellFormed(pipeline) ==> rest != [] && (inPipe <==> group != [])
        invariant pipeline == [] ==> w == World([], 0, 0)
        invariant WellFormed(pipeline) ==> goal == Meaning(oracle, pipeline)
        decreases |rest|
      {
        ghost var nodes, wBefore, groupBefore, pipedBefore, filesBefore := rest, w, group, pipedCommands, filesToClose;
        var node := rest[0];
        rest := rest[1..];
        if WellFormed(pipeline) {
          FirstIsNode(oracle, goal, nodes, cwd, start, group, w);
          LastPid(oracle, goal, nodes, cwd, start, group, w, pipedCommands, filesToClose);
        }
        if node.Chdir? {
          if rest == [] {
            r := Ended(Raised(IndexError));
            return;
          }
          var nextOp := rest[0];
          rest := rest[1..];
          if !nextOp.AndOp? {
            r := FailedAssertion;
            return;
          }
          if node.dir == None {
            r := Ended(Raised(TypeError));
            return;
          }
          cwd := JoinPath(cwd, node.dir.value);
          assert nodes[1..][1..] == nodes[2..];
          continue;
        }
        if !node.Command? {
          r := FailedAssertion;
          return;
        }
        var piped := if inPipe then Some(pipedCommands[|pipedCommands| - 1]) else None;
        w, filesToClose := StartCommand(w, node, cwd, piped, filesToClose);
        pipedCommands := pipedCommands + [w.procs - 1];
        group := group + [Placed(node, cwd)];
        StartedOne(start, wBefore, w, pipedBefore, filesBefore);
        if WellFormed(pipeline) {
          CommandStep(oracle, goal, nodes, cwd, start, groupBefore, wBefore, w);
          RanGroup(oracle, start, group, w);
        }
        if rest == [] {
          var retval;
          retval, w := FinishGroup(oracle, w, pipedCommands, filesToClose, start);
          r := Ended(Exit(retval));
          return;
        }
        var nextNode := rest[0];
        rest := rest[1..];
        assert nodes[1..][1..] == nodes[2..];
        if nextNode.PipeOp? {
          inPipe := true;
        } else if nextNode.OrOp? || nextNode.AndOp? {
          var retval;
          retval, w := FinishGroup(oracle, w, pipedCommands, filesToClose, start);
          filesToClose := [];
          if (nextNode.OrOp? && retval == 0) || (nextNode.AndOp? && retval != 0) {
            r := Ended(Exit(retval));
            return;
          }
          inPipe, pipedCommands := false, [];
          start, group := w, [];
          NothingSinceStart(w);
        }
      }
      r := ReturnedNone;
    }
  }

  ghost function Pids(lo: nat, n: nat): seq<nat> {
    seq(n, i => lo + i)
  }

  /** The processes and files numbered since start, in order. */
  ghost predicate SinceStart(start: World, w: World, pids: seq<nat>, files: seq<nat>) {
    && start.procs <= w.procs && start.files <= w.files
    && pids == Pids(start.procs, w.procs - start.procs) && files == Pids(start.files, w.files - start.files)
  }

  lemma NothingSinceStart(w: World)
    ensures SinceStart(w, w, [], [])
  {
  }

  lemma StartedOne(start: World, w: World, w': World, pids: seq<nat>, files: seq<nat>)
    requires SinceStart(start, w, pids, files) && w'.procs == w.procs + 1 && w'.files >= w.files
    ensures SinceStart(start, w', pids + [w'.procs - 1], files + Pids(w.files, w'.files - w.files))
  {
  }

  lemma LastPid(oracle: Oracle, goal: (Outcome, World), p: seq<Node>, cwd: string, start: World, group: seq<Placed>,
                w: World,
                pids: seq<nat>, files: seq<nat>)
    requires Running(oracle, goal, p, cwd, start, group, w) && SinceStart(start, w, pids, files)
    ensures group != [] ==> pids != [] && pids[|pids| - 1] == w.procs - 1
  {
    hide WellFormed, ScriptOf, RightNested;
  }
}
