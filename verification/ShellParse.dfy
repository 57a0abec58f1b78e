/** The six-state token parser of waf-tools/shellcmd.py as a function of its state and one token,
    and what it accepts. */
module ShellParse {
  import opened Wrappers
  import opened ShellSyntax

  datatype Mode = Begin | InCommand | InChdir | AtStderr | AtStdout | AtStdin

  /** env holds the assignments seen since the last node; current is the node being built. */
  datatype State = State(mode: Mode, env: Env, current: Option<Node>, pipeline: seq<Node>)

  /** Every failure of the parser is a failed Python assertion. */
  datatype Error = AssertionError

  const Start := State(Begin, [], None, [])

  function Commit(st: State): Result<State, Error> {
    if st.current == None then Failure(AssertionError)
    else Success(st.(current := None, pipeline := st.pipeline + [st.current.value]))
  }

  function CommitAndAppend(st: State, op: Node): Result<State, Error> {
    match Commit(st)
    case Failure(e) => Failure(e)
    case Success(done) => Success(done.(mode := Begin, pipeline := done.pipeline + [op]))
  }

  function FeedBegin(st: State, token: string): Result<State, Error> {
    match MatchEnv(token)
    case Some(v) => Success(st.(env := SetVar(st.env, v.0, v.1)))
    case None =>
      if st.current != None then Failure(AssertionError)
      else if token == "cd" then
        if st.env != [] then Failure(AssertionError)
        else Success(st.(mode := InChdir, current := Some(Chdir(None))))
      else Success(State(InCommand, [], Some(NewCommand(token, st.env)), st.pipeline))
  }

  function FeedCommand(st: State, token: string): Result<State, Error>
    requires st.current.Some? && st.current.value.Command?
  {
    var c := st.current.value;
    match token
    case ">" => Success(st.(mode := AtStdout))
    case "2>" => Success(st.(mode := AtStderr))
    case "2>&1" =>
      if c.stderr != Inherit then Failure(AssertionError) else Success(st.(current := Some(c.(stderr := ToStdout))))
    case "<" => Success(st.(mode := AtStdin))
    case "|" =>
      if c.stdout != Inherit then Failure(AssertionError)
      else CommitAndAppend(st.(current := Some(c.(stdout := ToPipe))), PipeOp)
    case "&&" => CommitAndAppend(st, AndOp)
    case "||" => CommitAndAppend(st, OrOp)
    case _ => Success(st.(current := Some(c.(argv := c.argv + [token]))))
  }

  function FeedChdir(st: State, token: string): Result<State, Error>
    requires st.current.Some? && st.current.value.Chdir?
  {
    if token == "&&" then CommitAndAppend(st, AndOp)
    else if st.current.value.dir != None then Failure(AssertionError)
    else Success(st.(current := Some(Chdir(Some(token)))))
  }

  function FeedTarget(st: State, token: string): Result<State, Error>
    requires st.current.Some? && st.current.value.Command?
  {
    var c := st.current.value;
    if st.mode == AtStdout then
      if c.stdout != Inherit then Failure(AssertionError)
      else Success(st.(mode := InCommand, current := Some(c.(stdout := ToFile(token)))))
    else if st.mode == AtStderr then
      if c.stderr != Inherit then Failure(AssertionError)
      else Success(st.(mode := InCommand, current := Some(c.(stderr := ToFile(token)))))
    else
      if c.stdin != None then Failure(AssertionError)
      else Success(st.(mode := InCommand, current := Some(c.(stdin := Some(token)))))
  }

  /** The kind of node each state is building. */
  predicate Coherent(st: State) {
    match st.mode
    case Begin => st.current == None
    case InChdir => st.current.Some? && st.current.value.Chdir?
    case _ => st.current.Some? && st.current.value.Command?
  }

  function Feed(st: State, token: string): (r: Result<State, Error>)
    requires Coherent(st)
    ensures r.Success? ==> Coherent(r.value)
  {
    match st.mode
    case Begin => FeedBegin(st, token)
    case InCommand => FeedCommand(st, token)
    case InChdir => FeedChdir(st, token)
    case _ => FeedTarget(st, token)
  }

  function FeedAll(st: State, tokens: seq<string>): (r: Result<State, Error>)
    requires Coherent(st)
    ensures r.Success? ==> Coherent(r.value)
    decreases |tokens|
  {
    if tokens == [] then Success(st) else
      match Feed(st, tokens[0])
      case Failure(e) => Failure(e)
      case Success(next) => FeedAll(next, tokens[1..])
  }

  function ParseTokens(tokens: seq<string>): Result<seq<Node>, Error> {
    match FeedAll(Start, tokens)
    case Failure(e) => Failure(e)
    case Success(st) =>
      match Commit(st)
      case Failure(e) => Failure(e)
      case Success(done) => Success(done.pipeline)
  }

  lemma {:induction false} FeedAllConcat(st: State, first: seq<string>, rest: seq<string>)
    requires Coherent(st)
    ensures FeedAll(st, first + rest) ==
            match FeedAll(st, first) { case Failure(e) => Failure(e) case Success(mid) => FeedAll(mid, rest) }
    decreases |first|
  {
    if first == [] {
      assert first + rest == rest;
    } else {
      assert (first + rest)[0] == first[0] && (first + rest)[1..] == first[1..] + rest;
      match Feed(st, first[0])
      case Failure(e) =>
      case Success(next) => FeedAllConcat(next, first[1..], rest);
    }
  }

  // ----- reading back what was written -----

  lemma {:induction false} FeedEnv(st: State, env: Env)
    requires st.mode == Begin && Coherent(st) && IsEnv(st.env + env)
    ensures FeedAll(st, EnvTokens(env)) == Success(st.(env := st.env + env))
    decreases |env|
  {
    if env == [] {
      assert st.env + env == st.env;
    } else {
      var v := env[0];
      assert (st.env + env)[|st.env|] == v;
      AssignmentMatches(v.0, v.1);
      forall i | 0 <= i < |st.env|
        ensures st.env[i].0 != v.0
      {
        assert (st.env + env)[i] == st.env[i];
      }
      SetFreshVar(st.env, v.0, v.1);
      var next := st.(env := st.env + [v]);
      assert next.env + env[1..] == st.env + env;
      FeedEnv(next, env[1..]);
    }
  }

  lemma {:induction false} FeedArguments(st: State, args: seq<string>)
    requires st.mode == InCommand && Coherent(st) && forall i :: 0 <= i < |args| ==> !IsOperatorToken(args[i])
    ensures var c := st.current.value;
            FeedAll(st, args) == Success(st.(current := Some(c.(argv := c.argv + args))))
    decreases |args|
  {
    var c := st.current.value;
    if args == [] {
      assert c.argv + args == c.argv;
    } else {
      var next := st.(current := Some(c.(argv := c.argv + [args[0]])));
      assert !IsOperatorToken(args[0]);
      assert Feed(st, args[0]) == Success(next);
      assert c.argv + [args[0]] + args[1..] == c.argv + args;
      FeedArguments(next, args[1..]);
    }
  }

  lemma FeedOne(st: State, token: string)
    requires Coherent(st)
    ensures FeedAll(st, [token]) == Feed(st, token)
  {
    assert [token][1..] == [];
  }

  lemma FeedTwo(st: State, op: string, target: string)
    requires Coherent(st)
    ensures FeedAll(st, [op, target]) ==
            match Feed(st, op) { case Failure(e) => Failure(e) case Success(mid) => Feed(mid, target) }
  {
    assert [op, target][1..] == [target];
    match Feed(st, op)
    case Failure(e) =>
    case Success(mid) =>
      FeedOne(mid, target);
  }

  lemma FeedRedirects(st: State, stdin: Option<string>, stdout: Redirect, stderr: Redirect)
    requires st.mode == InCommand && Coherent(st) && stderr != ToPipe && stdout != ToStdout
    requires var c := st.current.value; c.stdin == None && c.stdout == Inherit && c.stderr == Inherit
    ensures var c := st.current.value;
            FeedAll(st, RedirectTokens(stdin, stdout, stderr)) ==
            Success(st.(current := Some(c.(
                          stdin := stdin, stdout := if stdout.ToFile? then stdout else Inherit, stderr := stderr))))
  {
    var c := st.current.value;
    var t0: seq<string> := if stdin.Some? then ["<", stdin.value] else [];
    var t1: seq<string> := if stdout.ToFile? then [">", stdout.name] else [];
    var t2: seq<string> := match stderr case ToFile(name) => ["2>", name] case ToStdout => ["2>&1"] case _ => [];
    var s0 := st.(current := Some(c.(stdin := stdin)));
    var s1 := st.(current := Some(c.(stdin := stdin, stdout := if stdout.ToFile? then stdout else Inherit)));
    if stdin.Some? {
      FeedTwo(st, "<", stdin.value);
    }
    if stdout.ToFile? {
      FeedTwo(s0, ">", stdout.name);
    }
    if stderr.ToFile? {
      FeedTwo(s1, "2>", stderr.name);
    }
    FeedAllConcat(st, t0 + t1, t2);
    FeedAllConcat(st, t0, t1);
  }

  lemma FeedCommandNode(n: Node, pipeline: seq<Node>)
    requires NodeOk(n) && n.Command?
    ensures FeedAll(State(Begin, [], None, pipeline), NodeTokens(n)) ==
            Success(State(InCommand, [], Some(if n.stdout == ToPipe then n.(stdout := Inherit) else n), pipeline))
  {
    hide FeedAll, EnvTokens, RedirectTokens, IsEnv, MatchEnv;
    var begin := State(Begin, [], None, pipeline);
    var t0, t1, t2, t3 := EnvTokens(n.env), [n.name], n.argv[1..], RedirectTokens(n.stdin, n.stdout, n.stderr);
    assert begin.env + n.env == n.env;
    FeedEnv(begin, n.env);
    var s0 := begin.(env := n.env);
    var s1 := State(InCommand, [], Some(NewCommand(n.name, n.env)), pipeline);
    FeedOne(s0, n.name);
    FeedArguments(s1, t2);
    var s2 := State(InCommand, [], Some(Command(n.name, n.argv, None, Inherit, Inherit, n.env)), pipeline);
    assert t1 + t2 == n.argv;
    FeedRedirects(s2, n.stdin, n.stdout, n.stderr);
    FeedAllConcat(begin, t0, t1);
    FeedAllConcat(begin, t0 + t1, t2);
    FeedAllConcat(begin, t0 + t1 + t2, t3);
    assert NodeTokens(n) == t0 + t1 + t2 + t3;
  }

  lemma FeedChdirNode(n: Node, pipeline: seq<Node>)
    requires NodeOk(n) && n.Chdir?
    ensures FeedAll(State(Begin, [], None, pipeline), NodeTokens(n)) == Success(State(InChdir, [], Some(n), pipeline))
  {
    var begin := State(Begin, [], None, pipeline);
    assert MatchEnv("cd") == None;
    assert Feed(begin, "cd") == Success(State(InChdir, [], Some(Chdir(None)), pipeline));
    hide FeedAll;
    if n.dir.Some? {
      FeedTwo(begin, "cd", n.dir.value);
      assert NodeTokens(n) == ["cd", n.dir.value];
    } else {
      FeedOne(begin, "cd");
      assert NodeTokens(n) == ["cd"];
    }
  }

  /** After a node's tokens the parser holds that node, a command not yet joined to a pipe. */
  lemma FeedNode(n: Node, pipeline: seq<Node>) returns (st: State)
    requires NodeOk(n)
    ensures Coherent(st) && st.mode == (if n.Command? then InCommand else InChdir) && st.env == [] &&
            st.pipeline == pipeline
    ensures st.current == Some(if n.Command? && n.stdout == ToPipe then n.(stdout := Inherit) else n)
    ensures FeedAll(State(Begin, [], None, pipeline), NodeTokens(n)) == Success(st)
  {
    hide FeedAll, NodeTokens;
    if n.Command? {
      FeedCommandNode(n, pipeline);
      st := State(InCommand, [], Some(if n.stdout == ToPipe then n.(stdout := Inherit) else n), pipeline);
    } else {
      FeedChdirNode(n, pipeline);
      st := State(InChdir, [], Some(n), pipeline);
    }
  }

  /** A node and the operator after it are both in the pipeline once the operator is read. */
  lemma FeedNodeAndOp(n: Node, op: Node, before: seq<Node>)
    requires NodeOk(n) && MayPrecede(n, op)
    ensures FeedAll(State(Begin, [], None, before), NodeTokens(n) + NodeTokens(op)) ==
            Success(State(Begin, [], None, before + [n, op]))
  {
    hide Tokens, FeedAll, IsEnv;
    var st := FeedNode(n, before);
    assert before + [n] + [op] == before + [n, op];
    FeedAllConcat(State(Begin, [], None, before), NodeTokens(n), NodeTokens(op));
    assert NodeTokens(op) == [NodeTokens(op)[0]];
    FeedOne(st, NodeTokens(op)[0]);
  }

  lemma TokensOfThree(p: seq<Node>)
    requires |p| >= 2
    ensures Tokens(p) == (NodeTokens(p[0]) + NodeTokens(p[1])) + Tokens(p[2..])
  {
    hide NodeTokens;
    assert p[1..][0] == p[1] && p[1..][1..] == p[2..];
    assert Tokens(p[1..]) == NodeTokens(p[1]) + Tokens(p[2..]);
  }

  lemma FeedLastNode(n: Node, before: seq<Node>)
    requires NodeOk(n) && MayBeLast(n)
    ensures var r := FeedAll(State(Begin, [], None, before), Tokens([n]));
            r.Success? && Commit(r.value).Success? && Commit(r.value).value.pipeline == before + [n]
  {
    hide FeedAll, IsEnv, NodeTokens;
    var st := FeedNode(n, before);
    assert [n][1..] == [];
    assert Tokens([n]) == NodeTokens(n);
  }

  lemma {:induction false} FeedPipeline(p: seq<Node>, before: seq<Node>)
    requires WellFormed(p)
    ensures var r := FeedAll(State(Begin, [], None, before), Tokens(p));
            r.Success? && Commit(r.value).Success? && Commit(r.value).value.pipeline == before + p
    decreases |p|
  {
    hide FeedAll, Tokens, NodeTokens, NodeOk, MayPrecede, MayBeLast, Commit;
    if |p| == 1 {
      FeedLastNode(p[0], before);
      assert p == [p[0]];
    } else {
      var next := before + [p[0], p[1]];
      FeedNodeAndOp(p[0], p[1], before);
      TokensOfThree(p);
      FeedAllConcat(State(Begin, [], None, before), NodeTokens(p[0]) + NodeTokens(p[1]), Tokens(p[2..]));
      FeedPipeline(p[2..], next);
      assert next + p[2..] == before + p;
    }
  }

  // ----- only well-formed pipelines come out -----

  /** A list of complete nodes and operators that still needs a node to end it. */
  ghost predicate WantsNode(p: seq<Node>) {
    p == [] || (|p| >= 2 && NodeOk(p[0]) && MayPrecede(p[0], p[1]) && WantsNode(p[2..]))
  }

  /** What every reachable parser state keeps. */
  ghost predicate Reachable(st: State) {
    && Coherent(st) && WantsNode(st.pipeline) && IsEnv(st.env) && (st.mode != Begin ==> st.env == [])
    && (st.current.Some? ==> NodeOk(st.current.value) && MayBeLast(st.current.value))
  }

  lemma {:induction false} WantsNodeGrows(p: seq<Node>, n: Node, op: Node)
    requires WantsNode(p) && NodeOk(n) && MayPrecede(n, op)
    ensures WantsNode(p + [n] + [op])
  {
    if p == [] {
      assert p + [n] + [op] == [n, op];
    } else {
      WantsNodeGrows(p[2..], n, op);
      assert (p + [n] + [op])[2..] == p[2..] + [n] + [op];
    }
  }

  lemma {:induction false} LastNodeCompletes(p: seq<Node>, n: Node)
    requires WantsNode(p) && NodeOk(n) && MayBeLast(n)
    ensures WellFormed(p + [n])
  {
    if p == [] {
      assert p + [n] == [n];
    } else {
      LastNodeCompletes(p[2..], n);
      assert (p + [n])[2..] == p[2..] + [n];
    }
  }

  lemma CommitKeepsReachable(st: State, n: Node, op: Node)
    requires Reachable(st) && NodeOk(n) && MayPrecede(n, op) && st.env == []
    ensures var r := CommitAndAppend(st.(current := Some(n)), op); r.Success? && Reachable(r.value)
  {
    hide NodeOk, MayPrecede, IsEnv;
    WantsNodeGrows(st.pipeline, n, op);
  }

  lemma FeedBeginKeepsReachable(st: State, token: string)
    requires Reachable(st) && st.mode == Begin && FeedBegin(st, token).Success?
    ensures Reachable(FeedBegin(st, token).value)
  {
    hide WantsNode, SetVar;
    if MatchEnv(token).Some? {
      MatchesAreAssignments(token);
      SetVarKeepsEnv(st.env, MatchEnv(token).value.0, MatchEnv(token).value.1);
    }
  }

  lemma FeedCommandKeepsReachable(st: State, token: string)
    requires Reachable(st) && st.mode == InCommand && FeedCommand(st, token).Success?
    ensures Reachable(FeedCommand(st, token).value)
  {
    hide WantsNode, IsEnv, MatchEnv;
    var c := st.current.value;
    if token == "|" && c.stdout == Inherit {
      CommitKeepsReachable(st, c.(stdout := ToPipe), PipeOp);
    } else if token == "&&" {
      CommitKeepsReachable(st, c, AndOp);
    } else if token == "||" {
      CommitKeepsReachable(st, c, OrOp);
    }
  }

  lemma FeedKeepsReachable(st: State, token: string)
    requires Reachable(st) && Feed(st, token).Success?
    ensures Reachable(Feed(st, token).value)
  {
    hide WantsNode, IsEnv, MatchEnv, FeedBegin, FeedCommand;
    match st.mode
    case Begin => FeedBeginKeepsReachable(st, token);
    case InCommand => FeedCommandKeepsReachable(st, token);
    case InChdir =>
      if token == "&&" {
        CommitKeepsReachable(st, st.current.value, AndOp);
      }
    case _ =>
  }

  lemma {:induction false} FeedAllKeepsReachable(st: State, tokens: seq<string>)
    requires Reachable(st) && FeedAll(st, tokens).Success?
    ensures Reachable(FeedAll(st, tokens).value)
    decreases |tokens|
  {
    if tokens == [] {
    } else {
      FeedKeepsReachable(st, tokens[0]);
      FeedAllKeepsReachable(Feed(st, tokens[0]).value, tokens[1..]);
    }
  }

  lemma ParsedIsWellFormed(tokens: seq<string>)
    requires ParseTokens(tokens).Success?
    ensures WellFormed(ParseTokens(tokens).value)
  {
    FeedAllKeepsReachable(Start, tokens);
    var st := FeedAll(Start, tokens).value;
    LastNodeCompletes(st.pipeline, st.current.value);
  }

  /** Reading what was written gives a pipeline back exactly when it is well formed. */
  lemma ParseUndoesPrint(p: seq<Node>)
    ensures ParseTokens(Tokens(p)) == Success(p) <==> WellFormed(p)
  {
    if WellFormed(p) {
      FeedPipeline(p, []);
      assert [] + p == p;
    }
    if ParseTokens(Tokens(p)) == Success(p) {
      ParsedIsWellFormed(Tokens(p));
    }
  }

  /** Writing out what was parsed is a normal form: it parses to the same pipeline again. */
  lemma PrintNormalizes(tokens: seq<string>)
    requires ParseTokens(tokens).Success?
    ensures ParseTokens(Tokens(ParseTokens(tokens).value)) == ParseTokens(tokens)
  {
    ParsedIsWellFormed(tokens);
    ParseUndoesPrint(ParseTokens(tokens).value);
  }
}
