/** The nodes of a parsed shell pipeline (waf-tools/shellcmd.py), which lists of them a parse can
    produce, and the tokens such a list is written with. */
module ShellSyntax {
  import opened Texts
  import opened Wrappers

  datatype Redirect = Inherit | ToPipe | ToStdout | ToFile(name: string)

  /** A dictionary in insertion order. */
  type Env = seq<(string, string)>

  datatype Node =
    | Command(name: string, argv: seq<string>, stdin: Option<string>, stdout: Redirect, stderr: Redirect, env: Env)
    | Chdir(dir: Option<string>)
    | PipeOp
    | AndOp
    | OrOp

  predicate IsOp(n: Node) {
    n.PipeOp? || n.AndOp? || n.OrOp?
  }

  /** A new command before any redirection. */
  function NewCommand(name: string, env: Env): Node {
    Command(name, [name], None, Inherit, Inherit, env)
  }

  // ----- environment assignments -----

  predicate IsWordChar(c: char) {
    'a' <= c <= 'z' || 'A' <= c <= 'Z' || '0' <= c <= '9' || c == '_'
  }

  /** The characters that \s matches in a text pattern. */
  predicate IsSpace(c: char) {
    var n := c as int;
    || 0x09 <= n <= 0x0d || 0x1c <= n <= 0x20 || n == 0x85 || n == 0xa0 || n == 0x1680
    || 0x2000 <= n <= 0x200a || n == 0x2028 || n == 0x2029 || n == 0x202f || n == 0x205f || n == 0x3000
  }

  predicate IsWord(s: string) {
    s != "" && forall i :: 0 <= i < |s| ==> IsWordChar(s[i])
  }

  predicate IsSolid(s: string) {
    s != "" && forall i :: 0 <= i < |s| ==> !IsSpace(s[i])
  }

  function WordLength(s: string): (n: nat)
    ensures n <= |s| && (forall i :: 0 <= i < n ==> IsWordChar(s[i])) && (n < |s| ==> !IsWordChar(s[n]))
  {
    if s == "" || !IsWordChar(s[0]) then 0 else 1 + WordLength(s[1..])
  }

  /** The match of env_var_rx: a word, an equals sign and a value without white space. */
  function MatchEnv(token: string): Option<(string, string)> {
    var n := WordLength(token);
    if 0 < n < |token| && token[n] == '=' && IsSolid(DropFinalNewline(token[n + 1..]))
    then Some((token[..n], DropFinalNewline(token[n + 1..])))
    else None
  }

  lemma {:induction false} WordLengthOf(word: string, rest: string)
    requires forall i :: 0 <= i < |word| ==> IsWordChar(word[i])
    requires rest != "" && !IsWordChar(rest[0])
    ensures WordLength(word + rest) == |word|
  {
    if word == "" {
      assert word + rest == rest;
    } else {
      WordLengthOf(word[1..], rest);
      assert (word + rest)[1..] == word[1..] + rest;
    }
  }

  lemma AssignmentMatches(name: string, value: string)
    requires IsWord(name) && IsSolid(value)
    ensures MatchEnv(name + "=" + value) == Some((name, value))
  {
    var token := name + "=" + value;
    assert token == name + ("=" + value);
    WordLengthOf(name, "=" + value);
    assert token[|name| + 1..] == value;
    assert IsSpace('\n');
    assert !IsSpace(value[|value| - 1]);
  }

  lemma MatchesAreAssignments(token: string)
    requires MatchEnv(token).Some?
    ensures IsWord(MatchEnv(token).value.0) && IsSolid(MatchEnv(token).value.1)
  {
  }

  function SetVar(env: Env, name: string, value: string): Env {
    if env == [] then [(name, value)]
    else if env[0].0 == name then [(name, value)] + env[1..]
    else [env[0]] + SetVar(env[1..], name, value)
  }

  ghost predicate IsEnv(env: Env) {
    && (forall i :: 0 <= i < |env| ==> IsWord(env[i].0) && IsSolid(env[i].1))
    && (forall i, j :: 0 <= i < j < |env| ==> env[i].0 != env[j].0)
  }

  lemma {:induction false} SetVarKeepsEnv(env: Env, name: string, value: string)
    requires IsEnv(env) && IsWord(name) && IsSolid(value)
    ensures IsEnv(SetVar(env, name, value)) && SetVar(env, name, value) != []
    ensures forall i :: 0 <= i < |SetVar(env, name, value)| ==>
                          || SetVar(env, name, value)[i].0 == name
                          || exists j :: 0 <= j < |env| && env[j].0 == SetVar(env, name, value)[i].0
  {
    hide IsWord, IsSolid;
    if env == [] {
    } else if env[0].0 == name {
    } else {
      SetVarKeepsEnv(env[1..], name, value);
    }
  }

  lemma {:induction false} SetFreshVar(env: Env, name: string, value: string)
    requires forall i :: 0 <= i < |env| ==> env[i].0 != name
    ensures SetVar(env, name, value) == env + [(name, value)]
  {
    if env == [] {
    } else {
      SetFreshVar(env[1..], name, value);
    }
  }

  // ----- well-formed pipelines and how they are written -----

  predicate IsOperatorToken(t: string) {
    t in [">", "2>", "2>&1", "<", "|", "&&", "||"]
  }

  ghost predicate NodeOk(n: Node) {
    match n
    case Command(name, argv, stdin, stdout, stderr, env) =>
      && name != "cd" && MatchEnv(name) == None
      && |argv| > 0 && argv[0] == name && (forall i :: 1 <= i < |argv| ==> !IsOperatorToken(argv[i]))
      && stdout != ToStdout && stderr != ToPipe && IsEnv(env)
    case Chdir(dir) => dir != Some("&&")
    case _ => false
  }

  /** Which operator may follow which node. */
  ghost predicate MayPrecede(n: Node, op: Node) {
    && IsOp(op)
    && (n.Command? ==> (n.stdout == ToPipe <==> op == PipeOp))
    && (n.Chdir? ==> op == AndOp)
  }

  ghost predicate MayBeLast(n: Node) {
    n.Command? ==> n.stdout != ToPipe
  }

  /** Nodes and operators alternate from node to node; a command writes to a pipe exactly when
      one follows; a change of directory is last or followed by an and. */
  ghost predicate WellFormed(p: seq<Node>) {
    && p != [] && NodeOk(p[0])
    && if |p| == 1 then MayBeLast(p[0]) else MayPrecede(p[0], p[1]) && WellFormed(p[2..])
  }

  /** The same, position by position. */
  ghost predicate Alternating(p: seq<Node>) {
    |p| % 2 == 1 && forall i {:trigger PositionOk(p, i)} :: 0 <= i < |p| ==> PositionOk(p, i)
  }

  ghost predicate PositionOk(p: seq<Node>, i: nat)
    requires i < |p|
  {
    if i % 2 == 1 then IsOp(p[i])
    else NodeOk(p[i]) && if i == |p| - 1 then MayBeLast(p[i]) else MayPrecede(p[i], p[i + 1])
  }

  lemma {:induction false} WellFormedIffAlternating(p: seq<Node>)
    ensures WellFormed(p) <==> Alternating(p)
    decreases |p|
  {
    if |p| <= 2 {
      if Alternating(p) {
        assert PositionOk(p, 0);
      }
    } else {
      hide NodeOk, MayBeLast;
      WellFormedIffAlternating(p[2..]);
      if Alternating(p) {
        assert PositionOk(p, 0);
        forall i | 0 <= i < |p[2..]|
          ensures PositionOk(p[2..], i)
        {
          assert PositionOk(p, i + 2);
        }
      }
      if WellFormed(p) {
        forall i | 0 <= i < |p|
          ensures PositionOk(p, i)
        {
          if i >= 2 {
            assert PositionOk(p[2..], i - 2);
          }
        }
      }
    }
  }

  ghost function EnvTokens(env: Env): seq<string> {
    if env == [] then [] else [env[0].0 + "=" + env[0].1] + EnvTokens(env[1..])
  }

  ghost function RedirectTokens(stdin: Option<string>, stdout: Redirect, stderr: Redirect): seq<string> {
    (if stdin.Some? then ["<", stdin.value] else []) +
    (if stdout.ToFile? then [">", stdout.name] else []) +
    (match stderr case ToFile(name) => ["2>", name] case ToStdout => ["2>&1"] case _ => [])
  }

  ghost function NodeTokens(n: Node): seq<string> {
    match n
    case Command(name, argv, stdin, stdout, stderr, env) =>
      EnvTokens(env) + argv + RedirectTokens(stdin, stdout, stderr)
    case Chdir(dir) => ["cd"] + if dir.Some? then [dir.value] else []
    case PipeOp => ["|"]
    case AndOp => ["&&"]
    case OrOp => ["||"]
  }

  ghost function Tokens(p: seq<Node>): seq<string> {
    if p == [] then [] else NodeTokens(p[0]) + Tokens(p[1..])
  }
}
