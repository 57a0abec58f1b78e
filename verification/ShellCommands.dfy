/** What the shell parser reads a command as, for its assignments, arguments and redirections written in any
    order and any number. */
module ShellCommands {
  import opened Wrappers
  import opened ShellSyntax
  import opened ShellParse
  import opened Texts

  // ----- what an assignment looks like -----

  const SMALL := "abcdefghijklmnopqrstuvwxyz"
  const LARGE := "ABCDEFGHIJKLMNOPQRSTUVWXYZ"
  const DIGITS := "0123456789"

  /** The characters that str.isspace is true of. */
  const WHITE_SPACE := "\t\n\U{0b}\U{0c}\r\U{1c}\U{1d}\U{1e}\U{1f} \U{85}\U{a0}\U{1680}"
                       + "\U{2000}\U{2001}\U{2002}\U{2003}\U{2004}\U{2005}\U{2006}\U{2007}\U{2008}\U{2009}\U{200a}"
                       + "\U{2028}\U{2029}\U{202f}\U{205f}\U{3000}"

  lemma SmallLetters(c: char)
    ensures 'a' <= c <= 'z' <==> c in SMALL
  {
  }

  lemma LargeLetters(c: char)
    ensures 'A' <= c <= 'Z' <==> c in LARGE
  {
  }

  lemma Digits(c: char)
    ensures '0' <= c <= '9' <==> c in DIGITS
  {
  }

  lemma WhiteSpace(c: char)
    ensures IsSpace(c) <==> c in WHITE_SPACE
  {
  }

  /** A word made of letters, digits and underscores. */
  ghost predicate IsName(s: string) {
    s != "" && forall i :: 0 <= i < |s| ==> s[i] in SMALL || s[i] in LARGE || s[i] in DIGITS || s[i] == '_'
  }

  ghost predicate HasNoSpace(s: string) {
    s != "" && forall i :: 0 <= i < |s| ==> s[i] !in WHITE_SPACE
  }

  lemma SameWords(s: string)
    ensures IsName(s) <==> IsWord(s)
    ensures HasNoSpace(s) <==> IsSolid(s)
  {
    hide IsWordChar, IsSpace;
    forall i | 0 <= i < |s|
      ensures IsWordChar(s[i]) <==> s[i] in SMALL || s[i] in LARGE || s[i] in DIGITS || s[i] == '_'
      ensures IsSpace(s[i]) <==> s[i] in WHITE_SPACE
    {
      IsWordCharIff(s[i]);
      WhiteSpace(s[i]);
    }
  }

  lemma IsWordCharIff(c: char)
    ensures IsWordChar(c) <==> c in SMALL || c in LARGE || c in DIGITS || c == '_'
  {
    SmallLetters(c);
    LargeLetters(c);
    Digits(c);
  }

  /** A token is an assignment exactly if it is a name, an equals sign and a value without white space, with
      at most one newline after it. */
  lemma MatchIff(token: string, name: string, value: string)
    ensures MatchEnv(token) == Some((name, value)) <==>
            IsName(name) && HasNoSpace(value) && (token == name + "=" + value || token == name + "=" + value + "\n")
  {
    hide IsWord, IsSolid, IsName, HasNoSpace;
    SameWords(name);
    SameWords(value);
    if MatchEnv(token) == Some((name, value)) {
      MatchesAreAssignments(token);
      MatchIsWritten(token);
    }
    if IsName(name) && HasNoSpace(value) && token == name + "=" + value {
      AssignmentMatches(name, value);
    }
    if IsName(name) && HasNoSpace(value) && token == name + "=" + value + "\n" {
      NewlineMatches(name, value);
    }
  }

  lemma MatchIsWritten(token: string)
    requires MatchEnv(token).Some?
    ensures var v := MatchEnv(token).value;
      token == v.0 + "=" + v.1 || token == v.0 + "=" + v.1 + "\n"
  {
    var n := WordLength(token);
    assert token == token[..n] + "=" + token[n + 1..];
    var rest := token[n + 1..];
    if rest != "" && rest[|rest| - 1] == '\n' {
      assert rest == rest[..|rest| - 1] + "\n";
    }
  }

  lemma NewlineMatches(name: string, value: string)
    requires IsWord(name) && IsSolid(value)
    ensures MatchEnv(name + "=" + value + "\n") == Some((name, value))
  {
    var token := name + "=" + value + "\n";
    assert token == name + ("=" + value + "\n");
    WordLengthOf(name, "=" + value + "\n");
    assert token[|name| + 1..] == value + "\n";
    assert (value + "\n")[..|value|] == value;
  }

  // ----- assignments -----

  ghost predicate AreAssignments(vars: seq<(string, string)>) {
    forall i :: 0 <= i < |vars| ==> IsWord(vars[i].0) && IsSolid(vars[i].1)
  }

  ghost predicate IsLast(vars: seq<(string, string)>, i: nat) {
    i < |vars| && forall j :: i < j < |vars| ==> vars[j].0 != vars[i].0
  }

  /** One name is assigned to before the other is for the first time. */
  ghost predicate ComesFirst(vars: seq<(string, string)>, name: string, other: string) {
    exists i :: 0 <= i < |vars| && vars[i].0 == name && forall j :: 0 <= j <= i ==> vars[j].0 != other
  }

  ghost predicate IsLastValue(vars: seq<(string, string)>, v: (string, string)) {
    exists i: nat :: IsLast(vars, i) && vars[i] == v
  }

  /** Each name assigned to is there with its last value, in the order of the first assignments. */
  ghost predicate IsEnvOf(env: Env, vars: seq<(string, string)>) {
    && (forall v :: v in env <==> IsLastValue(vars, v))
    && (forall i, j :: 0 <= i < j < |env| ==> env[i].0 != env[j].0 && ComesFirst(vars, env[i].0, env[j].0))
  }

  /** Setting a variable changes its value in place or puts it at the end. */
  lemma {:induction false} SetVarAt(env: Env, name: string, value: string) returns (i: nat)
    ensures i <= |env| && forall j :: 0 <= j < i ==> env[j].0 != name
    ensures i < |env| ==> env[i].0 == name && SetVar(env, name, value) == env[i := (name, value)]
    ensures i == |env| ==> SetVar(env, name, value) == env + [(name, value)]
    decreases |env|
  {
    if env == [] || env[0].0 == name {
      i := 0;
    } else {
      var h := SetVarAt(env[1..], name, value);
      i := h + 1;
      assert forall j :: 1 <= j < i ==> env[j] == env[1..][j - 1];
    }
  }

  lemma {:induction false} HasLast(vars: seq<(string, string)>, i: nat) returns (k: nat)
    requires i < |vars|
    ensures IsLast(vars, k) && vars[k].0 == vars[i].0
    decreases |vars| - i
  {
    if j :| i < j < |vars| && vars[j].0 == vars[i].0 {
      k := HasLast(vars, j);
    } else {
      k := i;
    }
  }

  ghost function VarTokens(vars: seq<(string, string)>): seq<string> {
    if vars == [] then [] else
      VarTokens(vars[..|vars| - 1]) + [vars[|vars| - 1].0 + "=" + vars[|vars| - 1].1]
  }

  lemma LastValuesOfMore(vars: seq<(string, string)>, v: (string, string), x: (string, string))
    ensures IsLastValue(vars + [v], x) <==> x == v || (x.0 != v.0 && IsLastValue(vars, x))
  {
    var more := vars + [v];
    assert more[|vars|] == v && IsLast(more, |vars|);
    assert forall j :: 0 <= j < |vars| ==> vars[j] == more[j];
    if i: nat :| IsLast(more, i) && more[i] == x {
      assert i < |vars| ==> IsLast(vars, i) && more[|vars|].0 != x.0;
    }
    if i: nat :| x.0 != v.0 && IsLast(vars, i) && vars[i] == x {
      assert IsLast(more, i) && more[i] == x;
    }
  }

  lemma FirstStays(vars: seq<(string, string)>, v: (string, string), name: string, other: string)
    requires ComesFirst(vars, name, other)
    ensures ComesFirst(vars + [v], name, other)
  {
    var i :| 0 <= i < |vars| && vars[i].0 == name && forall j :: 0 <= j <= i ==> vars[j].0 != other;
    assert (vars + [v])[i].0 == name;
  }

  lemma NewComesLast(vars: seq<(string, string)>, v: (string, string), i: nat)
    requires i < |vars| && forall j :: 0 <= j < |vars| ==> vars[j].0 != v.0
    ensures ComesFirst(vars + [v], vars[i].0, v.0)
  {
    assert (vars + [v])[i] == vars[i];
  }

  lemma OneMoreVar(env: Env, vars: seq<(string, string)>, v: (string, string))
    requires IsEnvOf(env, vars)
    ensures IsEnvOf(SetVar(env, v.0, v.1), vars + [v])
  {
    hide IsLastValue, ComesFirst, SetVar;
    var env' := SetVar(env, v.0, v.1);
    var at := SetVarAt(env, v.0, v.1);
    forall x ensures x in env' <==> IsLastValue(vars + [v], x) {
      LastValuesOfMore(vars, v, x);
      InSet(env, at, v, x);
    }
    if at == |env| {
      NotAssigned(env, vars, v.0);
    }
    forall i, j | 0 <= i < j < |env'| ensures env'[i].0 != env'[j].0 && ComesFirst(vars + [v], env'[i].0, env'[j].0) {
      if j < |env| {
        FirstStays(vars, v, env[i].0, env[j].0);
      } else {
        assert IsLastValue(vars, env[i]);
        var k := AssignedAt(vars, env[i]);
        NewComesLast(vars, v, k);
      }
    }
  }

  lemma InSet(env: Env, at: nat, v: (string, string), x: (string, string))
    requires at <= |env| && (at < |env| ==> env[at].0 == v.0)
    requires forall i, j :: 0 <= i < j < |env| ==> env[i].0 != env[j].0
    requires at == |env| ==> forall i :: 0 <= i < |env| ==> env[i].0 != v.0
    ensures var env' := if at < |env| then env[at := v] else env + [v];
      x in env' <==> x == v || (x.0 != v.0 && x in env)
  {
    var env' := if at < |env| then env[at := v] else env + [v];
    assert env'[at] == v;
    if i :| 0 <= i < |env| && env[i] == x && x.0 != v.0 {
      assert env'[i] == x;
    }
  }

  lemma AssignedAt(vars: seq<(string, string)>, x: (string, string)) returns (i: nat)
    requires IsLastValue(vars, x)
    ensures i < |vars| && vars[i] == x
  {
    i :| IsLast(vars, i) && vars[i] == x;
  }

  lemma NotAssigned(env: Env, vars: seq<(string, string)>, name: string)
    requires forall x :: x in env <==> IsLastValue(vars, x)
    requires forall i :: 0 <= i < |env| ==> env[i].0 != name
    ensures forall j :: 0 <= j < |vars| ==> vars[j].0 != name
  {
    forall j | 0 <= j < |vars| ensures vars[j].0 != name {
      var k := HasLast(vars, j);
      assert IsLastValue(vars, vars[k]);
      assert vars[k] in env;
    }
  }

  lemma {:induction false} FeedVars(vars: seq<(string, string)>, before: seq<Node>) returns (env: Env)
    requires AreAssignments(vars)
    ensures FeedAll(ShellParse.State(Begin, [], None, before), VarTokens(vars)) ==
            Success(ShellParse.State(Begin, env, None, before))
    ensures IsEnvOf(env, vars)
    decreases |vars|
  {
    hide IsEnvOf, IsWord, IsSolid, FeedAll, MatchEnv, SetVar;
    if vars == [] {
      env := [];
      NoVars(before);
    } else {
      var v := vars[|vars| - 1];
      var others := vars[..|vars| - 1];
      env := FeedVars(others, before);
      var token := v.0 + "=" + v.1;
      FeedAllConcat(ShellParse.State(Begin, [], None, before), VarTokens(others), [token]);
      FeedOne(ShellParse.State(Begin, env, None, before), token);
      AssignmentMatches(v.0, v.1);
      OneMoreVar(env, others, v);
      assert others + [v] == vars;
      env := SetVar(env, v.0, v.1);
    }
  }

  lemma NoVars(before: seq<Node>)
    ensures FeedAll(ShellParse.State(Begin, [], None, before), VarTokens([])) ==
            Success(ShellParse.State(Begin, [], None, before))
    ensures IsEnvOf([], [])
  {
  }

  // ----- arguments and redirections -----

  datatype Piece = Arg(word: string) | In(file: string) | Out(file: string) | Err(file: string) | ErrToOut

  ghost predicate AreWords(pieces: seq<Piece>) {
    forall i :: 0 <= i < |pieces| && pieces[i].Arg? ==> !IsOperatorToken(pieces[i].word)
  }

  function PieceTokens(piece: Piece): seq<string> {
    match piece
    case Arg(word) => [word]
    case In(file) => ["<", file]
    case Out(file) => [">", file]
    case Err(file) => ["2>", file]
    case ErrToOut => ["2>&1"]
  }

  ghost function PiecesTokens(pieces: seq<Piece>): seq<string> {
    if pieces == [] then [] else PiecesTokens(pieces[..|pieces| - 1]) + PieceTokens(pieces[|pieces| - 1])
  }

  ghost function ArgsOf(pieces: seq<Piece>): seq<string> {
    if pieces == [] then [] else
      ArgsOf(pieces[..|pieces| - 1]) + if pieces[|pieces| - 1].Arg? then [pieces[|pieces| - 1].word] else []
  }

  /** Two redirections of one stream. */
  predicate SameStream(a: Piece, b: Piece) {
    (a.In? && b.In?) || (a.Out? && b.Out?) || ((a.Err? || a.ErrToOut?) && (b.Err? || b.ErrToOut?))
  }

  ghost predicate Clashes(pieces: seq<Piece>) {
    exists i, j :: 0 <= i < j < |pieces| && SameStream(pieces[i], pieces[j])
  }

  /** The command as written: its arguments in order, each stream as redirected. */
  ghost predicate IsCommandOf(n: Node, name: string, env: Env, pieces: seq<Piece>) {
    && n.Command? && n.name == name && n.argv == [name] + ArgsOf(pieces) && n.env == env
    && (forall file :: n.stdin == Some(file) <==> In(file) in pieces)
    && (forall file :: n.stdout == ToFile(file) <==> Out(file) in pieces)
    && (forall file :: n.stderr == ToFile(file) <==> Err(file) in pieces)
    && (n.stderr == ToStdout <==> ErrToOut in pieces)
    && (n.stdout.ToFile? || n.stdout == Inherit)
    && (n.stderr.ToFile? || n.stderr == ToStdout || n.stderr == Inherit)
  }

  /** The stream that the piece redirects is redirected already. */
  ghost predicate IsTaken(n: Node, piece: Piece)
    requires n.Command?
  {
    match piece
    case Arg(_) => false
    case In(_) => n.stdin != None
    case Out(_) => n.stdout != Inherit
    case _ => n.stderr != Inherit
  }

  lemma TakenIfClash(n: Node, name: string, env: Env, pieces: seq<Piece>, piece: Piece)
    requires IsCommandOf(n, name, env, pieces)
    ensures IsTaken(n, piece) <==> exists i :: 0 <= i < |pieces| && SameStream(pieces[i], piece)
  {
    if IsTaken(n, piece) {
      var other := if piece.In? then In(n.stdin.value)
                   else if piece.Out? then Out(n.stdout.name)
                   else if n.stderr == ToStdout then ErrToOut else Err(n.stderr.name);
      assert other in pieces;
      var i :| 0 <= i < |pieces| && pieces[i] == other;
    }
    if i :| 0 <= i < |pieces| && SameStream(pieces[i], piece) {
      assert pieces[i] in pieces;
    }
  }

  function With(n: Node, piece: Piece): Node
    requires n.Command?
  {
    match piece
    case Arg(word) => n.(argv := n.argv + [word])
    case In(file) => n.(stdin := Some(file))
    case Out(file) => n.(stdout := ToFile(file))
    case Err(file) => n.(stderr := ToFile(file))
    case ErrToOut => n.(stderr := ToStdout)
  }

  lemma FeedPiece(st: ShellParse.State, piece: Piece)
    requires st.mode == InCommand && Coherent(st) && (piece.Arg? ==> !IsOperatorToken(piece.word))
    ensures FeedAll(st, PieceTokens(piece)) ==
            if IsTaken(st.current.value, piece) then Failure(AssertionError)
            else Success(st.(current := Some(With(st.current.value, piece))))
  {
    hide FeedAll;
    match piece
    case Arg(word) =>
      FeedOne(st, word);
    case ErrToOut =>
      FeedOne(st, "2>&1");
    case _ =>
      FeedTwo(st, PieceTokens(piece)[0], piece.file);
  }

  lemma OneMorePiece(n: Node, name: string, env: Env, pieces: seq<Piece>)
    requires pieces != [] && IsCommandOf(n, name, env, pieces[..|pieces| - 1]) && !IsTaken(n, pieces[|pieces| - 1])
    ensures IsCommandOf(With(n, pieces[|pieces| - 1]), name, env, pieces)
  {
    var others, piece := pieces[..|pieces| - 1], pieces[|pieces| - 1];
    assert forall p :: p in pieces <==> p in others || p == piece;
    assert [name] + (ArgsOf(others) + (if piece.Arg? then [piece.word] else [])) ==
           ([name] + ArgsOf(others)) + (if piece.Arg? then [piece.word] else []);
  }

  lemma ClashesMore(pieces: seq<Piece>)
    requires pieces != []
    ensures var last := |pieces| - 1;
      && (Clashes(pieces) <==>
          Clashes(pieces[..last]) || exists i :: 0 <= i < last && SameStream(pieces[..last][i], pieces[last]))
      && (AreWords(pieces) ==> AreWords(pieces[..last]) && (pieces[last].Arg? ==> !IsOperatorToken(pieces[last].word)))
  {
    hide SameStream, IsOperatorToken;
  }

  lemma {:induction false} FeedPieces(st: ShellParse.State, name: string, env: Env, pieces: seq<Piece>)
    returns (n: Node)
    requires st.mode == InCommand && AreWords(pieces) && st.current == Some(NewCommand(name, env))
    ensures Clashes(pieces) ==> FeedAll(st, PiecesTokens(pieces)) == Failure(AssertionError)
    ensures !Clashes(pieces) ==>
      FeedAll(st, PiecesTokens(pieces)) == Success(st.(current := Some(n))) && IsCommandOf(n, name, env, pieces)
    decreases |pieces|
  {
    if pieces == [] {
      n := st.current.value;
      assert [name] + [] == [name];
    } else {
      hide FeedAll, IsCommandOf, IsTaken, With, Clashes, AreWords, SameStream, PieceTokens, NewCommand, IsOperatorToken;
      var last := |pieces| - 1;
      ClashesMore(pieces);
      NewIsCommand(name, env);
      n := FeedPieces(st, name, env, pieces[..last]);
      FeedAllConcat(st, PiecesTokens(pieces[..last]), PieceTokens(pieces[last]));
      if !Clashes(pieces[..last]) {
        CommandOfIsCommand(n, name, env, pieces[..last]);
        FeedPiece(st.(current := Some(n)), pieces[last]);
        TakenIfClash(n, name, env, pieces[..last], pieces[last]);
        if !IsTaken(n, pieces[last]) {
          OneMorePiece(n, name, env, pieces);
          n := With(n, pieces[last]);
        }
      }
    }
  }

  lemma NewIsCommand(name: string, env: Env)
    ensures NewCommand(name, env).Command?
  {
  }

  lemma CommandOfIsCommand(n: Node, name: string, env: Env, pieces: seq<Piece>)
    requires IsCommandOf(n, name, env, pieces)
    ensures n.Command?
  {
  }

  // ----- a whole command -----

  ghost function CommandTokens(vars: seq<(string, string)>, name: string, pieces: seq<Piece>): seq<string> {
    VarTokens(vars) + [name] + PiecesTokens(pieces)
  }

  lemma FeedWhole(vars: seq<(string, string)>, name: string, pieces: seq<Piece>, before: seq<Node>)
    returns (n: Node, env: Env)
    requires AreAssignments(vars) && MatchEnv(name) == None && name != "cd" && AreWords(pieces)
    ensures var r := FeedAll(ShellParse.State(Begin, [], None, before), CommandTokens(vars, name, pieces));
      if Clashes(pieces) then r == Failure(AssertionError)
      else r == Success(ShellParse.State(InCommand, [], Some(n), before)) &&
           IsEnvOf(env, vars) && IsCommandOf(n, name, env, pieces)
  {
    hide FeedAll, IsEnvOf, IsCommandOf, MatchEnv, Clashes, AreWords;
    var begin := ShellParse.State(Begin, [], None, before);
    env := FeedVars(vars, before);
    var st := ShellParse.State(InCommand, [], Some(NewCommand(name, env)), before);
    FeedOne(begin.(env := env), name);
    n := FeedPieces(st, name, env, pieces);
    FeedAllConcat(begin, VarTokens(vars), [name]);
    FeedAllConcat(begin, VarTokens(vars) + [name], PiecesTokens(pieces));
  }

  /** A command written with assignments, arguments and redirections in any order is read as that command,
      unless a stream is redirected twice: then an assertion fails. A redirection that the tokens end on
      is ignored. */
  lemma CommandIsRead(vars: seq<(string, string)>, name: string, pieces: seq<Piece>, dangling: string)
    requires AreAssignments(vars) && MatchEnv(name) == None && name != "cd" && AreWords(pieces)
    requires dangling in ["<", ">", "2>"]
    ensures var r := ParseTokens(CommandTokens(vars, name, pieces));
      && (r.Success? <==> !Clashes(pieces))
      && (r.Success? ==>
            |r.value| == 1 && r.value[0].Command? && IsEnvOf(r.value[0].env, vars)
            && IsCommandOf(r.value[0], name, r.value[0].env, pieces))
      && ParseTokens(CommandTokens(vars, name, pieces) + [dangling]) == r
  {
    hide FeedAll, IsEnvOf, MatchEnv, Clashes, CommandTokens, AreWords;
    var tokens := CommandTokens(vars, name, pieces);
    var n, env := FeedWhole(vars, name, pieces, []);
    FeedAllConcat(Start, tokens, [dangling]);
    if !Clashes(pieces) {
      FeedOne(ShellParse.State(InCommand, [], Some(n), []), dangling);
    }
  }

  /** The operator after a command: a pipe takes the output, which must not be redirected already. */
  lemma OperatorIsRead(vars: seq<(string, string)>, name: string, pieces: seq<Piece>, op: Node, before: seq<Node>)
    requires AreAssignments(vars) && MatchEnv(name) == None && name != "cd" && AreWords(pieces) && IsOp(op)
    ensures
      var begin := ShellParse.State(Begin, [], None, before);
      var r := FeedAll(begin, CommandTokens(vars, name, pieces) + NodeTokens(op));
      && (r.Success? <==> !Clashes(pieces) && (op.PipeOp? ==> forall i :: 0 <= i < |pieces| ==> !pieces[i].Out?))
      && (r.Success? ==>
            && r.value.mode == Begin && r.value.env == [] && r.value.current == None
            && |r.value.pipeline| == |before| + 2 && r.value.pipeline[..|before|] == before
            && r.value.pipeline[|before| + 1] == op
            && var n := r.value.pipeline[|before|];
               && n.Command? && IsEnvOf(n.env, vars)
               && (if op.PipeOp? then n.stdout == ToPipe && IsCommandOf(n.(stdout := Inherit), name, n.env, pieces)
                   else IsCommandOf(n, name, n.env, pieces)))
  {
    hide FeedAll, IsEnvOf, MatchEnv, Clashes, CommandTokens, AreWords, IsCommandOf;
    var tokens := CommandTokens(vars, name, pieces);
    var begin := ShellParse.State(Begin, [], None, before);
    var n, env := FeedWhole(vars, name, pieces, before);
    FeedAllConcat(begin, tokens, NodeTokens(op));
    assert NodeTokens(op) == [NodeTokens(op)[0]];
    if !Clashes(pieces) {
      CommandOfIsCommand(n, name, env, pieces);
      FeedOne(ShellParse.State(InCommand, [], Some(n), before), NodeTokens(op)[0]);
      NotRedirected(n, name, env, pieces);
    }
  }

  lemma NotRedirected(n: Node, name: string, env: Env, pieces: seq<Piece>)
    requires IsCommandOf(n, name, env, pieces)
    ensures n.env == env && (n.stdout == Inherit <==> forall i :: 0 <= i < |pieces| ==> !pieces[i].Out?)
  {
    if n.stdout.ToFile? {
      assert Out(n.stdout.name) in pieces;
    }
    if i :| 0 <= i < |pieces| && pieces[i].Out? {
      assert pieces[i] == Out(pieces[i].file) && pieces[i] in pieces;
    }
  }
}
