/** What a run of a pipeline does, told from its nodes: which commands are started, in which directory,
    with which files, and what the connectives make of their exit codes. */
module ShellSpawns {
  import opened Wrappers
  import opened ShellSyntax
  import opened ShellEval
  import opened ShellMeaning

  // ----- directories -----

  predicate IsAbsolute(dir: string) {
    dir != "" && dir[0] == '/'
  }

  predicate EndsInSlash(s: string) {
    s != "" && s[|s| - 1] == '/'
  }

  /** How many directories there are up to the last absolute one. */
  function RestartsAt(dirs: seq<string>): (n: nat)
    ensures n <= |dirs|
  {
    if dirs == [] then 0
    else if IsAbsolute(dirs[|dirs| - 1]) then |dirs| else RestartsAt(dirs[..|dirs| - 1])
  }

  function LastOf(before: string, dirs: seq<string>): string {
    if dirs == [] then before else dirs[|dirs| - 1]
  }

  /** What sets a directory off from the one before it. */
  function Gap(previous: string): string {
    if previous == "" || EndsInSlash(previous) then "" else "/"
  }

  /** The directories written one behind the other, each set off with a slash from the one before it,
      unless that one is empty or ends in a slash. */
  function SetOff(before: string, dirs: seq<string>): string
    decreases |dirs|
  {
    if dirs == [] then "" else
      var others := dirs[..|dirs| - 1];
      SetOff(before, others) + (Gap(LastOf(before, others)) + dirs[|dirs| - 1])
  }

  function RootOf(dirs: seq<string>): string {
    if RestartsAt(dirs) == 0 then "." else dirs[RestartsAt(dirs) - 1]
  }

  /** The directory that changing to one after the other leads to: the last absolute one, or the current
      directory, and the relative ones after it. */
  function PathOf(dirs: seq<string>): string {
    RootOf(dirs) + SetOff(RootOf(dirs), dirs[RestartsAt(dirs)..])
  }

  lemma SlashOfConcat(s: string, t: string)
    ensures EndsInSlash(s + t) <==> if t == "" then EndsInSlash(s) else EndsInSlash(t)
  {
    if t == "" {
      assert s + t == s;
    } else {
      assert (s + t)[|s + t| - 1] == t[|t| - 1];
    }
  }

  lemma {:induction false} SlashAtEnd(before: string, dirs: seq<string>)
    requires before != ""
    ensures EndsInSlash(before + SetOff(before, dirs)) <==> Gap(LastOf(before, dirs)) == ""
    decreases |dirs|
  {
    hide EndsInSlash;
    if dirs == [] {
      assert before + "" == before;
    } else {
      var others, dir := dirs[..|dirs| - 1], dirs[|dirs| - 1];
      var head, gap := before + SetOff(before, others), Gap(LastOf(before, others));
      SlashAtEnd(before, others);
      assert before + SetOff(before, dirs) == head + (gap + dir);
      SlashOfConcat(head, gap + dir);
      SlashOfConcat(gap, dir);
      OneSlash();
    }
  }

  lemma OneSlash()
    ensures EndsInSlash("/")
  {
  }

  lemma RootIsSolid(dirs: seq<string>)
    ensures RootOf(dirs) != ""
  {
    LastRestart(dirs);
  }

  lemma {:induction false} LastRestart(dirs: seq<string>)
    ensures RestartsAt(dirs) > 0 ==> IsAbsolute(dirs[RestartsAt(dirs) - 1])
    ensures forall i :: RestartsAt(dirs) <= i < |dirs| ==> !IsAbsolute(dirs[i])
    decreases |dirs|
  {
    if dirs == [] {
    } else {
      LastRestart(dirs[..|dirs| - 1]);
    }
  }

  lemma JoinIsGap(path: string, dir: string)
    requires path != "" && !IsAbsolute(dir)
    ensures JoinPath(path, dir) == path + ((if EndsInSlash(path) then "" else "/") + dir)
  {
    assert path + ("/" + dir) == path + "/" + dir;
    assert path + ("" + dir) == path + dir;
  }

  lemma SetOffOneMore(before: string, dirs: seq<string>, dir: string)
    ensures SetOff(before, dirs + [dir]) == SetOff(before, dirs) + (Gap(LastOf(before, dirs)) + dir)
  {
    assert (dirs + [dir])[..|dirs + [dir]| - 1] == dirs;
  }

  lemma RestartsOneMore(dirs: seq<string>, dir: string)
    ensures RestartsAt(dirs + [dir]) == if IsAbsolute(dir) then |dirs| + 1 else RestartsAt(dirs)
  {
    assert (dirs + [dir])[..|dirs|] == dirs;
  }

  /** One more change of directory. */
  lemma JoinIsOneMore(dirs: seq<string>, dir: string)
    ensures PathOf(dirs + [dir]) == JoinPath(PathOf(dirs), dir)
  {
    hide SetOff, Gap, LastOf, RestartsAt, EndsInSlash, JoinPath;
    var more := dirs + [dir];
    RestartsOneMore(dirs, dir);
    if IsAbsolute(dir) {
      JoinAbsolute(PathOf(dirs), dir);
      NothingSetOff(dir);
      assert more[|more|..] == [];
      assert dir + "" == dir;
    } else {
      var root, rest := RootOf(dirs), dirs[RestartsAt(dirs)..];
      RootIsSolid(dirs);
      SlashAtEnd(root, rest);
      assert more[RestartsAt(dirs)..] == rest + [dir];
      assert RootOf(more) == root;
      SetOffOneMore(root, rest, dir);
      JoinIsGap(root + SetOff(root, rest), dir);
      GapIsSlash(LastOf(root, rest));
      var piece := Gap(LastOf(root, rest)) + dir;
      assert root + (SetOff(root, rest) + piece) == (root + SetOff(root, rest)) + piece;
    }
  }

  lemma JoinAbsolute(path: string, dir: string)
    requires IsAbsolute(dir)
    ensures JoinPath(path, dir) == dir
  {
  }

  lemma NothingSetOff(before: string)
    ensures SetOff(before, []) == ""
  {
  }

  lemma GapIsSlash(previous: string)
    ensures Gap(previous) == if Gap(previous) == "" then "" else "/"
  {
  }

  predicate IsPlain(dir: string) {
    dir != "" && dir[0] != '/' && dir[|dir| - 1] != '/'
  }

  function Slashed(dirs: seq<string>): string {
    if dirs == [] then "" else Slashed(dirs[..|dirs| - 1]) + "/" + dirs[|dirs| - 1]
  }

  lemma {:induction false} SetOffPlain(before: string, dirs: seq<string>)
    requires before != "" && !EndsInSlash(before) && forall i :: 0 <= i < |dirs| ==> IsPlain(dirs[i])
    ensures SetOff(before, dirs) == Slashed(dirs)
    decreases |dirs|
  {
    if dirs == [] {
    } else {
      var others, dir := dirs[..|dirs| - 1], dirs[|dirs| - 1];
      SetOffPlain(before, others);
      assert Slashed(others) + ("/" + dir) == Slashed(others) + "/" + dir;
    }
  }

  lemma {:induction false} PlainNeverRestarts(before: seq<string>, dirs: seq<string>)
    requires forall i :: 0 <= i < |dirs| ==> IsPlain(dirs[i])
    ensures RestartsAt(before + dirs) == RestartsAt(before)
    decreases |dirs|
  {
    if dirs == [] {
      assert before + dirs == before;
    } else {
      assert (before + dirs)[..|before + dirs| - 1] == before + dirs[..|dirs| - 1];
      PlainNeverRestarts(before, dirs[..|dirs| - 1]);
    }
  }

  /** Relative directories d1 to dk, none of which is empty or ends in a slash, lead to ./d1/../dk. */
  lemma RelativePath(dirs: seq<string>)
    requires forall i :: 0 <= i < |dirs| ==> IsPlain(dirs[i])
    ensures PathOf(dirs) == "." + Slashed(dirs)
  {
    assert [] + dirs == dirs && dirs[0..] == dirs;
    PlainNeverRestarts([], dirs);
    SetOffPlain(".", dirs);
  }

  /** An absolute one forgets what was before. */
  lemma AbsolutePath(before: seq<string>, dir: string, dirs: seq<string>)
    requires IsAbsolute(dir) && !EndsInSlash(dir) && forall i :: 0 <= i < |dirs| ==> IsPlain(dirs[i])
    ensures PathOf(before + [dir] + dirs) == dir + Slashed(dirs)
  {
    PlainNeverRestarts(before + [dir], dirs);
    assert (before + [dir] + dirs)[|before| + 1..] == dirs;
    SetOffPlain(dir, dirs);
  }

  // ----- what a run is to do -----

  /** Where the commands are. */
  ghost function CommandsIn(p: seq<Node>): (at: seq<nat>)
    ensures forall j :: 0 <= j < |at| ==> at[j] < |p| && p[at[j]].Command?
    ensures forall i, j :: 0 <= i < j < |at| ==> at[i] < at[j]
  {
    if p == [] then [] else
      CommandsIn(p[..|p| - 1]) + if p[|p| - 1].Command? then [|p| - 1] else []
  }

  /** The directories changed to. */
  ghost function DirsIn(p: seq<Node>): seq<string> {
    if p == [] then [] else
      DirsIn(p[..|p| - 1]) + if p[|p| - 1].Chdir? && p[|p| - 1].dir.Some? then [p[|p| - 1].dir.value] else []
  }

  /** The node after the command before the k-th one is a pipe. */
  ghost predicate ReadsPipe(p: seq<Node>, k: nat)
    requires k < |CommandsIn(p)|
  {
    k > 0 && p[CommandsIn(p)[k - 1] + 1].PipeOp?
  }

  ghost function WriteOpens(r: Redirect): seq<Event> {
    if r.ToFile? && r.name != "NUL:" && r.name != "/dev/null" then [OpenedForWriting(r.name)] else []
  }

  ghost function ReadOpens(p: seq<Node>, k: nat): seq<Event>
    requires k < |CommandsIn(p)|
  {
    var n := p[CommandsIn(p)[k]];
    if !ReadsPipe(p, k) && n.stdin.Some? then [OpenedForReading(n.stdin.value)] else []
  }

  /** The files that the k-th command needs. */
  ghost function OpensFor(p: seq<Node>, k: nat): seq<Event>
    requires k < |CommandsIn(p)|
  {
    var n := p[CommandsIn(p)[k]];
    ReadOpens(p, k) + WriteOpens(n.stdout) + WriteOpens(n.stderr)
  }

  ghost function OpensBefore(p: seq<Node>, k: nat): seq<Event>
    requires k <= |CommandsIn(p)|
  {
    if k == 0 then [] else OpensBefore(p, k - 1) + OpensFor(p, k - 1)
  }

  ghost predicate IsTarget(r: Redirect, fd: nat, target: Target) {
    match r
    case Inherit => target == OwnStream
    case ToPipe => target == NewPipe
    case ToStdout => target == Merged
    case ToFile(name) => target == if name == "NUL:" || name == "/dev/null" then NullDevice else IntoFile(fd)
  }

  /** The event is the start of the k-th command: with its arguments and environment, reading from the
      process before it if a pipe is in between, from its input file or from the caller's input, writing
      to where its redirections say, in the directory that the changes before it lead to. */
  ghost predicate Starts(p: seq<Node>, k: nat, e: Event)
    requires k < |CommandsIn(p)|
  {
    var i := CommandsIn(p)[k];
    var n, dir := p[i], PathOf(DirsIn(p[..i]));
    var fd := |OpensBefore(p, k)|;
    var fd' := fd + |ReadOpens(p, k)|;
    var fd'' := fd' + |WriteOpens(n.stdout)|;
    && e.Spawned? && e.argv == n.argv && e.env == n.env
    && e.stdin == (if ReadsPipe(p, k) then FromProcess(k - 1) else if n.stdin.Some? then FromFile(fd) else OwnStdin)
    && IsTarget(n.stdout, fd', e.stdout) && IsTarget(n.stderr, fd'', e.stderr)
    && e.cwd == if dir == "." then None else Some(dir)
  }

  ghost function SpawnedIn(log: seq<Event>): seq<Event> {
    if log == [] then [] else
      SpawnedIn(log[..|log| - 1]) + if log[|log| - 1].Spawned? then [log[|log| - 1]] else []
  }

  ghost function OpenedIn(log: seq<Event>): seq<Event> {
    if log == [] then [] else
      OpenedIn(log[..|log| - 1]) +
      if log[|log| - 1].OpenedForReading? || log[|log| - 1].OpenedForWriting? then [log[|log| - 1]] else []
  }

  /** Whether the operator after a command lets the next node be read: a pipe does, and for a zero status, or
      for another one. */
  predicate LetsOn(op: Node, code: int) {
    op.PipeOp? || (op.AndOp? && code == 0) || (op.OrOp? && code != 0)
  }

  /** The n-th event is the wait for the k-th command, and its exit code let the next node be read. */
  ghost predicate WentOn(oracle: Oracle, p: seq<Node>, log: seq<Event>, n: nat)
    requires n < |log| && log[n].Waited?
  {
    && log[n].pid < |CommandsIn(p)| && CommandsIn(p)[log[n].pid] + 1 < |p|
    && LetsOn(p[CommandsIn(p)[log[n].pid] + 1], oracle(log[..n], log[n].pid))
  }

  /** The n-th event is the wait for the last of k commands, whose exit code is the result: it is the last
      command of all or did not let the next node be read. */
  ghost predicate EndedAt(oracle: Oracle, p: seq<Node>, outcome: Outcome, log: seq<Event>, k: nat, n: nat)
    requires n < |log| && log[n].Waited?
  {
    var code := oracle(log[..n], log[n].pid);
    && log[n].pid + 1 == k <= |CommandsIn(p)| && outcome == Exit(code)
    && (CommandsIn(p)[k - 1] + 1 < |p| ==> !LetsOn(p[CommandsIn(p)[k - 1] + 1], code))
  }

  /** Reading on failed at a change of directory that ends the pipeline or names no directory, with all
      commands before it started. */
  ghost predicate FailedAt(p: seq<Node>, fault: Fault, k: nat, i: nat) {
    && i < |p| && p[i].Chdir? && k == |CommandsIn(p[..i])|
    && if i + 1 == |p| then fault == IndexError else fault == TypeError && p[i].dir == None
  }

  /** The run of pipeline p: the first commands are started in order as their nodes say, after the files
      they need were opened in order; each command waited for let the next node be read, but the last one,
      whose exit code is the result, unless reading on failed. */
  ghost predicate RanAs(oracle: Oracle, p: seq<Node>, outcome: Outcome, w: World) {
    var spawned := SpawnedIn(w.log);
    && |spawned| <= |CommandsIn(p)| && OpenedIn(w.log) == OpensBefore(p, |spawned|)
    && (forall k :: 0 <= k < |spawned| ==> Starts(p, k, spawned[k]))
    && (forall n :: 0 <= n < |w.log| && w.log[n].Waited? ==>
                      || WentOn(oracle, p, w.log, n)
                      || EndedAt(oracle, p, outcome, w.log, |spawned|, n))
    && match outcome
       case Exit(_) =>
         exists n :: 0 <= n < |w.log| && w.log[n].Waited? && EndedAt(oracle, p, outcome, w.log, |spawned|, n)
       case Raised(fault) => exists i :: FailedAt(p, fault, |spawned|, i)
  }

  // ----- so far -----

  lemma {:induction false} PrefixHasFirst(p: seq<Node>, i: nat)
    requires i <= |p|
    ensures CommandsIn(p[..i]) <= CommandsIn(p)
    decreases |p|
  {
    if i == |p| {
      assert p[..i] == p;
    } else {
      PrefixHasFirst(p[..|p| - 1], i);
      assert p[..|p| - 1][..i] == p[..i];
    }
  }

  /** Node i is the next to be read; the group's first process is number `first`. */
  ghost predicate SoFar(oracle: Oracle, p: seq<Node>, i: nat, first: nat, w: World) {
    var k := w.procs;
    && i <= |p| && (i > 0 ==> IsOp(p[i - 1]))
    && |CommandsIn(p[..i])| == k <= |CommandsIn(p)| && first <= k
    && StartedSo(p, w)
    && (forall j :: first <= j < k ==> CommandsIn(p)[j] + 1 < |p| && p[CommandsIn(p)[j] + 1].PipeOp?)
    && (first > 0 ==> CommandsIn(p)[first - 1] + 1 < |p| && !p[CommandsIn(p)[first - 1] + 1].PipeOp?)
    && WaitsWentOn(oracle, p, first, w.log)
  }

  ghost predicate StartedSo(p: seq<Node>, w: World) {
    var spawned := SpawnedIn(w.log);
    && |spawned| == w.procs <= |CommandsIn(p)| && OpenedIn(w.log) == OpensBefore(p, w.procs)
    && w.files == |OpenedIn(w.log)|
    && forall k :: 0 <= k < |spawned| ==> Starts(p, k, spawned[k])
  }

  ghost predicate WaitsWentOn(oracle: Oracle, p: seq<Node>, first: nat, log: seq<Event>) {
    forall n :: 0 <= n < |log| && log[n].Waited? ==> log[n].pid < first && WentOn(oracle, p, log, n)
  }

  lemma LogMore(log: seq<Event>, e: Event)
    ensures SpawnedIn(log + [e]) == SpawnedIn(log) + if e.Spawned? then [e] else []
    ensures OpenedIn(log + [e]) == OpenedIn(log) + if e.OpenedForReading? || e.OpenedForWriting? then [e] else []
  {
    assert (log + [e])[..|log|] == log;
  }

  lemma WaitsStay(oracle: Oracle, p: seq<Node>, first: nat, log: seq<Event>, e: Event)
    requires WaitsWentOn(oracle, p, first, log) && !e.Waited?
    ensures WaitsWentOn(oracle, p, first, log + [e])
  {
    forall n | 0 <= n < |log + [e]| && (log + [e])[n].Waited?
      ensures (log + [e])[n].pid < first && WentOn(oracle, p, log + [e], n)
    {
      assert (log + [e])[..n] == log[..n];
      assert WentOn(oracle, p, log, n);
    }
  }

  // Starting one command.

  lemma SourceOpens(oracle: Oracle, p: seq<Node>, first: nat, w: World, c: Node, piped: Option<nat>)
    requires c.Command? && WaitsWentOn(oracle, p, first, w.log)
    ensures var (w', source) := OpenSource(w, c, piped);
      && SpawnedIn(w'.log) == SpawnedIn(w.log) && w'.procs == w.procs
      && OpenedIn(w'.log) == OpenedIn(w.log) +
                             (if piped == None && c.stdin.Some? then [OpenedForReading(c.stdin.value)] else [])
      && w'.files == w.files + (if piped == None && c.stdin.Some? then 1 else 0)
      && source == (if piped.Some? then FromProcess(piped.value)
                    else if c.stdin.Some? then FromFile(w.files) else OwnStdin)
      && WaitsWentOn(oracle, p, first, w'.log)
  {
    hide WaitsWentOn;
    if piped == None && c.stdin.Some? {
      LogMore(w.log, OpenedForReading(c.stdin.value));
      WaitsStay(oracle, p, first, w.log, OpenedForReading(c.stdin.value));
    }
  }

  lemma TargetOpens(oracle: Oracle, p: seq<Node>, first: nat, w: World, r: Redirect)
    requires WaitsWentOn(oracle, p, first, w.log)
    ensures var (w', target) := OpenTarget(w, r);
      && SpawnedIn(w'.log) == SpawnedIn(w.log) && w'.procs == w.procs
      && OpenedIn(w'.log) == OpenedIn(w.log) + WriteOpens(r) && w'.files == w.files + |WriteOpens(r)|
      && IsTarget(r, w.files, target) && WaitsWentOn(oracle, p, first, w'.log)
  {
    hide WaitsWentOn;
    if r.ToFile? && WriteOpens(r) != [] {
      LogMore(w.log, OpenedForWriting(r.name));
      WaitsStay(oracle, p, first, w.log, OpenedForWriting(r.name));
    }
  }

  lemma StartsNext(oracle: Oracle, p: seq<Node>, first: nat, w: World, c: Placed, piped: Option<nat>)
    requires StartedSo(p, w) && WaitsWentOn(oracle, p, first, w.log) && w.procs < |CommandsIn(p)|
    requires c.command == p[CommandsIn(p)[w.procs]] && c.cwd == PathOf(DirsIn(p[..CommandsIn(p)[w.procs]]))
    requires piped == if ReadsPipe(p, w.procs) then Some(w.procs - 1) else None
    ensures StartedSo(p, Spawn(w, c, piped)) && WaitsWentOn(oracle, p, first, Spawn(w, c, piped).log)
  {
    hide WaitsWentOn, OpenSource, OpenTarget, IsTarget, PathOf, DirsIn, CommandsIn, SpawnedIn, OpenedIn, WriteOpens,
         ReadsPipe;
    var k := w.procs;
    var (w1, stdin) := OpenSource(w, c.command, piped);
    SourceOpens(oracle, p, first, w, c.command, piped);
    var (w2, stdout) := OpenTarget(w1, c.command.stdout);
    TargetOpens(oracle, p, first, w1, c.command.stdout);
    var (w3, stderr) := OpenTarget(w2, c.command.stderr);
    TargetOpens(oracle, p, first, w2, c.command.stderr);
    var e := Spawned(c.command.argv, stdin, stdout, stderr, c.command.env, ProcessCwd(c.cwd));
    LogMore(w3.log, e);
    WaitsStay(oracle, p, first, w3.log, e);
    assert OpenedIn(w3.log) == OpensBefore(p, k + 1) by {
      assert OpenedIn(w3.log) ==
             OpenedIn(w.log) + ReadOpens(p, k) + WriteOpens(c.command.stdout) + WriteOpens(c.command.stderr);
    }
    assert Starts(p, k, e);
  }

  // Waiting for a group.

  /** Every wait so far let the next node be read, or is the one that the run ends with. */
  ghost predicate AllWaits(oracle: Oracle, p: seq<Node>, outcome: Outcome, k: nat, log: seq<Event>) {
    forall n :: 0 <= n < |log| && log[n].Waited? ==> WentOn(oracle, p, log, n) || EndedAt(oracle, p, outcome, log, k, n)
  }

  ghost predicate HasEnded(oracle: Oracle, p: seq<Node>, outcome: Outcome, k: nat, log: seq<Event>) {
    exists n :: 0 <= n < |log| && log[n].Waited? && EndedAt(oracle, p, outcome, log, k, n)
  }

  lemma AllWaitsStay(oracle: Oracle, p: seq<Node>, outcome: Outcome, k: nat, log: seq<Event>, e: Event)
    requires AllWaits(oracle, p, outcome, k, log) && HasEnded(oracle, p, outcome, k, log) && !e.Waited?
    ensures AllWaits(oracle, p, outcome, k, log + [e]) && HasEnded(oracle, p, outcome, k, log + [e])
  {
    var more := log + [e];
    forall n | 0 <= n < |log| && log[n].Waited?
      ensures WentOn(oracle, p, more, n) == WentOn(oracle, p, log, n)
      ensures EndedAt(oracle, p, outcome, more, k, n) == EndedAt(oracle, p, outcome, log, k, n)
    {
      assert more[..n] == log[..n];
    }
    var n :| 0 <= n < |log| && log[n].Waited? && EndedAt(oracle, p, outcome, log, k, n);
    assert more[n].Waited? && EndedAt(oracle, p, outcome, more, k, n);
  }

  lemma WaitsMore(oracle: Oracle, p: seq<Node>, first: nat, log: seq<Event>)
    requires WaitsWentOn(oracle, p, first, log)
    requires first < |CommandsIn(p)| && CommandsIn(p)[first] + 1 < |p|
    requires LetsOn(p[CommandsIn(p)[first] + 1], oracle(log, first))
    ensures WaitsWentOn(oracle, p, first + 1, log + [Waited(first)])
  {
    var more := log + [Waited(first)];
    forall n | 0 <= n < |more| && more[n].Waited? ensures more[n].pid < first + 1 && WentOn(oracle, p, more, n) {
      if n < |log| {
        assert more[..n] == log[..n];
        assert WentOn(oracle, p, log, n);
      } else {
        assert more[..n] == log;
      }
    }
  }

  lemma WaitsEnd(oracle: Oracle, p: seq<Node>, first: nat, log: seq<Event>)
    requires WaitsWentOn(oracle, p, first, log) && first < |CommandsIn(p)|
    requires CommandsIn(p)[first] + 1 < |p| ==> !LetsOn(p[CommandsIn(p)[first] + 1], oracle(log, first))
    ensures AllWaits(oracle, p, Exit(oracle(log, first)), first + 1, log + [Waited(first)])
    ensures HasEnded(oracle, p, Exit(oracle(log, first)), first + 1, log + [Waited(first)])
  {
    var more, outcome := log + [Waited(first)], Exit(oracle(log, first));
    assert more[..|log|] == log;
    assert more[|log|].Waited? && EndedAt(oracle, p, outcome, more, first + 1, |log|);
    forall n | 0 <= n < |more| && more[n].Waited?
      ensures WentOn(oracle, p, more, n) || EndedAt(oracle, p, outcome, more, first + 1, n)
    {
      if n < |log| {
        assert more[..n] == log[..n];
        assert WentOn(oracle, p, log, n);
      }
    }
  }

  /** Same processes started and files opened. */
  ghost predicate SameStarts(w: World, w': World) {
    && SpawnedIn(w'.log) == SpawnedIn(w.log) && OpenedIn(w'.log) == OpenedIn(w.log)
    && w'.procs == w.procs && w'.files == w.files
  }

  lemma SameStartsOn(w: World, w': World, e: Event)
    requires SameStarts(w, w') && (e.Waited? || e.Closed?)
    ensures SameStarts(w, Log(w', e))
  {
    hide SpawnedIn, OpenedIn;
    LogMore(w'.log, e);
    assert SpawnedIn(w'.log) + [] == SpawnedIn(w'.log) && OpenedIn(w'.log) + [] == OpenedIn(w'.log);
  }

  lemma {:induction false} PipedWaits(oracle: Oracle, p: seq<Node>, w: World, lo: nat, hi: nat)
    requires lo <= hi <= |CommandsIn(p)| && WaitsWentOn(oracle, p, lo, w.log)
    requires forall j :: lo <= j < hi ==> CommandsIn(p)[j] + 1 < |p| && p[CommandsIn(p)[j] + 1].PipeOp?
    ensures WaitsWentOn(oracle, p, hi, WaitAll(w, lo, hi).log) && SameStarts(w, WaitAll(w, lo, hi))
    decreases hi
  {
    hide WaitsWentOn, CommandsIn, SpawnedIn, OpenedIn;
    if lo < hi {
      PipedWaits(oracle, p, w, lo, hi - 1);
      SameStartsOn(w, WaitAll(w, lo, hi - 1), Waited(hi - 1));
      WaitsMore(oracle, p, hi - 1, WaitAll(w, lo, hi - 1).log);
    }
  }

  lemma {:induction false} ClosingGoesOn(oracle: Oracle, p: seq<Node>, first: nat, w: World, lo: nat, hi: nat)
    requires lo <= hi && WaitsWentOn(oracle, p, first, w.log)
    ensures WaitsWentOn(oracle, p, first, CloseAll(w, lo, hi).log) && SameStarts(w, CloseAll(w, lo, hi))
    decreases hi
  {
    hide WaitsWentOn, SpawnedIn, OpenedIn;
    if lo < hi {
      ClosingGoesOn(oracle, p, first, w, lo, hi - 1);
      SameStartsOn(w, CloseAll(w, lo, hi - 1), Closed(hi - 1));
      WaitsStay(oracle, p, first, CloseAll(w, lo, hi - 1).log, Closed(hi - 1));
    }
  }

  lemma {:induction false} ClosingEnds(oracle: Oracle, p: seq<Node>, outcome: Outcome, k: nat, w: World, lo: nat,
                                       hi: nat)
    requires lo <= hi && AllWaits(oracle, p, outcome, k, w.log) && HasEnded(oracle, p, outcome, k, w.log)
    ensures AllWaits(oracle, p, outcome, k, CloseAll(w, lo, hi).log)
    ensures HasEnded(oracle, p, outcome, k, CloseAll(w, lo, hi).log) && SameStarts(w, CloseAll(w, lo, hi))
    decreases hi
  {
    hide AllWaits, HasEnded, SpawnedIn, OpenedIn;
    if lo < hi {
      ClosingEnds(oracle, p, outcome, k, w, lo, hi - 1);
      SameStartsOn(w, CloseAll(w, lo, hi - 1), Closed(hi - 1));
      AllWaitsStay(oracle, p, outcome, k, CloseAll(w, lo, hi - 1).log, Closed(hi - 1));
    }
  }

  /** Whether the node after the k-th command is read when the command's group exits with the code. */
  ghost predicate ReadsOn(p: seq<Node>, k: nat, code: int) {
    k < |CommandsIn(p)| && CommandsIn(p)[k] + 1 < |p| && LetsOn(p[CommandsIn(p)[k] + 1], code)
  }

  /** The last wait of a group. */
  lemma LastWait(oracle: Oracle, p: seq<Node>, start: World, w: World) returns (waited: World, all: World)
    requires start.procs < w.procs <= |CommandsIn(p)| && start.files <= w.files
    requires WaitsWentOn(oracle, p, start.procs, w.log)
    requires forall j :: start.procs <= j < w.procs - 1 ==>
                           CommandsIn(p)[j] + 1 < |p| && p[CommandsIn(p)[j] + 1].PipeOp?
    ensures SameStarts(w, waited) && SameStarts(w, all) && all.log == waited.log + [Waited(w.procs - 1)]
    ensures WaitsWentOn(oracle, p, w.procs - 1, waited.log)
    ensures Finish(oracle, start, w) == (Exit(oracle(waited.log, w.procs - 1)), CloseAll(all, start.files, w.files))
  {
    hide WaitsWentOn, CommandsIn, SpawnedIn, OpenedIn, CloseAll;
    PipedWaits(oracle, p, w, start.procs, w.procs - 1);
    waited := WaitAll(w, start.procs, w.procs - 1);
    all := WaitAll(w, start.procs, w.procs);
    LogMore(waited.log, Waited(w.procs - 1));
  }

  lemma GroupRuns(oracle: Oracle, p: seq<Node>, start: World, w: World)
    requires start.procs < w.procs && start.files <= w.files
    requires StartedSo(p, w) && WaitsWentOn(oracle, p, start.procs, w.log)
    requires forall j :: start.procs <= j < w.procs - 1 ==>
                           CommandsIn(p)[j] + 1 < |p| && p[CommandsIn(p)[j] + 1].PipeOp?
    ensures var (outcome, after) := Finish(oracle, start, w);
      && outcome.Exit? && StartedSo(p, after) && after.procs == w.procs
      && if ReadsOn(p, w.procs - 1, outcome.code) then WaitsWentOn(oracle, p, w.procs, after.log)
         else RanAs(oracle, p, outcome, after)
  {
    hide WaitsWentOn, LetsOn, AllWaits, HasEnded, CommandsIn, StartedSo, Finish, SameStarts, RanAs;
    StartedIsBounded(p, w);
    var waited, all := LastWait(oracle, p, start, w);
    var (outcome, after) := Finish(oracle, start, w);
    if ReadsOn(p, w.procs - 1, outcome.code) {
      WaitsMore(oracle, p, w.procs - 1, waited.log);
      ClosingGoesOn(oracle, p, w.procs, all, start.files, w.files);
      StartedTheSame(p, w, all, after);
    } else {
      WaitsEnd(oracle, p, w.procs - 1, waited.log);
      ClosingEnds(oracle, p, outcome, w.procs, all, start.files, w.files);
      StartedTheSame(p, w, all, after);
      IsAllWaits(oracle, p, outcome, after);
    }
  }

  lemma StartedTheSame(p: seq<Node>, w: World, w': World, w'': World)
    requires StartedSo(p, w) && SameStarts(w, w') && SameStarts(w', w'')
    ensures StartedSo(p, w'') && w''.procs == w.procs
  {
    hide CommandsIn, SpawnedIn, OpenedIn, Starts, OpensBefore;
  }

  lemma IsAllWaits(oracle: Oracle, p: seq<Node>, outcome: Outcome, w: World)
    requires outcome.Exit? && StartedSo(p, w)
    requires AllWaits(oracle, p, outcome, w.procs, w.log) && HasEnded(oracle, p, outcome, w.procs, w.log)
    ensures RanAs(oracle, p, outcome, w)
  {
    hide CommandsIn, SpawnedIn, OpenedIn, Starts, OpensBefore, EndedAt, WentOn;
  }

  // ----- from node to node -----

  lemma CommandIsNext(p: seq<Node>, i: nat)
    requires i < |p|
    ensures CommandsIn(p[..i + 1]) == CommandsIn(p[..i]) + if p[i].Command? then [i] else []
    ensures DirsIn(p[..i + 1]) == DirsIn(p[..i]) + if p[i].Chdir? && p[i].dir.Some? then [p[i].dir.value] else []
  {
    assert p[..i + 1][..i] == p[..i];
  }

  /** Past a change of directory and the operator after it. */
  lemma PastChdir(oracle: Oracle, p: seq<Node>, i: nat, first: nat, w: World)
    requires SoFar(oracle, p, i, first, w) && i + 1 < |p| && p[i].Chdir? && p[i].dir.Some? && IsOp(p[i + 1])
    ensures SoFar(oracle, p, i + 2, first, w)
    ensures PathOf(DirsIn(p[..i + 2])) == JoinPath(PathOf(DirsIn(p[..i])), p[i].dir.value)
  {
    hide StartedSo, WaitsWentOn, CommandsIn, DirsIn, PathOf, JoinPath;
    CommandIsNext(p, i);
    CommandIsNext(p, i + 1);
    assert DirsIn(p[..i + 2]) == DirsIn(p[..i]) + [p[i].dir.value];
    JoinIsOneMore(DirsIn(p[..i]), p[i].dir.value);
  }

  lemma CommandIsKth(p: seq<Node>, i: nat)
    requires i < |p| && p[i].Command?
    ensures |CommandsIn(p[..i])| < |CommandsIn(p)| && CommandsIn(p)[|CommandsIn(p[..i])|] == i
  {
    hide CommandsIn;
    CommandIsNext(p, i);
    PrefixHasFirst(p, i + 1);
    assert CommandsIn(p[..i + 1])[|CommandsIn(p[..i])|] == i;
  }

  /** A command is started as its node says. */
  lemma CommandStarts(oracle: Oracle, p: seq<Node>, i: nat, first: nat, w: World, cwd: string)
    requires SoFar(oracle, p, i, first, w) && i < |p| && p[i].Command? && cwd == PathOf(DirsIn(p[..i]))
    ensures var w' := Spawn(w, Placed(p[i], cwd), if w.procs > first then Some(w.procs - 1) else None);
      StartedSo(p, w') && WaitsWentOn(oracle, p, first, w'.log)
    ensures w.procs < |CommandsIn(p)| && CommandsIn(p)[w.procs] == i
  {
    hide StartedSo, WaitsWentOn, CommandsIn, DirsIn, PathOf, Spawn;
    CommandIsKth(p, i);
    var piped := if w.procs > first then Some(w.procs - 1) else None;
    assert piped == if ReadsPipe(p, w.procs) then Some(w.procs - 1) else None;
    StartsNext(oracle, p, first, w, Placed(p[i], cwd), piped);
  }

  /** Past a command and a pipe. */
  lemma PastPipe(oracle: Oracle, p: seq<Node>, i: nat, first: nat, w: World, w': World)
    requires SoFar(oracle, p, i, first, w) && i + 1 < |p| && p[i].Command? && p[i + 1].PipeOp?
    requires StartedSo(p, w') && WaitsWentOn(oracle, p, first, w'.log) && w'.procs == w.procs + 1
    ensures SoFar(oracle, p, i + 2, first, w') && DirsIn(p[..i + 2]) == DirsIn(p[..i])
  {
    hide StartedSo, WaitsWentOn, CommandsIn, DirsIn;
    CommandIsKth(p, i);
    CommandIsNext(p, i);
    CommandIsNext(p, i + 1);
    StartedIsBounded(p, w');
    assert DirsIn(p[..i + 2]) == DirsIn(p[..i]);
  }

  lemma StartedIsBounded(p: seq<Node>, w: World)
    requires StartedSo(p, w)
    ensures w.procs <= |CommandsIn(p)|
  {
  }

  /** Past a command and a connective that lets the next group run. */
  lemma PastGroup(oracle: Oracle, p: seq<Node>, i: nat, first: nat, w: World, after: World)
    requires SoFar(oracle, p, i, first, w) && i + 1 < |p| && p[i].Command? && IsOp(p[i + 1]) && !p[i + 1].PipeOp?
    requires StartedSo(p, after) && WaitsWentOn(oracle, p, after.procs, after.log) && after.procs == w.procs + 1
    ensures SoFar(oracle, p, i + 2, after.procs, after) && DirsIn(p[..i + 2]) == DirsIn(p[..i])
  {
    hide StartedSo, WaitsWentOn, CommandsIn, DirsIn;
    CommandIsKth(p, i);
    CommandIsNext(p, i);
    CommandIsNext(p, i + 1);
    StartedIsBounded(p, after);
    assert DirsIn(p[..i + 2]) == DirsIn(p[..i]);
  }

  lemma ReadingFails(oracle: Oracle, p: seq<Node>, i: nat, first: nat, w: World, fault: Fault)
    requires SoFar(oracle, p, i, first, w) && FailedAt(p, fault, w.procs, i)
    ensures RanAs(oracle, p, Raised(fault), w)
  {
    hide CommandsIn, SpawnedIn, OpenedIn, Starts, OpensBefore, EndedAt, WentOn;
  }

  lemma GroupSize(start: World, group: seq<Placed>, w: World)
    requires AreCommands(group) && w == SpawnAll(start, group)
    ensures w.procs == start.procs + |group| && w.files >= start.files
  {
  }

  lemma RunningHolds(oracle: Oracle, goal: (Outcome, World), q: seq<Node>, cwd: string, start: World,
                     group: seq<Placed>, w: World)
    requires Running(oracle, goal, q, cwd, start, group, w)
    ensures AreCommands(group) && w == SpawnAll(start, group)
  {
  }

  lemma ConnectiveLets(op: Node, code: int)
    requires op.AndOp? || op.OrOp?
    ensures Proceeds(ConnectiveOf(op), code) == LetsOn(op, code)
  {
  }

  lemma {:induction false} RunIsTold(oracle: Oracle, goal: (Outcome, World), p: seq<Node>, i: nat, cwd: string,
                                     start: World, group: seq<Placed>, w: World)
    requires i <= |p| && Running(oracle, goal, p[i..], cwd, start, group, w)
    requires SoFar(oracle, p, i, start.procs, w) && cwd == PathOf(DirsIn(p[..i]))
    ensures RanAs(oracle, p, goal.0, goal.1)
    decreases |p| - i
  {
    hide Running, SoFar, RanAs, JoinPath, PathOf, DirsIn, CommandsIn, SpawnAll, Spawn, AreCommands, StartedSo,
         WaitsWentOn, RunGroup, Finish, Proceeds, LetsOn;
    var q := p[i..];
    FirstIsNode(oracle, goal, q, cwd, start, group, w);
    RunningHolds(oracle, goal, q, cwd, start, group, w);
    GroupSize(start, group, w);
    assert q[0] == p[i] && (|q| > 1 ==> q[1] == p[i + 1] && q[2..] == p[i + 2..]);
    if q[0].Chdir? {
      SoFarCounts(oracle, p, i, start.procs, w);
      if |q| == 1 || q[0].dir == None {
        ReadingFails(oracle, p, i, start.procs, w, if |q| == 1 then IndexError else TypeError);
      } else {
        PastChdir(oracle, p, i, start.procs, w);
        RunIsTold(oracle, goal, p, i + 2, JoinPath(cwd, q[0].dir.value), start, group, w);
      }
    } else {
      var c := Placed(q[0], cwd);
      var w' := Spawn(w, c, if group == [] then None else Some(w.procs - 1));
      CommandStep(oracle, goal, q, cwd, start, group, w, w');
      CommandStarts(oracle, p, i, start.procs, w, cwd);
      if |q| > 1 && q[1].PipeOp? {
        PastPipe(oracle, p, i, start.procs, w, w');
        RunIsTold(oracle, goal, p, i + 2, cwd, start, group + [c], w');
      } else {
        RanGroup(oracle, start, group + [c], w');
        GroupSize(start, group + [c], w');
        SoFarPipes(oracle, p, i, start.procs, w);
        GroupRuns(oracle, p, start, w');
        var (outcome, after) := Finish(oracle, start, w');
        if |q| > 1 {
          ConnectiveLets(q[1], outcome.code);
          if Proceeds(ConnectiveOf(q[1]), outcome.code) {
            PastGroup(oracle, p, i, start.procs, w, after);
            RunIsTold(oracle, goal, p, i + 2, cwd, after, [], after);
          }
        }
      }
    }
  }

  lemma SoFarCounts(oracle: Oracle, p: seq<Node>, i: nat, first: nat, w: World)
    requires SoFar(oracle, p, i, first, w)
    ensures |CommandsIn(p[..i])| == w.procs
  {
  }

  lemma SoFarPipes(oracle: Oracle, p: seq<Node>, i: nat, first: nat, w: World)
    requires SoFar(oracle, p, i, first, w)
    ensures w.procs <= |CommandsIn(p)|
    ensures forall j :: first <= j < w.procs ==> CommandsIn(p)[j] + 1 < |p| && p[CommandsIn(p)[j] + 1].PipeOp?
  {
  }

  lemma RunStarts(oracle: Oracle, p: seq<Node>)
    ensures SoFar(oracle, p, 0, 0, World([], 0, 0)) && PathOf(DirsIn(p[..0])) == "."
  {
    assert p[..0] == [];
    PrefixHasFirst(p, 0);
    assert "." + "" == ".";
  }

  /** Every run of a well-formed pipeline starts its commands as the nodes say and goes on as the exit codes
      and connectives say. */
  lemma RunsAsWritten(oracle: Oracle, p: seq<Node>)
    requires WellFormed(p)
    ensures RanAs(oracle, p, Meaning(oracle, p).0, Meaning(oracle, p).1)
  {
    hide Running, SoFar, RanAs, PathOf, DirsIn, ScriptOf, RightNested, ScriptOk;
    var goal := StartOfRun(oracle, p);
    RunStarts(oracle, p);
    assert p[0..] == p;
    RunIsTold(oracle, goal, p, 0, ".", World([], 0, 0), [], World([], 0, 0));
  }
}
