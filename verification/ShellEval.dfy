/** The meaning of a parsed pipeline: groups of piped commands joined by && and ||, read with the
    operators nested to the right, and what running them does to the outside world. */
module ShellEval {
  import opened Wrappers
  import opened ShellSyntax

  // ----- what running does -----

  datatype Source = OwnStdin | FromFile(fd: nat) | FromProcess(pid: nat)

  datatype Target = OwnStream | NewPipe | Merged | NullDevice | IntoFile(fd: nat)

  /** File handles and processes are numbered in the order in which they come into being. */
  datatype Event =
    | OpenedForReading(name: string)
    | OpenedForWriting(name: string)
    | Spawned(argv: seq<string>, stdin: Source, stdout: Target, stderr: Target, env: Env, cwd: Option<string>)
    | Waited(pid: nat)
    | Closed(fd: nat)

  /** What has happened so far, and how many files and processes that has brought into being. */
  datatype World = World(log: seq<Event>, files: nat, procs: nat)

  /** The exit code that waiting for a process reports, given all that has happened before. */
  type Oracle = (seq<Event>, nat) -> int

  datatype Fault = IndexError | TypeError

  datatype Outcome = Exit(code: int) | Raised(fault: Fault)

  // ----- the structure of a pipeline -----

  /** A command with the working directory it will start in. */
  datatype Placed = Placed(command: Node, cwd: string)

  /** Commands joined by pipes; a fault means that reading on after them raises an exception. */
  datatype Group = Group(commands: seq<Placed>, fault: Option<Fault>)

  datatype Connective = And | Or

  datatype Script = Script(first: Group, rest: seq<(Connective, Group)>)

  /** os.path.join for a non-empty first argument. */
  function JoinPath(cwd: string, dir: string): string {
    if dir != "" && dir[0] == '/' then dir
    else if cwd == "" || cwd[|cwd| - 1] == '/' then cwd + dir
    else cwd + "/" + dir
  }

  /** The script that the nodes p continue, when the current group already holds before. A change
      of directory is a prefix: it extends the working directory of everything after it. */
  ghost function ScriptOf(p: seq<Node>, cwd: string, before: seq<Placed>): Script
    requires WellFormed(p)
    decreases |p|
  {
    match p[0]
    case Chdir(dir) =>
      if |p| == 1 then Script(Group(before, Some(IndexError)), [])
      else if dir == None then Script(Group(before, Some(TypeError)), [])
      else ScriptOf(p[2..], JoinPath(cwd, dir.value), before)
    case _ =>
      var group := before + [Placed(p[0], cwd)];
      if |p| == 1 then Script(Group(group, None), [])
      else if p[1].PipeOp? then ScriptOf(p[2..], cwd, group)
      else
        var next := ScriptOf(p[2..], cwd, []);
        Script(Group(group, None), [(if p[1].AndOp? then And else Or, next.first)] + next.rest)
  }

  // ----- running a group -----

  predicate IsNullDevice(name: string) {
    name == "NUL:" || name == "/dev/null"
  }

  function Log(w: World, e: Event): World {
    w.(log := w.log + [e])
  }

  function OpenFile(w: World, e: Event): World {
    World(w.log + [e], w.files + 1, w.procs)
  }

  function OpenSource(w: World, c: Node, piped: Option<nat>): (World, Source)
    requires c.Command?
  {
    if piped.Some? then (w, FromProcess(piped.value))
    else if c.stdin.Some? then (OpenFile(w, OpenedForReading(c.stdin.value)), FromFile(w.files))
    else (w, OwnStdin)
  }

  function OpenTarget(w: World, r: Redirect): (World, Target) {
    match r
    case Inherit => (w, OwnStream)
    case ToPipe => (w, NewPipe)
    case ToStdout => (w, Merged)
    case ToFile(name) =>
      if IsNullDevice(name) then (w, NullDevice) else (OpenFile(w, OpenedForWriting(name)), IntoFile(w.files))
  }

  function ProcessCwd(cwd: string): Option<string> {
    if cwd == "." then None else Some(cwd)
  }

  /** Starting one command: a command after a pipe reads from it even if it names an input file. */
  function Spawn(w: World, c: Placed, piped: Option<nat>): (after: World)
    requires c.command.Command?
    ensures after.procs == w.procs + 1 && after.files >= w.files
  {
    var (w1, stdin) := OpenSource(w, c.command, piped);
    var (w2, stdout) := OpenTarget(w1, c.command.stdout);
    var (w3, stderr) := OpenTarget(w2, c.command.stderr);
    World(w3.log + [Spawned(c.command.argv, stdin, stdout, stderr, c.command.env, ProcessCwd(c.cwd))],
          w3.files, w3.procs + 1)
  }

  ghost predicate AreCommands(cs: seq<Placed>) {
    forall i :: 0 <= i < |cs| ==> cs[i].command.Command?
  }

  /** Starting a group's commands one after the other, each but the first reading the one before. */
  ghost function SpawnAll(w: World, cs: seq<Placed>): (after: World)
    requires AreCommands(cs)
    ensures after.procs == w.procs + |cs| && after.files >= w.files
    decreases |cs|
  {
    if cs == [] then w else
      var last := |cs| - 1;
      var before := SpawnAll(w, cs[..last]);
      Spawn(before, cs[last], if last == 0 then None else Some(before.procs - 1))
  }

  ghost function WaitAll(w: World, lo: nat, hi: nat): (after: World)
    requires lo <= hi
    ensures after.files == w.files && after.procs == w.procs
  {
    if lo == hi then w else Log(WaitAll(w, lo, hi - 1), Waited(hi - 1))
  }

  ghost function CloseAll(w: World, lo: nat, hi: nat): (after: World)
    requires lo <= hi
    ensures after.files == w.files && after.procs == w.procs
  {
    if lo == hi then w else Log(CloseAll(w, lo, hi - 1), Closed(hi - 1))
  }

  /** Waits for every process started since start, then closes every file opened since; the status
      is that of the last process. */
  ghost function Finish(oracle: Oracle, start: World, w: World): (Outcome, World)
    requires start.procs < w.procs && start.files <= w.files
  {
    (Exit(oracle(WaitAll(w, start.procs, w.procs - 1).log, w.procs - 1)),
     CloseAll(WaitAll(w, start.procs, w.procs), start.files, w.files))
  }

  ghost function RunGroup(oracle: Oracle, w: World, g: Group): (Outcome, World)
    requires GroupOk(g)
  {
    var started := SpawnAll(w, g.commands);
    if g.fault.Some? then (Raised(g.fault.value), started) else Finish(oracle, w, started)
  }

  ghost predicate GroupOk(g: Group) {
    AreCommands(g.commands) && (g.fault == None ==> g.commands != [])
  }

  ghost predicate ScriptOk(s: Script) {
    GroupOk(s.first) && forall i :: 0 <= i < |s.rest| ==> GroupOk(s.rest[i].1)
  }

  /** Whether the status so far lets the group after the connective run. */
  predicate Proceeds(op: Connective, code: int) {
    match op
    case And => code == 0
    case Or => code != 0
  }

  // ----- two readings of && and || -----

  ghost function Tail(s: Script): (t: Script)
    requires ScriptOk(s) && s.rest != []
    ensures ScriptOk(t) && |t.rest| == |s.rest| - 1
  {
    Script(s.rest[0].1, s.rest[1..])
  }

  /** Nested to the right: a group that does not let the next one run ends the whole script. */
  ghost function RightNested(oracle: Oracle, w: World, s: Script): (Outcome, World)
    requires ScriptOk(s)
    decreases |s.rest|
  {
    var (outcome, after) := RunGroup(oracle, w, s.first);
    if s.rest == [] || outcome.Raised? || !Proceeds(s.rest[0].0, outcome.code) then (outcome, after)
    else RightNested(oracle, after, Tail(s))
  }

  /** Left associative with equal precedence, as section 2.9.3 of the POSIX Shell Command Language
      reads AND-OR lists: a group that is not let run is skipped, and the status so far stays. */
  ghost function LeftAssociative(oracle: Oracle, w: World, s: Script): (Outcome, World)
    requires ScriptOk(s)
  {
    var (outcome, after) := RunGroup(oracle, w, s.first);
    LeftFrom(oracle, outcome, after, s.rest)
  }

  ghost function LeftFrom(oracle: Oracle, outcome: Outcome, w: World, rest: seq<(Connective, Group)>): (Outcome, World)
    requires forall i :: 0 <= i < |rest| ==> GroupOk(rest[i].1)
    decreases |rest|
  {
    if rest == [] || outcome.Raised? then (outcome, w)
    else if Proceeds(rest[0].0, outcome.code) then
      var (next, after) := RunGroup(oracle, w, rest[0].1);
      LeftFrom(oracle, next, after, rest[1..])
    else LeftFrom(oracle, outcome, w, rest[1..])
  }

  ghost predicate OneConnective(s: Script) {
    forall i, j :: 0 <= i < j < |s.rest| ==> s.rest[i].0 == s.rest[j].0
  }

  lemma {:induction false} SkippingTheRest(oracle: Oracle, outcome: Outcome, w: World, rest: seq<(Connective, Group)>)
    requires forall i :: 0 <= i < |rest| ==> GroupOk(rest[i].1)
    requires outcome.Exit? && forall i :: 0 <= i < |rest| ==> !Proceeds(rest[i].0, outcome.code)
    ensures LeftFrom(oracle, outcome, w, rest) == (outcome, w)
    decreases |rest|
  {
    if rest == [] {
    } else {
      SkippingTheRest(oracle, outcome, w, rest[1..]);
    }
  }

  lemma {:induction false} OneConnectiveAgrees(oracle: Oracle, w: World, s: Script)
    requires ScriptOk(s) && OneConnective(s)
    ensures RightNested(oracle, w, s) == LeftAssociative(oracle, w, s)
    decreases |s.rest|
  {
    hide RunGroup, GroupOk;
    var (outcome, after) := RunGroup(oracle, w, s.first);
    if s.rest != [] && outcome.Exit? {
      if Proceeds(s.rest[0].0, outcome.code) {
        OneConnectiveAgrees(oracle, after, Tail(s));
      } else {
        forall i | 0 <= i < |s.rest|
          ensures !Proceeds(s.rest[i].0, outcome.code)
        {
          assert s.rest[i].0 == s.rest[0].0;
        }
        SkippingTheRest(oracle, outcome, after, s.rest);
      }
    }
  }

  /** The code that makes the connective stop a script. */
  function Stopping(op: Connective): int {
    if op == And then 1 else 0
  }

  lemma {:induction false} LogGrows(oracle: Oracle, outcome: Outcome, w: World, rest: seq<(Connective, Group)>)
    requires forall i :: 0 <= i < |rest| ==> GroupOk(rest[i].1)
    ensures LeftFrom(oracle, outcome, w, rest).1.procs >= w.procs
    decreases |rest|
  {
    if rest == [] || outcome.Raised? {
    } else if Proceeds(rest[0].0, outcome.code) {
      var (next, after) := RunGroup(oracle, w, rest[0].1);
      LogGrows(oracle, next, after, rest[1..]);
    } else {
      LogGrows(oracle, outcome, w, rest[1..]);
    }
  }

  /** When every command exits with the code that stops at op, a later group with the other
      connective still runs, or raises, under the left-associative reading. */
  lemma {:induction false} LaterGroupRuns(oracle: Oracle, op: Connective, w: World, rest: seq<(Connective, Group)>,
                                          k: nat)
    requires forall i :: 0 <= i < |rest| ==> GroupOk(rest[i].1)
    requires k < |rest| && rest[k].0 != op
    ensures var (outcome, after) := LeftFrom(oracle, Exit(Stopping(op)), w, rest);
            outcome.Raised? || after.procs > w.procs
    decreases k
  {
    if rest[0].0 == op {
      LaterGroupRuns(oracle, op, w, rest[1..], k - 1);
    } else {
      var (next, after) := RunGroup(oracle, w, rest[0].1);
      LogGrows(oracle, next, after, rest[1..]);
    }
  }

  /** The two readings of a script agree, whatever its commands return, exactly when it uses only
      one of the two connectives. */
  lemma ReadingsAgreeIffOneConnective(s: Script)
    requires ScriptOk(s) && s.first.fault == None
    ensures (forall oracle, w :: RightNested(oracle, w, s) == LeftAssociative(oracle, w, s)) <==> OneConnective(s)
  {
    if OneConnective(s) {
      forall oracle, w
        ensures RightNested(oracle, w, s) == LeftAssociative(oracle, w, s)
      {
        OneConnectiveAgrees(oracle, w, s);
      }
    } else {
      var i, j :| 0 <= i < j < |s.rest| && s.rest[i].0 != s.rest[j].0;
      var op := s.rest[0].0;
      var k := if s.rest[i].0 != op then i else j;
      var oracle: Oracle := (log, pid) => Stopping(op);
      var w := World([], 0, 0);
      var (outcome, after) := RunGroup(oracle, w, s.first);
      assert outcome == Exit(Stopping(op)) && RightNested(oracle, w, s) == (outcome, after);
      LaterGroupRuns(oracle, op, after, s.rest, k);
      assert LeftAssociative(oracle, w, s) == LeftFrom(oracle, outcome, after, s.rest);
    }
  }

  // ----- nothing is left running or open -----

  ghost function WaitedPids(log: seq<Event>): seq<nat> {
    if log == [] then [] else
      WaitedPids(log[..|log| - 1]) + if log[|log| - 1].Waited? then [log[|log| - 1].pid] else []
  }

  ghost function ClosedFds(log: seq<Event>): seq<nat> {
    if log == [] then [] else
      ClosedFds(log[..|log| - 1]) + if log[|log| - 1].Closed? then [log[|log| - 1].fd] else []
  }

  ghost function Spawns(log: seq<Event>): nat {
    if log == [] then 0 else Spawns(log[..|log| - 1]) + if log[|log| - 1].Spawned? then 1 else 0
  }

  ghost function Opens(log: seq<Event>): nat {
    if log == [] then 0 else
      Opens(log[..|log| - 1]) + if log[|log| - 1].OpenedForReading? || log[|log| - 1].OpenedForWriting? then 1 else 0
  }

  ghost function Upto(n: nat): seq<nat> {
    seq(n, i => i)
  }

  /** The counters count, the first `waited` processes have been waited for and the first `closed`
      files closed, each once and in order. */
  ghost predicate Accounted(w: World, waited: nat, closed: nat) {
    && w.procs == Spawns(w.log) && w.files == Opens(w.log)
    && WaitedPids(w.log) == Upto(waited) && ClosedFds(w.log) == Upto(closed)
  }

  lemma LogOne(log: seq<Event>, e: Event)
    ensures WaitedPids(log + [e]) == WaitedPids(log) + if e.Waited? then [e.pid] else []
    ensures ClosedFds(log + [e]) == ClosedFds(log) + if e.Closed? then [e.fd] else []
    ensures Spawns(log + [e]) == Spawns(log) + if e.Spawned? then 1 else 0
    ensures Opens(log + [e]) == Opens(log) + if e.OpenedForReading? || e.OpenedForWriting? then 1 else 0
  {
    assert (log + [e])[..|log|] == log;
  }

  lemma AccountOpen(w: World, e: Event, waited: nat, closed: nat)
    requires Accounted(w, waited, closed) && (e.OpenedForReading? || e.OpenedForWriting?)
    ensures Accounted(OpenFile(w, e), waited, closed)
  {
    LogOne(w.log, e);
  }

  lemma AccountSpawn(w: World, c: Placed, piped: Option<nat>, waited: nat, closed: nat)
    requires Accounted(w, waited, closed) && c.command.Command?
    ensures Accounted(Spawn(w, c, piped), waited, closed)
  {
    hide Accounted, IsNullDevice;
    var (w1, stdin) := OpenSource(w, c.command, piped);
    if piped == None && c.command.stdin.Some? {
      AccountOpen(w, OpenedForReading(c.command.stdin.value), waited, closed);
    }
    var (w2, stdout) := OpenTarget(w1, c.command.stdout);
    AccountTarget(w1, c.command.stdout, waited, closed);
    AccountTarget(w2, c.command.stderr, waited, closed);
    var (w3, stderr) := OpenTarget(w2, c.command.stderr);
    AccountProcess(w3, Spawned(c.command.argv, stdin, stdout, stderr, c.command.env, ProcessCwd(c.cwd)),
                   waited, closed);
  }

  lemma AccountTarget(w: World, r: Redirect, waited: nat, closed: nat)
    requires Accounted(w, waited, closed)
    ensures Accounted(OpenTarget(w, r).0, waited, closed)
  {
    hide Accounted;
    if r.ToFile? && !IsNullDevice(r.name) {
      AccountOpen(w, OpenedForWriting(r.name), waited, closed);
    }
  }

  lemma AccountProcess(w: World, e: Event, waited: nat, closed: nat)
    requires Accounted(w, waited, closed) && e.Spawned?
    ensures Accounted(World(w.log + [e], w.files, w.procs + 1), waited, closed)
  {
    LogOne(w.log, e);
  }

  lemma {:induction false} AccountSpawnAll(w: World, cs: seq<Placed>, waited: nat, closed: nat)
    requires Accounted(w, waited, closed) && AreCommands(cs)
    ensures Accounted(SpawnAll(w, cs), waited, closed)
    decreases |cs|
  {
    hide Accounted, Spawn;
    if cs == [] {
    } else {
      var last := |cs| - 1;
      AccountSpawnAll(w, cs[..last], waited, closed);
      var before := SpawnAll(w, cs[..last]);
      AccountSpawn(before, cs[last], if last == 0 then None else Some(before.procs - 1), waited, closed);
    }
  }

  lemma {:induction false} AccountWaitAll(w: World, lo: nat, hi: nat, closed: nat)
    requires lo <= hi && Accounted(w, lo, closed)
    ensures Accounted(WaitAll(w, lo, hi), hi, closed)
    decreases hi
  {
    if lo != hi {
      AccountWaitAll(w, lo, hi - 1, closed);
      LogOne(WaitAll(w, lo, hi - 1).log, Waited(hi - 1));
    }
  }

  lemma {:induction false} AccountCloseAll(w: World, waited: nat, lo: nat, hi: nat)
    requires lo <= hi && Accounted(w, waited, lo)
    ensures Accounted(CloseAll(w, lo, hi), waited, hi)
    decreases hi
  {
    if lo != hi {
      AccountCloseAll(w, waited, lo, hi - 1);
      LogOne(CloseAll(w, lo, hi - 1).log, Closed(hi - 1));
    }
  }

  lemma AccountGroup(oracle: Oracle, w: World, g: Group)
    requires GroupOk(g) && Accounted(w, w.procs, w.files)
    ensures var (outcome, after) := RunGroup(oracle, w, g);
            if outcome.Exit? then Accounted(after, after.procs, after.files) else Accounted(after, w.procs, w.files)
  {
    hide Accounted, SpawnAll;
    var started := SpawnAll(w, g.commands);
    AccountSpawnAll(w, g.commands, w.procs, w.files);
    AccountWaitAll(started, w.procs, started.procs, w.files);
    AccountCloseAll(WaitAll(started, w.procs, started.procs), started.procs, w.files, started.files);
  }

  /** A script that ends with a status has waited for every process it started, once and in order,
      and closed every file it opened, once and in order. */
  lemma {:induction false} NothingIsLeft(oracle: Oracle, w: World, s: Script)
    requires ScriptOk(s) && Accounted(w, w.procs, w.files)
    ensures var (outcome, after) := RightNested(oracle, w, s);
            outcome.Exit? ==> Accounted(after, after.procs, after.files)
    decreases |s.rest|
  {
    hide Accounted, RunGroup, GroupOk;
    AccountGroup(oracle, w, s.first);
    var (outcome, after) := RunGroup(oracle, w, s.first);
    if s.rest != [] && outcome.Exit? && Proceeds(s.rest[0].0, outcome.code) {
      NothingIsLeft(oracle, after, Tail(s));
    }
  }
}
