/** A run in the middle of a pipeline: what reading the next nodes makes of it. */
module ShellMeaning {
  import opened Wrappers
  import opened ShellSyntax
  import opened ShellEval

  lemma {:induction false} ScriptOfIsOk(p: seq<Node>, cwd: string, before: seq<Placed>)
    requires WellFormed(p) && AreCommands(before)
    ensures ScriptOk(ScriptOf(p, cwd, before))
    decreases |p|
  {
    if |p| > 1 {
      if p[0].Chdir? {
        if p[0].dir.Some? {
          ScriptOfIsOk(p[2..], JoinPath(cwd, p[0].dir.value), before);
        }
      } else if p[1].PipeOp? {
        ScriptOfIsOk(p[2..], cwd, before + [Placed(p[0], cwd)]);
      } else {
        ScriptOfIsOk(p[2..], cwd, []);
      }
    }
  }

  ghost function Meaning(oracle: Oracle, p: seq<Node>): (Outcome, World)
    requires WellFormed(p)
  {
    ScriptOfIsOk(p, ".", []);
    RightNested(oracle, World([], 0, 0), ScriptOf(p, ".", []))
  }

  /** In the middle of a run that is to end with goal: the group's commands so far have been
      started since start, and the nodes p are still to be read. */
  ghost predicate Running(oracle: Oracle, goal: (Outcome, World), p: seq<Node>, cwd: string, start: World,
                          group: seq<Placed>, w: World) {
    && WellFormed(p) && AreCommands(group) && w == SpawnAll(start, group)
    && ScriptOk(ScriptOf(p, cwd, group)) && goal == RightNested(oracle, start, ScriptOf(p, cwd, group))
  }

  lemma StartOfRun(oracle: Oracle, p: seq<Node>) returns (goal: (Outcome, World))
    ensures WellFormed(p) ==> p != [] && ScriptOk(ScriptOf(p, ".", [])) && goal == Meaning(oracle, p)
    ensures WellFormed(p) ==> goal == RightNested(oracle, World([], 0, 0), ScriptOf(p, ".", []))
    ensures WellFormed(p) ==> Running(oracle, goal, p, ".", World([], 0, 0), [], World([], 0, 0))
  {
    if WellFormed(p) {
      ScriptOfIsOk(p, ".", []);
      goal := Meaning(oracle, p);
    } else {
      goal := (Exit(0), World([], 0, 0));
    }
  }

  /** A run in the middle is at a node, and what a change of directory makes of it. */
  lemma FirstIsNode(oracle: Oracle, goal: (Outcome, World), p: seq<Node>, cwd: string, start: World,
                    group: seq<Placed>, w: World)
    requires Running(oracle, goal, p, cwd, start, group, w)
    ensures p != [] && (p[0].Command? || p[0].Chdir?) && (|p| > 1 ==> IsOp(p[1]) && |p| > 2)
    ensures p[0].Chdir? && |p| == 1 ==> goal == (Raised(IndexError), w)
    ensures p[0].Chdir? && |p| > 1 ==> p[1].AndOp?
    ensures p[0].Chdir? && |p| > 1 && p[0].dir == None ==> goal == (Raised(TypeError), w)
    ensures p[0].Chdir? && |p| > 1 && p[0].dir.Some? ==>
              Running(oracle, goal, p[2..], JoinPath(cwd, p[0].dir.value), start, group, w)
  {
    hide JoinPath, SpawnAll;
    if |p| > 1 {
      assert WellFormed(p[2..]);
    }
    if p[0].Chdir? && |p| > 1 && p[0].dir.Some? {
      ScriptOfIsOk(p[2..], JoinPath(cwd, p[0].dir.value), group);
    }
  }

  ghost function ConnectiveOf(op: Node): Connective {
    if op.AndOp? then And else Or
  }

  /** Reading a command that and or or follows ends the group. */
  lemma GroupEnds(oracle: Oracle, p: seq<Node>, cwd: string, start: World, group: seq<Placed>)
    requires WellFormed(p) && p[0].Command? && |p| > 1 && !p[1].PipeOp? && AreCommands(group)
    ensures var group' := group + [Placed(p[0], cwd)];
            AreCommands(group') && ScriptOk(ScriptOf(p[2..], cwd, [])) && ScriptOk(ScriptOf(p, cwd, group)) &&
            var (outcome, after) := RunGroup(oracle, start, Group(group', None));
            RightNested(oracle, start, ScriptOf(p, cwd, group)) ==
            if Proceeds(ConnectiveOf(p[1]), outcome.code) then RightNested(oracle, after, ScriptOf(p[2..], cwd, []))
            else (outcome, after)
  {
    hide NodeOk, SpawnAll, WaitAll, CloseAll;
    ScriptOfIsOk(p[2..], cwd, []);
    ScriptOfIsOk(p, cwd, group);
    var next := ScriptOf(p[2..], cwd, []);
    var s := ScriptOf(p, cwd, group);
    assert s.rest[0].0 == ConnectiveOf(p[1]);
    assert s.rest[1..] == next.rest;
    assert Tail(s) == next;
  }

  lemma SpawnNext(start: World, group: seq<Placed>, w: World, c: Placed)
    requires AreCommands(group) && w == SpawnAll(start, group) && c.command.Command?
    ensures AreCommands(group + [c])
    ensures SpawnAll(start, group + [c]) == Spawn(w, c, if group == [] then None else Some(w.procs - 1))
  {
    hide Spawn;
    assert (group + [c])[..|group|] == group;
  }

  /** What reading a command and the operator after it makes of a run. */
  lemma CommandStep(oracle: Oracle, goal: (Outcome, World), p: seq<Node>, cwd: string, start: World,
                    group: seq<Placed>, w: World, w': World)
    requires Running(oracle, goal, p, cwd, start, group, w) && p[0].Command?
    requires w' == Spawn(w, Placed(p[0], cwd), if group == [] then None else Some(w.procs - 1))
    ensures var group' := group + [Placed(p[0], cwd)];
            && AreCommands(group') && w' == SpawnAll(start, group')
            && if |p| == 1 then goal == RunGroup(oracle, start, Group(group', None))
               else if p[1].PipeOp? then Running(oracle, goal, p[2..], cwd, start, group', w')
               else
                 var (outcome, after) := RunGroup(oracle, start, Group(group', None));
                 if Proceeds(ConnectiveOf(p[1]), outcome.code)
                 then Running(oracle, goal, p[2..], cwd, after, [], after)
                 else goal == (outcome, after)
  {
    hide NodeOk, Spawn, RunGroup, Proceeds;
    SpawnNext(start, group, w, Placed(p[0], cwd));
    if |p| > 1 {
      if p[1].PipeOp? {
        ScriptOfIsOk(p[2..], cwd, group + [Placed(p[0], cwd)]);
      } else {
        GroupEnds(oracle, p, cwd, start, group);
      }
    }
  }

  lemma RanGroup(oracle: Oracle, start: World, group: seq<Placed>, w: World)
    requires AreCommands(group) && group != [] && w == SpawnAll(start, group)
    ensures RunGroup(oracle, start, Group(group, None)) == Finish(oracle, start, w)
  {
    hide SpawnAll, Finish;
  }
}
