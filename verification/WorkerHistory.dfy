/** What a run of the worker pool has done decides its queues, what comes back and what the counters say. */
module WorkerHistory {
  import opened SeqSums
  import opened WorkerCodes
  import opened WorkerPool
  import opened Wrappers

  // ----- both queues are first in, first out -----

  /** The jobs put to the workers: the tests in their order, then break jobs. */
  function PutIn(c: Config, dispatched: nat, poisons: nat): seq<Job>
    requires dispatched <= |c.skips|
  {
    seq(dispatched, i requires 0 <= i < dispatched => Work(i, c.skips[i], false, 0)) + seq(poisons, _ => Poison)
  }

  ghost function TakesIn(steps: seq<Step>): set<nat> {
    set k: nat | k < |steps| && steps[k].Take?
  }

  ghost function CollectsIn(steps: seq<Step>): set<nat> {
    set k: nat | k < |steps| && steps[k] == Collect
  }

  /** The jobs that the workers have handed back, in order. */
  ghost function HandedBack(c: Config, steps: seq<Step>): seq<Job>
    requires StateAfter(c, steps).Some?
  {
    if steps == [] then [] else
      var before, step := steps[..|steps| - 1], steps[|steps| - 1];
      if step.HandBack?
      then HandedBack(c, before) + [StateAfter(c, before).value.workers[step.worker].job]
      else HandedBack(c, before)
  }

  ghost predicate QueuesOk(c: Config, s: State, taken: nat, collected: nat, handed: seq<Job>) {
    && s.dispatched <= |c.skips| && taken <= s.dispatched + s.poisons
    && s.input == PutIn(c, s.dispatched, s.poisons)[taken..]
    && s.collected + s.output == handed && |s.collected| == collected
  }

  lemma StepKeepsQueues(c: Config, s: State, step: Step, taken: nat, collected: nat, handed: seq<Job>)
    requires Enabled(c, s, step) && MainInOrder(c, s) && QueuesOk(c, s, taken, collected, handed)
    ensures QueuesOk(c, Apply(c, s, step), taken + if step.Take? then 1 else 0,
                     collected + if step == Collect then 1 else 0,
                     handed + if step.HandBack? then [s.workers[step.worker].job] else [])
  {
    var t := Apply(c, s, step);
    var put, put' := PutIn(c, s.dispatched, s.poisons), PutIn(c, t.dispatched, t.poisons);
    if step == Dispatch {
      assert s.poisons == 0;
      assert put' == put + [t.input[|s.input|]];
      assert put'[taken..] == put[taken..] + [t.input[|s.input|]];
    } else if step == SendBreak {
      assert put' == put + [Poison];
      assert put'[taken..] == put[taken..] + [Poison];
    } else if step == Collect {
      assert s.output == [s.output[0]] + s.output[1..];
    }
  }

  lemma TakesGrow(steps: seq<Step>)
    requires steps != []
    ensures var last := |steps| - 1;
      && |TakesIn(steps)| == |TakesIn(steps[..last])| + (if steps[last].Take? then 1 else 0)
      && |CollectsIn(steps)| == |CollectsIn(steps[..last])| + (if steps[last] == Collect then 1 else 0)
  {
    var last := |steps| - 1;
    assert TakesIn(steps) == if steps[last].Take? then TakesIn(steps[..last]) + {last} else TakesIn(steps[..last]);
    assert CollectsIn(steps) ==
           if steps[last] == Collect then CollectsIn(steps[..last]) + {last} else CollectsIn(steps[..last]);
  }

  /** In every run: of what was put in, the input queue holds all but the jobs taken first, and the jobs
      that were handed back have been collected in that order, as many as there were collections. */
  lemma {:induction false} QueuesAreFifo(c: Config, steps: seq<Step>)
    requires StateAfter(c, steps).Some?
    ensures QueuesOk(c, StateAfter(c, steps).value, |TakesIn(steps)|, |CollectsIn(steps)|, HandedBack(c, steps))
    decreases |steps|
  {
    hide Enabled, Apply, Inv, QueuesOk;
    if steps == [] {
      NoneQueued(c);
    } else {
      var before, last := steps[..|steps| - 1], |steps| - 1;
      QueuesAreFifo(c, before);
      InOrder(c, before);
      StepKeepsQueues(c, StateAfter(c, before).value, steps[last], |TakesIn(before)|, |CollectsIn(before)|,
                      HandedBack(c, before));
      TakesGrow(steps);
      assert HandedBack(c, before) + [] == HandedBack(c, before);
    }
  }

  lemma NoneQueued(c: Config)
    ensures QueuesOk(c, Initial(c), |TakesIn([])|, |CollectsIn([])|, [])
  {
    assert TakesIn([]) == {} && CollectsIn([]) == {};
  }

  lemma InOrder(c: Config, steps: seq<Step>)
    requires StateAfter(c, steps).Some?
    ensures MainInOrder(c, StateAfter(c, steps).value)
  {
    ReachableStatesKeepInv(c, steps);
  }

  // ----- jobs that come back without having been run -----

  lemma {:induction false} FlagIsHistory(c: Config, steps: seq<Step>)
    requires StateAfter(c, steps).Some?
    ensures StateAfter(c, steps).value.interrupted <==> Interrupt in steps
    decreases |steps|
  {
    hide Enabled, Apply;
    if steps == [] {
    } else {
      var last := |steps| - 1;
      FlagIsHistory(c, steps[..last]);
      FlagIsRaised(c, StateAfter(c, steps[..last]).value, steps[last]);
      assert steps == steps[..last] + [steps[last]];
    }
  }

  lemma FlagIsRaised(c: Config, s: State, step: Step)
    requires Enabled(c, s, step)
    ensures Apply(c, s, step).interrupted <==> s.interrupted || step == Interrupt
  {
  }

  /** In step k a worker holding test id looks at the flag, which has been raised before or not. */
  ghost predicate ChecksAt(c: Config, steps: seq<Step>, k: nat, id: nat, raised: bool) {
    && k < |steps| && steps[k].CheckFlag? && StateAfter(c, steps[..k]).Some?
    && (Interrupt in steps[..k] <==> raised)
    && var s, w := StateAfter(c, steps[..k]).value, steps[k].worker;
       w < |s.workers| && s.workers[w].Holding? && s.workers[w].job.Work? && s.workers[w].job.id == id
  }

  ghost predicate Checked(c: Config, steps: seq<Step>, id: nat, raised: bool) {
    exists k: nat :: ChecksAt(c, steps, k, id, raised)
  }

  lemma CheckedMore(c: Config, steps: seq<Step>, id: nat, raised: bool)
    requires steps != []
    ensures Checked(c, steps, id, raised) <==>
            Checked(c, steps[..|steps| - 1], id, raised) || ChecksAt(c, steps, |steps| - 1, id, raised)
  {
    var last := |steps| - 1;
    forall k: nat | k < last ensures ChecksAt(c, steps, k, id, raised) <==> ChecksAt(c, steps[..last], k, id, raised) {
      assert steps[..last][..k] == steps[..k];
    }
    if k: nat :| ChecksAt(c, steps, k, id, raised) {
      assert k < last ==> ChecksAt(c, steps[..last], k, id, raised);
    }
    if k: nat :| ChecksAt(c, steps[..last], k, id, raised) {
      assert ChecksAt(c, steps, k, id, raised);
    }
  }

  /** A job that comes back without having been run: abandoned, or to be skipped. */
  function Unrun(c: Config, id: nat, abandoned: bool): Job
    requires id < |c.skips|
  {
    Work(id, c.skips[id], abandoned, 0)
  }

  ghost predicate BringsUnrun(c: Config, s: State, step: Step, id: nat, abandoned: bool) {
    && step.CheckFlag? && step.worker < |s.workers| && s.workers[step.worker].Holding?
    && s.workers[step.worker].job.Work? && s.workers[step.worker].job.id == id && s.interrupted == abandoned
  }

  lemma StepBringsUnrun(c: Config, s: State, step: Step, id: nat, abandoned: bool)
    requires Enabled(c, s, step) && HoldsFresh(c, s) && id < |c.skips| && (abandoned || c.skips[id])
    ensures IsBack(Apply(c, s, step), Unrun(c, id, abandoned)) <==>
            IsBack(s, Unrun(c, id, abandoned)) || BringsUnrun(c, s, step, id, abandoned)
  {
    var t, job := Apply(c, s, step), Unrun(c, id, abandoned);
    if step == Collect {
      assert s.output == [s.output[0]] + s.output[1..];
    } else if step.HandBack? || step.Take? || step.CheckFlag? || step.ProcessExits? {
      WorkersChange(s.workers, t.workers, step.worker, job);
    }
  }

  /** A job in hand has not been run, and one that is to be skipped is not run. */
  ghost predicate HoldsFresh(c: Config, s: State) {
    forall w :: 0 <= w < |s.workers| ==>
                  && (s.workers[w].Holding? && s.workers[w].job.Work? ==>
                        s.workers[w].job.id < |c.skips| && s.workers[w].job == Unrun(c, s.workers[w].job.id, false))
                  && (s.workers[w].Running? ==> s.workers[w].job.Work? && WasRun(s.workers[w].job))
  }

  ghost predicate QueuesFresh(c: Config, s: State) {
    forall i :: 0 <= i < |s.input| && s.input[i].Work? ==>
                  s.input[i].id < |c.skips| && s.input[i] == Unrun(c, s.input[i].id, false)
  }

  /** Every job that has come back was run or is as it was when it was put in, but for the mark. */
  ghost predicate BackIsKnown(c: Config, s: State) {
    forall job :: IsBack(s, job) && !WasRun(job) ==>
                    && job.Work? && job.id < |c.skips|
                    && (job == Unrun(c, job.id, true) || (c.skips[job.id] && job == Unrun(c, job.id, false)))
  }

  ghost predicate Fresh(c: Config, s: State) {
    HoldsFresh(c, s) && QueuesFresh(c, s) && BackIsKnown(c, s)
  }

  lemma StepKeepsHolds(c: Config, s: State, step: Step)
    requires Enabled(c, s, step) && HoldsFresh(c, s) && QueuesFresh(c, s)
    ensures HoldsFresh(c, Apply(c, s, step)) && QueuesFresh(c, Apply(c, s, step))
  {
  }

  lemma StepKeepsBack(c: Config, s: State, step: Step)
    requires Enabled(c, s, step) && HoldsFresh(c, s) && BackIsKnown(c, s)
    ensures BackIsKnown(c, Apply(c, s, step))
  {
    hide BackIsKnown, HoldsFresh;
    forall job | IsBack(Apply(c, s, step), job) && !WasRun(job)
      ensures job.Work? && job.id < |c.skips|
      ensures job == Unrun(c, job.id, true) || (c.skips[job.id] && job == Unrun(c, job.id, false))
    {
      StepBringsKnown(c, s, step, job);
    }
    KnownIfEach(c, Apply(c, s, step));
  }

  lemma KnownIfEach(c: Config, s: State)
    requires forall job :: IsBack(s, job) && !WasRun(job) ==>
                             && job.Work? && job.id < |c.skips|
                             && (job == Unrun(c, job.id, true) || (c.skips[job.id] && job == Unrun(c, job.id, false)))
    ensures BackIsKnown(c, s)
  {
  }

  lemma StepBringsKnown(c: Config, s: State, step: Step, job: Job)
    requires Enabled(c, s, step) && HoldsFresh(c, s) && BackIsKnown(c, s)
    requires IsBack(Apply(c, s, step), job) && !WasRun(job)
    ensures job.Work? && job.id < |c.skips|
    ensures job == Unrun(c, job.id, true) || (c.skips[job.id] && job == Unrun(c, job.id, false))
  {
    var t := Apply(c, s, step);
    if step == Collect {
      assert s.output == [s.output[0]] + s.output[1..];
      assert IsBack(s, job);
    } else if step.HandBack? || step.Take? || step.CheckFlag? || step.ProcessExits? {
      WorkersChange(s.workers, t.workers, step.worker, job);
      if t.workers[step.worker] != Returning(job) {
        assert IsBack(s, job);
      }
    } else {
      assert IsBack(s, job);
    }
  }

  /** The jobs that came back without having been run are those of the tests for which a worker looked at
      the flag after it was raised, and of the tests to be skipped for which it looked before. */
  ghost predicate UnrunOk(c: Config, steps: seq<Step>, s: State) {
    forall id: nat, abandoned: bool :: id < |c.skips| && (abandoned || c.skips[id]) ==>
      (IsBack(s, Unrun(c, id, abandoned)) <==> Checked(c, steps, id, abandoned))
  }

  lemma {:induction false} UnrunAreKept(c: Config, steps: seq<Step>)
    requires StateAfter(c, steps).Some?
    ensures UnrunOk(c, steps, StateAfter(c, steps).value) && Fresh(c, StateAfter(c, steps).value)
    decreases |steps|
  {
    if steps == [] {
      forall id: nat, abandoned ensures !Checked(c, steps, id, abandoned) {
      }
    } else {
      hide IsBack, Checked, ChecksAt, Enabled, Apply, HoldsFresh, QueuesFresh, BackIsKnown;
      var before, last := steps[..|steps| - 1], |steps| - 1;
      var s := StateAfter(c, before).value;
      UnrunAreKept(c, before);
      StepKeepsHolds(c, s, steps[last]);
      StepKeepsBack(c, s, steps[last]);
      forall id: nat, abandoned: bool | id < |c.skips| && (abandoned || c.skips[id])
        ensures IsBack(StateAfter(c, steps).value, Unrun(c, id, abandoned)) <==> Checked(c, steps, id, abandoned)
      {
        StepBringsUnrun(c, s, steps[last], id, abandoned);
        CheckIsBrought(c, steps, id, abandoned);
        CheckedMore(c, steps, id, abandoned);
      }
    }
  }

  lemma CheckIsBrought(c: Config, steps: seq<Step>, id: nat, abandoned: bool)
    requires steps != [] && StateAfter(c, steps[..|steps| - 1]).Some?
    ensures BringsUnrun(c, StateAfter(c, steps[..|steps| - 1]).value, steps[|steps| - 1], id, abandoned) <==>
            ChecksAt(c, steps, |steps| - 1, id, abandoned)
  {
    FlagIsHistory(c, steps[..|steps| - 1]);
  }

  // ----- the counters -----

  /** The process of a test has exited, with a code that is none of 0, 1 and 2. */
  ghost predicate ExitedOtherwise(c: Config, steps: seq<Step>, id: nat) {
    exists code :: code !in {0, 1, 2} && ProcessExited(c, steps, id, code)
  }

  /** What the run did with a test. */
  ghost predicate Became(c: Config, steps: seq<Step>, id: nat, kind: Kind)
    requires id < |c.skips|
  {
    match kind
    case Abandoned => Checked(c, steps, id, true)
    case Skipped => c.skips[id] && Checked(c, steps, id, false)
    case ExitedWith(code) => ProcessExited(c, steps, id, code)
    case Crashed => ExitedOtherwise(c, steps, id)
  }

  ghost function Tests(c: Config, steps: seq<Step>, kind: Kind): set<nat> {
    set id: nat | id < |c.skips| && Became(c, steps, id, kind)
  }

  lemma BackIsCollected(c: Config, s: State, i: nat, job: Job)
    requires IsBack(s, job) && job.Work? && s.output == [] && i < |s.collected|
    requires forall w :: 0 <= w < |s.workers| ==> s.workers[w].Exited?
    requires s.collected[i].Work? && s.collected[i].id == job.id
    requires Total(s.collected, JobCount(Numbered(job.id))) == 1
    ensures job == s.collected[i]
  {
    NotInHand(s, job);
    var j: nat :| j < |s.collected| && s.collected[j] == job;
    SameJob(s.collected, job.id, i, j);
  }

  lemma KindOfOne(c: Config, steps: seq<Step>, i: nat, kind: Kind)
    requires StateAfter(c, steps).Some? && StateAfter(c, steps).value.exitCode != NotReturned
    requires i < |StateAfter(c, steps).value.collected|
    ensures var job := StateAfter(c, steps).value.collected[i];
      && job.Work? && job.id < |c.skips|
      && Total(StateAfter(c, steps).value.collected, JobCount(Numbered(job.id))) == 1
      && (IsOf(kind, job) <==> Became(c, steps, job.id, kind))
  {
    hide ProcessExited, Checked, StateAfter, Total;
    var s := StateAfter(c, steps).value;
    var job := s.collected[i];
    Verdict(c, steps);
    CodesAreKept(c, steps);
    UnrunAreKept(c, steps);
    CollectedIsTest(c, steps, i);
    assert IsBack(s, job);
    if job.isBreak || job.isSkip {
      assert !WasRun(job);
      assert job == Unrun(c, job.id, job.isBreak);
    }
    if Checked(c, steps, job.id, true) {
      BackIsCollected(c, s, i, Unrun(c, job.id, true));
    }
    if c.skips[job.id] && Checked(c, steps, job.id, false) {
      BackIsCollected(c, s, i, Unrun(c, job.id, false));
    }
    forall code | ProcessExited(c, steps, job.id, code) ensures job == Work(job.id, false, false, code) {
      BackIsCollected(c, s, i, Work(job.id, false, false, code));
    }
  }

  lemma {:induction false} SameSize(q: seq<Job>, from: set<nat>, onto: set<nat>)
    requires forall i :: i in from ==> i < |q| && q[i].Work? && q[i].id in onto
    requires forall i, j :: i in from && j in from && q[i].id == q[j].id ==> i == j
    requires forall id :: id in onto ==> exists i :: i in from && q[i].id == id
    ensures |from| == |onto|
    decreases from
  {
    if i :| i in from {
      SameSize(q, from - {i}, onto - {q[i].id});
    } else {
      assert onto == {};
    }
  }

  lemma AsManyTests(c: Config, steps: seq<Step>, kind: Kind)
    requires StateAfter(c, steps).Some? && StateAfter(c, steps).value.exitCode != NotReturned
    ensures |Those(StateAfter(c, steps).value.collected, kind)| == |Tests(c, steps, kind)|
  {
    hide StateAfter, Became, IsOf, Total;
    var q := StateAfter(c, steps).value.collected;
    forall i: nat | i < |q|
      ensures q[i].Work? && q[i].id < |c.skips| && (IsOf(kind, q[i]) <==> Became(c, steps, q[i].id, kind))
      ensures Total(q, JobCount(Numbered(q[i].id))) == 1
    {
      KindOfOne(c, steps, i, kind);
    }
    forall i, j | i in Those(q, kind) && j in Those(q, kind) && q[i].id == q[j].id ensures i == j {
      SameJob(q, q[i].id, i, j);
    }
    Verdict(c, steps);
    forall id | id in Tests(c, steps, kind) ensures exists i :: i in Those(q, kind) && q[i].id == id {
      var i := TheJob(q, id);
      assert i in Those(q, kind);
    }
    SameSize(q, Those(q, kind), Tests(c, steps, kind));
  }

  lemma TallyIsOfCollected(c: Config, steps: seq<Step>)
    requires StateAfter(c, steps).Some?
    ensures StateAfter(c, steps).value.tally == TallyOf(StateAfter(c, steps).value.collected)
    ensures var q := StateAfter(c, steps).value.collected; forall i :: 0 <= i < |q| ==> q[i].Work?
  {
    ReachableStatesKeepInv(c, steps);
  }

  /** Once the main thread has returned, the counters say what has become of the tests: so many processes
      exited with 0, 1, 2 and any other code, so many tests to be skipped were looked at before the
      interrupt, and the tests looked at after it make up the rest. */
  lemma CountersSayWhatHappened(c: Config, steps: seq<Step>)
    requires StateAfter(c, steps).Some? && StateAfter(c, steps).value.exitCode != NotReturned
    ensures var t := StateAfter(c, steps).value.tally;
      && t.passed == |set id: nat | id < |c.skips| && ProcessExited(c, steps, id, 0)|
      && t.failed == |set id: nat | id < |c.skips| && ProcessExited(c, steps, id, 1)|
      && t.valgrind == |set id: nat | id < |c.skips| && ProcessExited(c, steps, id, 2)|
      && t.crashed == |set id: nat | id < |c.skips| && ExitedOtherwise(c, steps, id)|
      && t.skipped == |set id: nat | id < |c.skips| && c.skips[id] && Checked(c, steps, id, false)|
      && t.passed + t.failed + t.valgrind + t.crashed + t.skipped
         + |set id: nat | id < |c.skips| && Checked(c, steps, id, true)| == |c.skips|
  {
    hide StateAfter, ProcessExited, Checked, Those, TallyOf, Total;
    var s := StateAfter(c, steps).value;
    Verdict(c, steps);
    TallyIsOfCollected(c, steps);
    CountersAreCounts(s.collected);
    AsManyTests(c, steps, ExitedWith(0));
    AsManyTests(c, steps, ExitedWith(1));
    AsManyTests(c, steps, ExitedWith(2));
    AsManyTests(c, steps, Crashed);
    AsManyTests(c, steps, Skipped);
    AsManyTests(c, steps, Abandoned);
    TestsAsWritten(c, steps);
  }

  lemma TestsAsWritten(c: Config, steps: seq<Step>)
    ensures forall code :: Tests(c, steps, ExitedWith(code)) ==
                           set id: nat | id < |c.skips| && ProcessExited(c, steps, id, code)
    ensures Tests(c, steps, Crashed) == set id: nat | id < |c.skips| && ExitedOtherwise(c, steps, id)
    ensures Tests(c, steps, Skipped) == set id: nat | id < |c.skips| && c.skips[id] && Checked(c, steps, id, false)
    ensures Tests(c, steps, Abandoned) == set id: nat | id < |c.skips| && Checked(c, steps, id, true)
  {
    hide ProcessExited, Checked, ExitedOtherwise;
  }
}
