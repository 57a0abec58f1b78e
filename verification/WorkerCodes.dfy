/** What the worker pool's verdict says about the processes that were run. */
module WorkerCodes {
  import opened SeqSums
  import opened WorkerPool
  import opened Wrappers

  /** Step k of the run is the exit, with this code, of the process of test id. */
  ghost predicate ExitsAt(c: Config, steps: seq<Step>, k: nat, id: nat, code: int) {
    && k < |steps| && steps[k].ProcessExits? && steps[k].returncode == code
    && StateAfter(c, steps[..k]).Some?
    && var s, w := StateAfter(c, steps[..k]).value, steps[k].worker;
       w < |s.workers| && s.workers[w].Running? && s.workers[w].job.Work? && s.workers[w].job.id == id
  }

  ghost predicate ProcessExited(c: Config, steps: seq<Step>, id: nat, code: int) {
    exists k :: ExitsAt(c, steps, k, id, code)
  }

  /** A job that came back and was neither skipped nor abandoned. */
  predicate WasRun(job: Job) {
    job.Work? && !job.isSkip && !job.isBreak
  }

  ghost predicate IsBack(s: State, job: Job) {
    || Returning(job) in s.workers
    || job in s.output
    || job in s.collected
  }

  /** The jobs that came back after being run are those whose processes have exited, with their codes. */
  ghost predicate CodesOk(c: Config, steps: seq<Step>, s: State) {
    && (forall job :: IsBack(s, job) && WasRun(job) ==> ProcessExited(c, steps, job.id, job.returncode))
    && (forall id: nat, code :: ProcessExited(c, steps, id, code) ==> IsBack(s, Work(id, false, false, code)))
  }

  lemma ExitedMore(c: Config, steps: seq<Step>, id: nat, code: int)
    requires steps != []
    ensures ProcessExited(c, steps, id, code) <==>
            ProcessExited(c, steps[..|steps| - 1], id, code) || ExitsAt(c, steps, |steps| - 1, id, code)
  {
    var last := |steps| - 1;
    forall k | 0 <= k < last ensures ExitsAt(c, steps, k, id, code) <==> ExitsAt(c, steps[..last], k, id, code) {
      assert steps[..last][..k] == steps[..k];
    }
    if k: nat :| ExitsAt(c, steps, k, id, code) {
      assert k < last ==> ExitsAt(c, steps[..last], k, id, code);
    }
    if k: nat :| ExitsAt(c, steps[..last], k, id, code) {
      assert ExitsAt(c, steps, k, id, code);
    }
  }

  /** Only a process exit brings a job back that was run; nothing takes one away. */
  lemma StepBringsBack(c: Config, s: State, step: Step, job: Job)
    requires Enabled(c, s, step) && Faithful(c, s) && WasRun(job)
    ensures IsBack(Apply(c, s, step), job) <==> IsBack(s, job) || BringsBack(s, step, job)
  {
    var t := Apply(c, s, step);
    if step == Collect {
      assert s.output == [s.output[0]] + s.output[1..];
    } else if step.HandBack? || step.Take? || step.CheckFlag? || step.ProcessExits? {
      WorkersChange(s.workers, t.workers, step.worker, job);
    }
  }

  lemma WorkersChange(ws: seq<Worker>, ws': seq<Worker>, w: nat, job: Job)
    requires w < |ws| == |ws'| && ws' == ws[w := ws'[w]]
    ensures Returning(job) in ws' <==>
            || ws'[w] == Returning(job)
            || exists i :: 0 <= i < |ws| && i != w && ws[i] == Returning(job)
    ensures Returning(job) in ws <==>
            || ws[w] == Returning(job)
            || exists i :: 0 <= i < |ws| && i != w && ws[i] == Returning(job)
  {
    forall i | 0 <= i < |ws| && i != w ensures ws'[i] == ws[i] {
    }
    assert ws'[w] in ws' && ws[w] in ws;
    if i :| 0 <= i < |ws| && i != w && ws[i] == Returning(job) {
      assert ws'[i] == Returning(job);
    }
  }

  ghost predicate BringsBack(s: State, step: Step, job: Job) {
    && step.ProcessExits? && step.worker < |s.workers| && s.workers[step.worker].Running?
    && s.workers[step.worker].job.Work? && job == s.workers[step.worker].job.(returncode := step.returncode)
  }

  lemma ExitIsBrought(c: Config, steps: seq<Step>, s: State, job: Job)
    requires steps != [] && StateAfter(c, steps[..|steps| - 1]) == Some(s) && Faithful(c, s)
    requires Enabled(c, s, steps[|steps| - 1]) && WasRun(job)
    ensures BringsBack(s, steps[|steps| - 1], job) <==> ExitsAt(c, steps, |steps| - 1, job.id, job.returncode)
  {
    var step := steps[|steps| - 1];
    if step.ProcessExits? {
      assert WorkerIsFaithful(c, s.interrupted, s.workers[step.worker]);
    }
  }

  lemma {:induction false} CodesAreKept(c: Config, steps: seq<Step>)
    requires StateAfter(c, steps).Some?
    ensures CodesOk(c, steps, StateAfter(c, steps).value)
    decreases |steps|
  {
    if steps == [] {
      forall id: nat, code ensures !ProcessExited(c, steps, id, code) {
      }
    } else {
      hide IsBack, BringsBack, ProcessExited, ExitsAt, Enabled, Apply, Inv, Faithful;
      var last := |steps| - 1;
      var s := StateAfter(c, steps[..last]).value;
      CodesAreKept(c, steps[..last]);
      InvIsFaithful(c, steps[..last]);
      forall job | WasRun(job)
        ensures IsBack(StateAfter(c, steps).value, job) <==> ProcessExited(c, steps, job.id, job.returncode)
      {
        StepBringsBack(c, s, steps[last], job);
        ExitIsBrought(c, steps, s, job);
        ExitedMore(c, steps, job.id, job.returncode);
        assert job == Work(job.id, false, false, job.returncode);
      }
      forall id: nat, code | ProcessExited(c, steps, id, code)
        ensures IsBack(StateAfter(c, steps).value, Work(id, false, false, code))
      {
        assert WasRun(Work(id, false, false, code));
      }
    }
  }

  lemma InvIsFaithful(c: Config, steps: seq<Step>)
    requires StateAfter(c, steps).Some?
    ensures Faithful(c, StateAfter(c, steps).value)
  {
    ReachableStatesKeepInv(c, steps);
  }

  // ----- the verdict -----

  ghost predicate Abandoned(s: State, id: nat) {
    exists i :: 0 <= i < |s.collected| && s.collected[i].Work? && s.collected[i].id == id && s.collected[i].isBreak
  }

  lemma {:induction false} OnlyOneNumbered(q: seq<Job>, id: nat, i: nat, j: nat)
    requires i < j < |q| && q[i].Work? && q[j].Work? && q[i].id == id == q[j].id
    ensures Total(q, JobCount(Numbered(id))) >= 2
    decreases |q|
  {
    var last := |q| - 1;
    if j < last {
      OnlyOneNumbered(q[..last], id, i, j);
    } else {
      PartOfTotal(q[..last], i, JobCount(Numbered(id)));
    }
  }

  lemma TheJob(q: seq<Job>, id: nat) returns (i: nat)
    requires Total(q, JobCount(Numbered(id))) == 1
    ensures i < |q| && q[i].Work? && q[i].id == id
    ensures forall j :: 0 <= j < |q| && q[j].Work? && q[j].id == id ==> j == i
  {
    i := SomePositive(q, JobCount(Numbered(id)));
    forall j | 0 <= j < |q| && q[j].Work? && q[j].id == id ensures j == i {
      if j < i {
        OnlyOneNumbered(q, id, j, i);
      } else if i < j {
        OnlyOneNumbered(q, id, i, j);
      }
    }
  }

  /** A test that is skipped was not abandoned; any other one's process exited with 0. */
  ghost predicate IsGood(c: Config, steps: seq<Step>, s: State, id: nat)
    requires id < |c.skips|
  {
    if c.skips[id] then !Abandoned(s, id) else ProcessExited(c, steps, id, 0)
  }

  lemma VerdictOfOne(c: Config, steps: seq<Step>, id: nat) returns (i: nat)
    requires StateAfter(c, steps).Some? && StateAfter(c, steps).value.exitCode != NotReturned && id < |c.skips|
    ensures var s := StateAfter(c, steps).value;
      && i < |s.collected| && s.collected[i].Work? && s.collected[i].id == id
      && (PassedOrSkipped(s.collected[i]) <==> IsGood(c, steps, s, id))
  {
    hide ProcessExited, StateAfter, Total, WorkerPool.Inv, Conserved, BreaksInOrder, MainInOrder;
    var s := StateAfter(c, steps).value;
    Verdict(c, steps);
    CodesAreKept(c, steps);
    InvIsFaithful(c, steps);
    i := TheJob(s.collected, id);
    var job := s.collected[i];
    assert IsTest(c, job) && IsBack(s, job);
    if !c.skips[id] && ProcessExited(c, steps, id, 0) {
      var run := Work(id, false, false, 0);
      assert IsBack(s, run);
      NotInHand(s, run);
      var j :| 0 <= j < |s.collected| && s.collected[j] == run;
      assert j == i;
    }
    if c.skips[id] && Abandoned(s, id) {
      var j :| 0 <= j < |s.collected| && s.collected[j].Work? && s.collected[j].id == id && s.collected[j].isBreak;
      assert j == i;
    }
  }

  lemma NotInHand(s: State, job: Job)
    requires forall w :: 0 <= w < |s.workers| ==> s.workers[w].Exited?
    ensures Returning(job) !in s.workers
  {
  }

  /** Once the main thread has returned, the exit code is 0 exactly when the process of every test that
      is not skipped has exited with 0, and no test that is skipped was abandoned. */
  lemma ExitCodeZeroIff(c: Config, steps: seq<Step>)
    requires StateAfter(c, steps).Some? && StateAfter(c, steps).value.exitCode != NotReturned
    ensures StateAfter(c, steps).value.exitCode == 0 <==>
            forall id :: 0 <= id < |c.skips| ==> IsGood(c, steps, StateAfter(c, steps).value, id)
  {
    hide ProcessExited, StateAfter, Abandoned, PassedOrSkipped, IsGood, Total;
    var s := StateAfter(c, steps).value;
    Verdict(c, steps);
    if s.exitCode == 0 {
      forall id | 0 <= id < |c.skips| ensures IsGood(c, steps, s, id) {
        var i := VerdictOfOne(c, steps, id);
      }
    } else {
      var i :| 0 <= i < |s.collected| && !PassedOrSkipped(s.collected[i]);
      CollectedIsTest(c, steps, i);
      var id := s.collected[i].id;
      var j := VerdictOfOne(c, steps, id);
      SameJob(s.collected, id, i, j);
      assert !IsGood(c, steps, s, id);
    }
  }

  lemma CollectedIsTest(c: Config, steps: seq<Step>, i: nat)
    requires StateAfter(c, steps).Some? && i < |StateAfter(c, steps).value.collected|
    ensures IsTest(c, StateAfter(c, steps).value.collected[i])
  {
    InvIsFaithful(c, steps);
  }

  lemma SameJob(q: seq<Job>, id: nat, i: nat, j: nat)
    requires Total(q, JobCount(Numbered(id))) == 1 && i < |q| && j < |q|
    requires q[i].Work? && q[i].id == id && q[j].Work? && q[j].id == id
    ensures i == j
  {
    var k := TheJob(q, id);
  }
}
