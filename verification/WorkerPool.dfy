/** The worker pool of test.py as a state machine: a main thread that dispatches jobs, sends one
    break job per worker, collects the results and joins the workers; the workers; two FIFO
    queues; and an interrupt flag that may be raised at any moment. */
module WorkerPool {
  import opened Wrappers
  import opened SeqSums

  /** A real job, or the break job that tells a worker to exit. A worker that sees the interrupt
      flag marks a real job isBreak and hands it back without running it. */
  datatype Job = Poison | Work(id: nat, isSkip: bool, isBreak: bool, returncode: int)

  /** Waiting for a job, having taken one, running its process, or about to hand it back. */
  datatype Worker = Idle | Holding(job: Job) | Running(job: Job) | Returning(job: Job) | Exited

  datatype Tally = Tally(passed: nat, failed: nat, valgrind: nat, crashed: nat, skipped: nat)

  /** skips[i] says whether test i is to be skipped. */
  datatype Config = Config(skips: seq<bool>, processors: nat)

  /** The counters dispatched, poisons, |collected| and joined are how far the main thread has come
      in its four loops. */
  datatype State = State(
    dispatched: nat, poisons: nat, joined: nat, exitCode: int,
    input: seq<Job>, output: seq<Job>, workers: seq<Worker>, interrupted: bool,
    collected: seq<Job>, tally: Tally)

  const NotReturned := -1

  datatype Step =
    | Dispatch
    | SendBreak
    | Collect
    | Join
    | Return
    | Take(worker: nat)
    | CheckFlag(worker: nat)
    | ProcessExits(worker: nat, returncode: int)
    | HandBack(worker: nat)
    | Interrupt

  function Initial(c: Config): State {
    State(0, 0, 0, NotReturned, [], [], seq(c.processors, _ => Idle), false, [], Tally(0, 0, 0, 0, 0))
  }

  /** The counter that a collected job raises; a job marked isBreak raises none. */
  function Count(t: Tally, job: Job): Tally
    requires job.Work?
  {
    if job.isBreak then t
    else if job.isSkip then t.(skipped := t.skipped + 1)
    else if job.returncode == 0 then t.(passed := t.passed + 1)
    else if job.returncode == 1 then t.(failed := t.failed + 1)
    else if job.returncode == 2 then t.(valgrind := t.valgrind + 1)
    else t.(crashed := t.crashed + 1)
  }

  ghost predicate Enabled(c: Config, s: State, step: Step) {
    match step
    case Dispatch => s.dispatched < |c.skips|
    case SendBreak => s.dispatched == |c.skips| && s.poisons < c.processors
    case Collect =>
      s.dispatched == |c.skips| && s.poisons == c.processors && |s.collected| < |c.skips| &&
      s.output != [] && s.output[0].Work?
    case Join =>
      |s.collected| == |c.skips| && s.poisons == c.processors && s.joined < c.processors && s.joined < |s.workers| &&
      s.workers[s.joined] == Exited
    case Return =>
      |s.collected| == |c.skips| && s.poisons == c.processors && s.joined == c.processors && s.exitCode == NotReturned
    case Take(w) => w < |s.workers| && s.workers[w] == Idle && s.input != []
    case CheckFlag(w) => w < |s.workers| && s.workers[w].Holding? && s.workers[w].job.Work?
    case ProcessExits(w, code) => w < |s.workers| && s.workers[w].Running? && s.workers[w].job.Work?
    case HandBack(w) => w < |s.workers| && s.workers[w].Returning?
    case Interrupt => !s.interrupted
  }

  ghost function Apply(c: Config, s: State, step: Step): State
    requires Enabled(c, s, step)
  {
    match step
    case Dispatch =>
      s.(dispatched := s.dispatched + 1, input := s.input + [Work(s.dispatched, c.skips[s.dispatched], false, 0)])
    case SendBreak => s.(poisons := s.poisons + 1, input := s.input + [Poison])
    case Collect =>
      s.(output := s.output[1..], collected := s.collected + [s.output[0]], tally := Count(s.tally, s.output[0]))
    case Join => s.(joined := s.joined + 1)
    case Return => s.(exitCode := if s.tally.passed + s.tally.skipped == |c.skips| then 0 else 1)
    case Take(w) =>
      s.(input := s.input[1..], workers := s.workers[w := if s.input[0].Poison? then Exited else Holding(s.input[0])])
    case CheckFlag(w) =>
      var job := s.workers[w].job;
      s.(workers := s.workers[w := if s.interrupted then Returning(job.(isBreak := true))
                                   else if job.isSkip then Returning(job)
                                   else Running(job)])
    case ProcessExits(w, code) => s.(workers := s.workers[w := Returning(s.workers[w].job.(returncode := code))])
    case HandBack(w) => s.(output := s.output + [s.workers[w].job], workers := s.workers[w := Idle])
    case Interrupt => s.(interrupted := true)
  }

  // ----- where the jobs are -----

  function JobOf(w: Worker): Job {
    if w.Idle? || w.Exited? then Poison else w.job
  }

  /** What one real job adds to a count: all of them, or the one with a given number. */
  datatype Which = AnyJob | Numbered(id: nat)

  function Counts(which: Which, job: Job): nat {
    if job.Work? && (which == AnyJob || which == Numbered(job.id)) then 1 else 0
  }

  function JobCount(which: Which): Job -> nat {
    job => Counts(which, job)
  }

  function WorkerCount(which: Which): Worker -> nat {
    w => Counts(which, JobOf(w))
  }

  /** In how many places a job is: the input queue, a worker's hands, the output queue, collected. */
  ghost function Places(s: State, which: Which): nat {
    Total(s.input, JobCount(which)) + Total(s.workers, WorkerCount(which)) +
    Total(s.output, JobCount(which)) + Total(s.collected, JobCount(which))
  }

  /** Every dispatched job is in exactly one place, and nothing else is anywhere. */
  ghost predicate Conserved(s: State) {
    && Places(s, AnyJob) == s.dispatched
    && forall id: nat {:trigger Places(s, Numbered(id))} ::
         Places(s, Numbered(id)) == if id < s.dispatched then 1 else 0
  }

  lemma StepMovesOne(c: Config, s: State, step: Step, which: Which)
    requires Enabled(c, s, step)
    ensures Places(Apply(c, s, step), which) ==
            Places(s, which) + if step == Dispatch && (which == AnyJob || which == Numbered(s.dispatched)) then 1 else 0
  {
    hide Total;
    var t := Apply(c, s, step);
    var f, g := JobCount(which), WorkerCount(which);
    match step
    case Dispatch => TotalPush(s.input, t.input[|s.input|], f);
    case SendBreak => TotalPush(s.input, Poison, f);
    case Collect =>
      TotalPop(s.output, f);
      TotalPush(s.collected, s.output[0], f);
    case Take(w) =>
      TotalPop(s.input, f);
      TotalUpdate(s.workers, w, t.workers[w], g);
    case CheckFlag(w) => TotalUpdate(s.workers, w, t.workers[w], g);
    case ProcessExits(w, code) => TotalUpdate(s.workers, w, t.workers[w], g);
    case HandBack(w) =>
      TotalPush(s.output, s.workers[w].job, f);
      TotalUpdate(s.workers, w, Idle, g);
    case _ =>
  }

  lemma StepConserves(c: Config, s: State, step: Step)
    requires Enabled(c, s, step) && Conserved(s)
    ensures Conserved(Apply(c, s, step))
  {
    hide Enabled, Places;
    StepMovesOne(c, s, step, AnyJob);
    DispatchedAfter(c, s, step);
    forall id: nat
      ensures Places(Apply(c, s, step), Numbered(id)) == if id < Apply(c, s, step).dispatched then 1 else 0
    {
      StepMovesOne(c, s, step, Numbered(id));
    }
  }

  lemma DispatchedAfter(c: Config, s: State, step: Step)
    requires Enabled(c, s, step)
    ensures Apply(c, s, step).dispatched == s.dispatched + if step == Dispatch then 1 else 0
  {
  }

  // ----- break jobs -----

  function IsBreak(job: Job): nat {
    if job.Poison? then 1 else 0
  }

  function HasExited(w: Worker): nat {
    if w.Exited? then 1 else 0
  }

  /** Break jobs stay behind every real job, and each exited worker has used one up. */
  ghost predicate BreaksInOrder(s: State) {
    && (forall i, j :: 0 <= i < j < |s.input| && s.input[i].Poison? ==> s.input[j].Poison?)
    && Total(s.input, IsBreak) + Total(s.workers, HasExited) == s.poisons
    && (forall w, i :: 0 <= w < |s.workers| && s.workers[w].Exited? && 0 <= i < |s.input| ==> s.input[i].Poison?)
  }

  lemma StepKeepsBreakCount(c: Config, s: State, step: Step)
    requires Enabled(c, s, step) && Total(s.input, IsBreak) + Total(s.workers, HasExited) == s.poisons
    ensures var t := Apply(c, s, step); Total(t.input, IsBreak) + Total(t.workers, HasExited) == t.poisons
  {
    var t := Apply(c, s, step);
    match step
    case Dispatch => TotalPush(s.input, t.input[|s.input|], IsBreak);
    case SendBreak => TotalPush(s.input, Poison, IsBreak);
    case Take(w) =>
      TotalPop(s.input, IsBreak);
      TotalUpdate(s.workers, w, t.workers[w], HasExited);
    case CheckFlag(w) => TotalUpdate(s.workers, w, t.workers[w], HasExited);
    case ProcessExits(w, code) => TotalUpdate(s.workers, w, t.workers[w], HasExited);
    case HandBack(w) => TotalUpdate(s.workers, w, Idle, HasExited);
    case _ =>
  }

  /** How far the main thread's loops have come, in their order. */
  ghost predicate MainInOrder(c: Config, s: State) {
    && |s.workers| == c.processors && s.dispatched <= |c.skips| && s.poisons <= c.processors
    && (s.poisons > 0 ==> s.dispatched == |c.skips|)
    && |s.collected| <= |c.skips| && (s.collected != [] ==> s.dispatched == |c.skips| && s.poisons == c.processors)
    && s.joined <= c.processors && (s.joined > 0 ==> |s.collected| == |c.skips| && s.poisons == c.processors)
    && (forall k :: 0 <= k < s.joined ==> s.workers[k] == Exited)
    && (s.exitCode != NotReturned ==>
          && s.joined == c.processors && |s.collected| == |c.skips| && s.poisons == c.processors
          && s.exitCode == if s.tally.passed + s.tally.skipped == |c.skips| then 0 else 1)
  }

  lemma StepKeepsBreaksInOrder(c: Config, s: State, step: Step)
    requires Enabled(c, s, step) && MainInOrder(c, s) && BreaksInOrder(s)
    ensures BreaksInOrder(Apply(c, s, step))
  {
    hide Total;
    StepKeepsBreakCount(c, s, step);
    if step == Dispatch {
      assert s.poisons == 0;
      NoBreaksYet(s);
    }
  }

  lemma NoBreaksYet(s: State)
    requires s.poisons == 0 && BreaksInOrder(s)
    ensures forall i :: 0 <= i < |s.input| ==> s.input[i].Work?
    ensures forall w :: 0 <= w < |s.workers| ==> !s.workers[w].Exited?
  {
    forall i | 0 <= i < |s.input|
      ensures s.input[i].Work?
    {
      PartOfTotal(s.input, i, IsBreak);
    }
    forall w | 0 <= w < |s.workers|
      ensures !s.workers[w].Exited?
    {
      TotalUpdate(s.workers, w, Idle, HasExited);
    }
  }

  lemma StepKeepsMainInOrder(c: Config, s: State, step: Step)
    requires Enabled(c, s, step) && MainInOrder(c, s)
    ensures MainInOrder(c, Apply(c, s, step))
  {
  }

  // ----- what happens to a job on its way -----

  /** A real job of this test run, carrying its own skip mark. */
  predicate IsTest(c: Config, job: Job) {
    job.Work? && job.id < |c.skips| && job.isSkip == c.skips[job.id]
  }

  predicate JobIsFresh(c: Config, job: Job) {
    IsTest(c, job) && !job.isBreak
  }

  /** A job that comes back is abandoned only if the flag has been raised. */
  predicate JobIsDone(c: Config, interrupted: bool, job: Job) {
    IsTest(c, job) && (job.isBreak ==> interrupted)
  }

  predicate WorkerIsFaithful(c: Config, interrupted: bool, w: Worker) {
    match w
    case Holding(job) => JobIsFresh(c, job)
    case Running(job) => JobIsFresh(c, job) && !job.isSkip
    case Returning(job) => JobIsDone(c, interrupted, job)
    case _ => true
  }

  ghost function TallyOf(q: seq<Job>): Tally {
    if q == [] then Tally(0, 0, 0, 0, 0)
    else if q[|q| - 1].Poison? then TallyOf(q[..|q| - 1])
    else Count(TallyOf(q[..|q| - 1]), q[|q| - 1])
  }

  ghost predicate Faithful(c: Config, s: State) {
    && (forall i :: 0 <= i < |s.input| ==> s.input[i].Poison? || JobIsFresh(c, s.input[i]))
    && (forall w :: 0 <= w < |s.workers| ==> WorkerIsFaithful(c, s.interrupted, s.workers[w]))
    && (forall i :: 0 <= i < |s.output| ==> JobIsDone(c, s.interrupted, s.output[i]))
    && (forall i :: 0 <= i < |s.collected| ==> JobIsDone(c, s.interrupted, s.collected[i]))
    && s.tally == TallyOf(s.collected)
  }

  lemma StepKeepsFaithful(c: Config, s: State, step: Step)
    requires Enabled(c, s, step) && Faithful(c, s)
    ensures Faithful(c, Apply(c, s, step))
  {
    if step == Collect {
      assert (s.collected + [s.output[0]])[..|s.collected|] == s.collected;
    }
  }

  // ----- every reachable state -----

  ghost predicate Inv(c: Config, s: State) {
    Conserved(s) && BreaksInOrder(s) && MainInOrder(c, s) && Faithful(c, s)
  }

  /** The state that a sequence of steps from the start leads to, if all its steps are enabled. */
  ghost function StateAfter(c: Config, steps: seq<Step>): Option<State> {
    if steps == [] then Some(Initial(c)) else
      var last := |steps| - 1;
      match StateAfter(c, steps[..last])
      case None => None
      case Some(s) => if Enabled(c, s, steps[last]) then Some(Apply(c, s, steps[last])) else None
  }

  lemma InitialInv(c: Config)
    ensures Inv(c, Initial(c))
  {
    var s := Initial(c);
    TotalZero(s.workers, HasExited);
    TotalZero(s.workers, WorkerCount(AnyJob));
    forall id: nat
      ensures Places(s, Numbered(id)) == 0
    {
      TotalZero(s.workers, WorkerCount(Numbered(id)));
    }
  }

  /** Whatever the interleaving, the exit codes and the moment of the interrupt. */
  lemma {:induction false} ReachableStatesKeepInv(c: Config, steps: seq<Step>)
    requires StateAfter(c, steps).Some?
    ensures Inv(c, StateAfter(c, steps).value)
    decreases |steps|
  {
    hide Conserved, BreaksInOrder, MainInOrder, Faithful, Enabled, Apply;
    if steps == [] {
      InitialInv(c);
    } else {
      var last := |steps| - 1;
      ReachableStatesKeepInv(c, steps[..last]);
      var s := StateAfter(c, steps[..last]).value;
      StepConserves(c, s, steps[last]);
      StepKeepsBreaksInOrder(c, s, steps[last]);
      StepKeepsMainInOrder(c, s, steps[last]);
      StepKeepsFaithful(c, s, steps[last]);
    }
  }

  /** A worker told to exit takes its break job while no real job is waiting, and none will come. */
  lemma NoWorkIsLeftBehind(c: Config, s: State, w: nat)
    requires Inv(c, s) && Enabled(c, s, Take(w)) && s.input[0].Poison?
    ensures forall i :: 0 <= i < |s.input| ==> s.input[i].Poison?
    ensures s.dispatched == |c.skips|
  {
    PartOfTotal(s.input, 0, IsBreak);
    hide Conserved, Faithful, Total;
  }

  // ----- every run ends -----

  function InputWeight(job: Job): nat {
    if job.Poison? then 1 else 5
  }

  function WorkerWeight(w: Worker): nat {
    match w
    case Holding(_) => 4
    case Running(_) => 3
    case Returning(_) => 2
    case _ => 0
  }

  /** More steps than can still be taken. */
  ghost function Remaining(c: Config, s: State): int {
    6 * (|c.skips| - s.dispatched) + 2 * (c.processors - s.poisons) + (c.processors - s.joined)
    + Total(s.input, InputWeight) + Total(s.workers, WorkerWeight) + |s.output|
    + (if s.exitCode == NotReturned then 1 else 0) + (if s.interrupted then 0 else 1)
  }

  lemma StepLowersRemaining(c: Config, s: State, step: Step)
    requires Enabled(c, s, step)
    ensures Remaining(c, Apply(c, s, step)) < Remaining(c, s)
  {
    hide Total;
    var t := Apply(c, s, step);
    match step
    case Dispatch => TotalPush(s.input, t.input[|s.input|], InputWeight);
    case SendBreak => TotalPush(s.input, Poison, InputWeight);
    case Take(w) =>
      TotalPop(s.input, InputWeight);
      TotalUpdate(s.workers, w, t.workers[w], WorkerWeight);
    case CheckFlag(w) => TotalUpdate(s.workers, w, t.workers[w], WorkerWeight);
    case ProcessExits(w, code) => TotalUpdate(s.workers, w, t.workers[w], WorkerWeight);
    case HandBack(w) => TotalUpdate(s.workers, w, Idle, WorkerWeight);
    case _ =>
  }

  lemma {:induction false} RemainingAfter(c: Config, steps: seq<Step>)
    requires StateAfter(c, steps).Some?
    ensures Remaining(c, StateAfter(c, steps).value) + |steps| <= 6 * |c.skips| + 3 * c.processors + 2
    decreases |steps|
  {
    hide Enabled, Apply, Remaining;
    if steps == [] {
      RemainingInitially(c);
    } else {
      var last := |steps| - 1;
      RemainingAfter(c, steps[..last]);
      StepLowersRemaining(c, StateAfter(c, steps[..last]).value, steps[last]);
    }
  }

  lemma RemainingInitially(c: Config)
    ensures Remaining(c, Initial(c)) == 6 * |c.skips| + 3 * c.processors + 2
  {
    TotalZero(Initial(c).workers, WorkerWeight);
  }

  /** No run takes more than 6 steps a test, 3 a worker and 2 more. */
  lemma RunsAreBounded(c: Config, steps: seq<Step>)
    requires StateAfter(c, steps).Some?
    ensures |steps| <= 6 * |c.skips| + 3 * c.processors + 2
  {
    hide Conserved, BreaksInOrder, Faithful, StateAfter, Total;
    RemainingAfter(c, steps);
    ReachableStatesKeepInv(c, steps);
    assert MainInOrder(c, StateAfter(c, steps).value);
  }

  // ----- nothing blocks -----

  /** A worker with a job in hand can always go on. */
  lemma BusyWorkerMoves(c: Config, s: State, w: nat) returns (step: Step)
    requires Inv(c, s) && w < |s.workers| && HasJob(s.workers[w])
    ensures Enabled(c, s, step) && step != Interrupt
  {
    hide Conserved, BreaksInOrder;
    step := if s.workers[w].Holding? then CheckFlag(w)
            else if s.workers[w].Running? then ProcessExits(w, 0)
            else HandBack(w);
  }

  predicate HasJob(w: Worker) {
    w.Holding? || w.Running? || w.Returning?
  }

  /** While results are missing, one of them is queued, in hand, or waiting for an idle worker. */
  lemma CollectingMoves(c: Config, s: State) returns (step: Step)
    requires Inv(c, s) && c.processors > 0
    requires s.dispatched == |c.skips| && s.poisons == c.processors && |s.collected| < |c.skips|
    ensures Enabled(c, s, step) && step != Interrupt
  {
    hide Total, BreaksInOrder;
    assert Places(s, AnyJob) == |c.skips|;
    CollectedCount(c, s);
    if s.output != [] {
      step := Collect;
    } else if Total(s.workers, WorkerCount(AnyJob)) > 0 {
      var w := SomePositive(s.workers, WorkerCount(AnyJob));
      step := BusyWorkerMoves(c, s, w);
    } else {
      assert Total(s.output, JobCount(AnyJob)) == 0 by { EmptyTotal(s.output); }
      var i := SomePositive(s.input, JobCount(AnyJob));
      step := WaitingWorkMoves(c, s, i);
    }
  }

  lemma EmptyTotal(q: seq<Job>)
    ensures q == [] ==> Total(q, JobCount(AnyJob)) == 0
  {
  }

  lemma CollectedCount(c: Config, s: State)
    requires Faithful(c, s)
    ensures Total(s.collected, JobCount(AnyJob)) == |s.collected|
  {
    TotalOnes(s.collected, JobCount(AnyJob));
  }

  lemma WaitingWorkMoves(c: Config, s: State, i: nat) returns (step: Step)
    requires Inv(c, s) && c.processors > 0 && i < |s.input| && s.input[i].Work?
    ensures Enabled(c, s, step) && step != Interrupt
  {
    hide Conserved, Faithful, Total;
    if HasJob(s.workers[0]) {
      step := BusyWorkerMoves(c, s, 0);
    } else {
      step := Take(0);
    }
  }

  /** While workers are to be joined, the next one has exited, is busy or finds its break job. */
  lemma JoiningMoves(c: Config, s: State) returns (step: Step)
    requires Inv(c, s) && |s.collected| == |c.skips| && s.poisons == c.processors && s.joined < c.processors
    ensures Enabled(c, s, step) && step != Interrupt
  {
    hide Conserved, Faithful, Total;
    var w := s.joined;
    if s.workers[w].Exited? {
      step := Join;
    } else if HasJob(s.workers[w]) {
      step := BusyWorkerMoves(c, s, w);
    } else {
      BreaksRemain(s, w);
      step := Take(w);
    }
  }

  lemma {:induction false} NotAllExited(ws: seq<Worker>, w: nat)
    requires w < |ws| && !ws[w].Exited?
    ensures Total(ws, HasExited) < |ws|
    decreases |ws|
  {
    var last := |ws| - 1;
    if w < last {
      NotAllExited(ws[..last], w);
    } else {
      AtMostAllExited(ws[..last]);
    }
  }

  lemma {:induction false} AtMostAllExited(ws: seq<Worker>)
    ensures Total(ws, HasExited) <= |ws|
    decreases |ws|
  {
    if ws == [] {
    } else {
      AtMostAllExited(ws[..|ws| - 1]);
    }
  }

  lemma BreaksRemain(s: State, w: nat)
    requires BreaksInOrder(s) && s.poisons == |s.workers| && w < |s.workers| && !s.workers[w].Exited?
    ensures s.input != []
  {
    NotAllExited(s.workers, w);
  }

  /** Until the main thread returns, some step other than the interrupt is possible. */
  lemma NothingBlocks(c: Config, s: State) returns (step: Step)
    requires Inv(c, s) && s.exitCode == NotReturned && (c.processors > 0 || c.skips == [])
    ensures Enabled(c, s, step) && step != Interrupt
  {
    hide Conserved, BreaksInOrder, Faithful;
    if s.dispatched < |c.skips| {
      step := Dispatch;
    } else if s.poisons < c.processors {
      step := SendBreak;
    } else if |s.collected| < |c.skips| {
      step := CollectingMoves(c, s);
    } else if s.joined < c.processors {
      step := JoiningMoves(c, s);
    } else {
      step := Return;
    }
  }

  /** A run that cannot be continued has returned, unless there was work and nobody to do it: with
      no workers, which a negative process limit asks for, the main thread waits for ever. */
  lemma RunsEndReturned(c: Config, steps: seq<Step>)
    requires StateAfter(c, steps).Some? && forall step :: !Enabled(c, StateAfter(c, steps).value, step)
    ensures StateAfter(c, steps).value.exitCode != NotReturned <==> c.processors > 0 || c.skips == []
  {
    hide StateAfter, Enabled, Apply, Conserved, BreaksInOrder;
    var s := StateAfter(c, steps).value;
    ReachableStatesKeepInv(c, steps);
    if s.exitCode == NotReturned && (c.processors > 0 || c.skips == []) {
      var step := NothingBlocks(c, s);
    }
    if c.processors == 0 {
      NobodyCollects(c, steps);
    }
  }

  lemma {:induction false} NobodyCollects(c: Config, steps: seq<Step>)
    requires StateAfter(c, steps).Some? && c.processors == 0
    ensures StateAfter(c, steps).value.workers == [] && StateAfter(c, steps).value.output == []
    ensures StateAfter(c, steps).value.collected == []
    decreases |steps|
  {
    if steps == [] {
    } else {
      NobodyCollects(c, steps[..|steps| - 1]);
    }
  }

  /** When a step other than the interrupt is possible: until the main thread returns, unless it has
      dispatched work that there is nobody to do. */
  lemma MovesIff(c: Config, steps: seq<Step>)
    requires StateAfter(c, steps).Some?
    ensures var s := StateAfter(c, steps).value;
            (exists step :: Enabled(c, s, step) && step != Interrupt) <==>
            s.exitCode == NotReturned && (c.processors > 0 || c.skips == [] || s.dispatched < |c.skips|)
  {
    hide StateAfter, Conserved, BreaksInOrder, Faithful;
    var s := StateAfter(c, steps).value;
    ReachableStatesKeepInv(c, steps);
    if s.exitCode != NotReturned {
      Verdict(c, steps);
    } else if c.processors > 0 || c.skips == [] {
      var step := NothingBlocks(c, s);
    } else if s.dispatched < |c.skips| {
      assert Enabled(c, s, Dispatch);
    } else {
      NobodyCollects(c, steps);
    }
  }

  /** A running process may exit with any code, and the interrupt may come at any time, once. */
  lemma AnythingMayHappen(c: Config, steps: seq<Step>, w: nat, code: int)
    requires StateAfter(c, steps).Some?
    ensures var s := StateAfter(c, steps).value;
      && (w < |s.workers| && s.workers[w].Running? ==> Enabled(c, s, ProcessExits(w, code)))
      && (Enabled(c, s, Interrupt) <==> !s.interrupted)
  {
    hide StateAfter, Conserved, BreaksInOrder, MainInOrder;
    ReachableStatesKeepInv(c, steps);
    var s := StateAfter(c, steps).value;
    assert w < |s.workers| ==> WorkerIsFaithful(c, s.interrupted, s.workers[w]);
  }

  // ----- the verdict -----

  predicate PassedOrSkipped(job: Job) {
    job.Work? && !job.isBreak && (job.isSkip || job.returncode == 0)
  }

  lemma {:induction false} TallyCountsGood(q: seq<Job>)
    requires forall i :: 0 <= i < |q| ==> q[i].Work?
    ensures var t := TallyOf(q);
            && t.passed + t.skipped <= |q|
            && (t.passed + t.skipped == |q| <==> forall i :: 0 <= i < |q| ==> PassedOrSkipped(q[i]))
    decreases |q|
  {
    if q == [] {
    } else {
      var last := |q| - 1;
      TallyCountsGood(q[..last]);
      assert (forall i :: 0 <= i < |q| ==> PassedOrSkipped(q[i])) <==>
             PassedOrSkipped(q[last]) && forall i :: 0 <= i < last ==> PassedOrSkipped(q[..last][i]);
    }
  }

  /** Once the main thread has returned, every test has been collected exactly once, nothing is
      queued or in hand and every worker has exited; and the exit code is 0 exactly when every test
      came back passed or skipped, none of them abandoned. */
  lemma Verdict(c: Config, steps: seq<Step>)
    requires StateAfter(c, steps).Some? && StateAfter(c, steps).value.exitCode != NotReturned
    ensures var s := StateAfter(c, steps).value;
            && |s.collected| == |c.skips| && s.input == [] && s.output == []
            && (forall w :: 0 <= w < |s.workers| ==> s.workers[w].Exited?)
            && (forall id :: 0 <= id < |c.skips| ==> Total(s.collected, JobCount(Numbered(id))) == 1)
            && (s.exitCode == 0 <==> forall i :: 0 <= i < |s.collected| ==> PassedOrSkipped(s.collected[i]))
            && s.exitCode in {0, 1}
  {
    hide StateAfter, Total, TallyOf;
    ReachableStatesKeepInv(c, steps);
    var s := StateAfter(c, steps).value;
    TallyCountsGood(s.collected);
    NothingElsewhere(c, s);
  }

  lemma NothingElsewhere(c: Config, s: State)
    requires Inv(c, s) && s.exitCode != NotReturned
    ensures s.input == [] && s.output == []
    ensures forall id :: 0 <= id < |c.skips| ==> Total(s.collected, JobCount(Numbered(id))) == 1
  {
    CollectedCount(c, s);
    TotalOnes(s.workers, HasExited);
    NonemptyCounts(s.input);
    NonemptyCounts(s.output);
    hide BreaksInOrder, Faithful;
    forall id: nat | id < |c.skips|
      ensures Total(s.collected, JobCount(Numbered(id))) == 1
    {
      TotalZero(s.workers, WorkerCount(Numbered(id)));
      assert Places(s, Numbered(id)) == 1;
    }
  }

  lemma NonemptyCounts(q: seq<Job>)
    ensures q != [] ==> Total(q, IsBreak) + Total(q, JobCount(AnyJob)) > 0
  {
    if q != [] {
      PartOfTotal(q, 0, IsBreak);
      PartOfTotal(q, 0, JobCount(AnyJob));
    }
  }

  // ----- what the counters say -----

  /** What can have become of a real job. */
  datatype Kind = Abandoned | Skipped | ExitedWith(returncode: int) | Crashed

  predicate IsOf(kind: Kind, job: Job) {
    && job.Work?
    && match kind
       case Abandoned => job.isBreak
       case Skipped => !job.isBreak && job.isSkip
       case ExitedWith(code) => !job.isBreak && !job.isSkip && job.returncode == code
       case Crashed => !job.isBreak && !job.isSkip && job.returncode !in {0, 1, 2}
  }

  ghost function Those(q: seq<Job>, kind: Kind): set<nat> {
    set i: nat | i < |q| && IsOf(kind, q[i])
  }

  lemma OneMore(q: seq<Job>, kind: Kind)
    requires q != []
    ensures |Those(q, kind)| == |Those(q[..|q| - 1], kind)| + if IsOf(kind, q[|q| - 1]) then 1 else 0
  {
    hide IsOf;
    var last := |q| - 1;
    assert Those(q, kind) == if IsOf(kind, q[last]) then Those(q[..last], kind) + {last} else Those(q[..last], kind);
  }

  /** Each counter is the number of jobs of its kind, and the abandoned jobs make up the rest. */
  lemma {:induction false} CountersAreCounts(q: seq<Job>)
    requires forall i :: 0 <= i < |q| ==> q[i].Work?
    ensures var t := TallyOf(q);
            && t.skipped == |Those(q, Skipped)| && t.passed == |Those(q, ExitedWith(0))|
            && t.failed == |Those(q, ExitedWith(1))| && t.valgrind == |Those(q, ExitedWith(2))|
            && t.crashed == |Those(q, Crashed)|
            && t.passed + t.failed + t.valgrind + t.crashed + t.skipped + |Those(q, Abandoned)| == |q|
    decreases |q|
  {
    if q == [] {
      assert forall kind :: Those(q, kind) == {};
    } else {
      hide Those;
      CountersAreCounts(q[..|q| - 1]);
      OneMore(q, Skipped);
      OneMore(q, ExitedWith(0));
      OneMore(q, ExitedWith(1));
      OneMore(q, ExitedWith(2));
      OneMore(q, Crashed);
      OneMore(q, Abandoned);
    }
  }

  lemma SetsAsWritten(q: seq<Job>)
    requires forall i :: 0 <= i < |q| ==> q[i].Work?
    ensures Those(q, Abandoned) == set i: nat | i < |q| && q[i].isBreak
    ensures Those(q, Skipped) == set i: nat | i < |q| && !q[i].isBreak && q[i].isSkip
    ensures Those(q, ExitedWith(0)) == set i: nat | i < |q| && !q[i].isBreak && !q[i].isSkip && q[i].returncode == 0
    ensures Those(q, ExitedWith(1)) == set i: nat | i < |q| && !q[i].isBreak && !q[i].isSkip && q[i].returncode == 1
    ensures Those(q, ExitedWith(2)) == set i: nat | i < |q| && !q[i].isBreak && !q[i].isSkip && q[i].returncode == 2
    ensures Those(q, Crashed) ==
            set i: nat | i < |q| && !q[i].isBreak && !q[i].isSkip && q[i].returncode !in {0, 1, 2}
  {
  }

  /** The main thread's own loop over the results, once they are all there to be taken. */
  method CollectResults(results: seq<Job>) returns (tally: Tally, exitCode: int)
    requires forall i :: 0 <= i < |results| ==> results[i].Work?
    ensures tally == TallyOf(results)
    ensures tally.skipped == |set i: nat | i < |results| && !results[i].isBreak && results[i].isSkip|
    ensures tally.passed ==
            |set i: nat | i < |results| && !results[i].isBreak && !results[i].isSkip && results[i].returncode == 0|
    ensures tally.failed ==
            |set i: nat | i < |results| && !results[i].isBreak && !results[i].isSkip && results[i].returncode == 1|
    ensures tally.valgrind ==
            |set i: nat | i < |results| && !results[i].isBreak && !results[i].isSkip && results[i].returncode == 2|
    ensures tally.crashed ==
            |set i: nat | i < |results| && !results[i].isBreak && !results[i].isSkip
                          && results[i].returncode !in {0, 1, 2}|
    ensures tally.passed + tally.failed + tally.valgrind + tally.crashed + tally.skipped
            + |set i: nat | i < |results| && results[i].isBreak| == |results|
    ensures exitCode == if forall i :: 0 <= i < |results| ==> PassedOrSkipped(results[i]) then 0 else 1
  {
    var passed, failed, valgrind, crashed, skipped := 0, 0, 0, 0, 0;
    for i := 0 to |results|
      invariant Tally(passed, failed, valgrind, crashed, skipped) == TallyOf(results[..i])
    {
      var job := results[i];
      assert results[..i + 1][..i] == results[..i];
      if job.isBreak {
        continue;
      }
      if job.isSkip {
        skipped := skipped + 1;
      } else if job.returncode == 0 {
        passed := passed + 1;
      } else if job.returncode == 1 {
        failed := failed + 1;
      } else if job.returncode == 2 {
        valgrind := valgrind + 1;
      } else {
        crashed := crashed + 1;
      }
    }
    assert results[..|results|] == results;
    TallyCountsGood(results);
    CountersAreCounts(results);
    SetsAsWritten(results);
    tally := Tally(passed, failed, valgrind, crashed, skipped);
    exitCode := if passed + skipped == |results| then 0 else 1;
  }
}
