/** What the SIRD loop's credit is good for: how much the senders may have out, which packets bring a
    credit back, what a loss costs, and delivery when nothing is lost. Nothing is retransmitted. */
module SirdOutcome {
  import opened MapSums
  import opened SeqSums
  import opened SirdBooks
  import opened SirdCredit
  import opened SirdHistory
  import opened SirdProgress
  import opened SirdProtocol
  import opened Wrappers

  // ----- safety -----

  /** Granted packets that are under way or lost, or that the sender may send. */
  ghost function ExposedPackets(m: Msg): set<nat> {
    set o: nat | m.unsched <= o < Window(m) && (o in m.data || o in m.lost || o >= m.next)
  }

  ghost function Exposed(m: Msg): nat {
    |ExposedPackets(m)|
  }

  ghost function ExposedBy(sender: nat): Msg -> nat {
    (m: Msg) => if m.sender == sender then Exposed(m) else 0
  }

  ghost function ExposedAll(): Msg -> nat {
    (m: Msg) => Exposed(m)
  }

  lemma {:induction false} Within<T>(a: set<T>, b: set<T>)
    requires a <= b
    ensures |a| <= |b|
    decreases a
  {
    if a == {} {
    } else {
      var x :| x in a;
      Within(a - {x}, b - {x});
    }
  }

  lemma ExposedIsOwed(m: Msg)
    requires MsgOk(m)
    ensures Exposed(m) <= Owed(m)
  {
    Within(ExposedPackets(m), Missing(m.unsched, Granted(m), m.received));
  }

  lemma SenderExposure(c: Config, s: State, sender: nat)
    requires Inv(c, s)
    ensures Total(s.msgs, ExposedBy(sender)) <= Total(s.msgs, OwedBy(sender))
    ensures Total(s.msgs, ExposedBy(sender)) <= ValueAt(s.inUse, sender) + Total(s.msgs, LeakBy(sender))
    ensures ValueAt(s.inUse, sender) <= SenderBudget(c) && s.global == SumOf(s.inUse) <= GlobalBudget(c)
  {
    hide Owed, Exposed, MsgOk;
    forall i | 0 <= i < |s.msgs| ensures Exposed(s.msgs[i]) <= Owed(s.msgs[i]) {
      ExposedIsOwed(s.msgs[i]);
    }
    assert SenderCounterOk(c, s, sender);
    TotalDominates(s.msgs, ExposedBy(sender), OwedBy(sender));
    TotalDominates(s.msgs, OwedBy(sender), DueBy(sender));
  }

  /** If each sender's messages fit its entry, all messages fit the sum of the entries. */
  lemma {:induction false} AllSenders(q: seq<Msg>, credit: map<nat, nat>)
    requires forall sender: nat {:trigger ValueAt(credit, sender)} ::
               Total(q, ExposedBy(sender)) <= ValueAt(credit, sender)
    ensures Total(q, ExposedAll()) <= SumOf(credit)
    decreases |q|
  {
    hide Exposed, SumOf;
    if q == [] {
    } else {
      var last := |q| - 1;
      var m := q[last];
      assert Exposed(m) <= Total(q, ExposedBy(m.sender)) <= ValueAt(credit, m.sender);
      var less := credit[m.sender := ValueAt(credit, m.sender) - Exposed(m)];
      SumUpdate(credit, m.sender, ValueAt(credit, m.sender) - Exposed(m));
      forall sender: nat ensures Total(q[..last], ExposedBy(sender)) <= ValueAt(less, sender) {
        assert Total(q, ExposedBy(sender)) <= ValueAt(credit, sender);
      }
      AllSenders(q[..last], less);
    }
  }

  ghost predicate IsUnmixed(c: Config, flows: seq<(nat, nat)>) {
    c.overcommit == 0 || !Mixed(c, flows)
  }

  /** Where no sender mixes packets sent unasked with granted ones, the granted data under way, lost or
      still to be sent is within the credit in use, and so within the budgets; in general each packet
      that has arrived of a message sent unasked may have let out two more. */
  lemma CreditSafety(c: Config, flows: seq<(nat, nat)>, steps: seq<Step>, sender: nat)
    requires StateAfter(c, flows, steps).Some?
    ensures var s := StateAfter(c, flows, steps).value;
      && Total(s.msgs, ExposedBy(sender)) <= SenderBudget(c) + Total(s.msgs, LeakBy(sender))
      && (IsUnmixed(c, flows) ==>
            && Total(s.msgs, ExposedBy(sender)) <= ValueAt(s.inUse, sender) <= SenderBudget(c)
            && Total(s.msgs, ExposedAll()) <= s.global <= GlobalBudget(c))
  {
    hide StateAfter, Mixed, Inv;
    var s := StateAfter(c, flows, steps).value;
    ReachableStatesKeepInv(c, flows, steps);
    SenderExposure(c, s, sender);
    if IsUnmixed(c, flows) {
      BooksBalanceIffUnmixed(c, flows);
      forall other: nat ensures Total(s.msgs, ExposedBy(other)) <= ValueAt(s.inUse, other) {
        SenderExposure(c, s, other);
        assert Balanced(StateAfter(c, flows, steps).value, other);
      }
      AllSenders(s.msgs, s.inUse);
    }
  }

  // ----- which packets bring a credit back -----

  /** The guard on the global counter never takes effect. Where no sender mixes, a packet that arrives
      finds a credit of its sender out exactly if it was granted. */
  lemma CreditReturnsForGranted(c: Config, flows: seq<(nat, nat)>, steps: seq<Step>, i: nat, offset: nat)
    requires StateAfter(c, flows, steps).Some? && i < |StateAfter(c, flows, steps).value.msgs|
    requires offset in StateAfter(c, flows, steps).value.msgs[i].data
    ensures var s := StateAfter(c, flows, steps).value;
      var m := s.msgs[i];
      && (ValueAt(s.inUse, m.sender) > 0 ==> s.global > 0)
      && (IsUnmixed(c, flows) ==> (ValueAt(s.inUse, m.sender) > 0 <==> offset >= m.unsched))
  {
    hide StateAfter, Mixed, Owed, MsgOk;
    var s := StateAfter(c, flows, steps).value;
    var m := s.msgs[i];
    ReachableStatesKeepInv(c, flows, steps);
    if ValueAt(s.inUse, m.sender) > 0 {
      PartOfSum(s.inUse, m.sender);
    }
    if IsUnmixed(c, flows) {
      BooksBalanceIffUnmixed(c, flows);
      assert Balanced(StateAfter(c, flows, steps).value, m.sender);
      if offset >= m.unsched {
        ScheduledIsOwed(m, offset);
        PartOfTotal(s.msgs, i, OwedBy(m.sender));
      } else {
        UnaskedFindsNone(c, flows, steps, i, offset);
      }
    }
  }

  lemma ScheduledIsOwed(m: Msg, offset: nat)
    requires MsgOk(m) && offset in m.data && offset >= m.unsched
    ensures Owed(m) > 0
  {
    assert offset in Missing(m.unsched, Granted(m), m.received);
  }

  lemma UnaskedFindsNone(c: Config, flows: seq<(nat, nat)>, steps: seq<Step>, i: nat, offset: nat)
    requires StateAfter(c, flows, steps).Some? && i < |StateAfter(c, flows, steps).value.msgs|
    requires offset in StateAfter(c, flows, steps).value.msgs[i].data && IsUnmixed(c, flows)
    requires offset < StateAfter(c, flows, steps).value.msgs[i].unsched
    ensures var s := StateAfter(c, flows, steps).value; ValueAt(s.inUse, s.msgs[i].sender) == 0
  {
    hide StateAfter, Owed, Mixed, MsgOk, LoneMsgOk;
    var s := StateAfter(c, flows, steps).value;
    var sender := s.msgs[i].sender;
    ReachableStatesKeepInv(c, flows, steps);
    FlowsStay(c, flows, steps);
    if c.overcommit == 0 {
      NothingIsGranted(c, flows, steps);
      AllOweNothing(c, s, sender);
    } else if j :| 0 <= j < |flows| && flows[j].0 == sender && Unscheduled(c, flows[j].1) < flows[j].1 {
      LoneOfUnmixed(c, flows, i, j);
      LoneStays(c, flows, steps, i);
      LoneFirstIsUnpaid(s.msgs[i], ValueAt(s.inUse, sender), offset);
    } else {
      AllOweNothing(c, s, sender);
    }
  }

  lemma LoneFirstIsUnpaid(m: Msg, inUse: nat, offset: nat)
    requires MsgOk(m) && LoneMsgOk(m, inUse) && m.unsched == 1 && offset in m.data && offset == 0
    ensures inUse == 0
  {
    LoneFirstPacket(m, offset);
  }

  lemma AllOweNothing(c: Config, s: State, sender: nat)
    requires Inv(c, s)
    requires forall k :: 0 <= k < |s.msgs| && s.msgs[k].sender == sender ==>
                           Granted(s.msgs[k]) == s.msgs[k].unsched || s.msgs[k].unsched == s.msgs[k].size
    ensures ValueAt(s.inUse, sender) == 0
  {
    hide Owed, MsgOk, Granted;
    forall k | 0 <= k < |s.msgs| && s.msgs[k].sender == sender ensures Owed(s.msgs[k]) == 0 {
      OwesNothing(s.msgs[k]);
    }
    TotalZero(s.msgs, OwedBy(sender));
    assert SenderCounterOk(c, s, sender);
  }

  // ----- where runs end -----

  /** Nothing is possible any more but a busy report. */
  ghost predicate IsFinal(c: Config, s: State) {
    forall step :: Enabled(c, s, step) ==> step.HearBusy?
  }

  /** Granted packets that will not arrive: lost ones, and ones whose grant is lost for good. */
  ghost function ForfeitedPackets(m: Msg): set<nat> {
    set o: nat | m.unsched <= o < Granted(m) && (o in m.lost || o >= Window(m))
  }

  ghost function Forfeited(m: Msg): nat {
    |ForfeitedPackets(m)|
  }

  ghost function ForfeitedBy(sender: nat): Msg -> nat {
    (m: Msg) => if m.sender == sender then Forfeited(m) else 0
  }

  lemma FinalMsg(c: Config, s: State, i: nat)
    requires Inv(c, s) && IsFinal(c, s) && i < |s.msgs|
    ensures var m := s.msgs[i];
      && MsgOk(m) && m.grants == {} && m.data == {} && m.next == Window(m)
      && (m.request == NotNeeded || m.request == Arrived || m.request == Dropped)
  {
    var m := s.msgs[i];
    assert MsgOk(m);
    assert !Enabled(c, s, Send(i)) && !Enabled(c, s, SendRequest(i)) && !Enabled(c, s, DeliverRequest(i, 0, 1));
    if offset :| offset in m.grants {
      assert Enabled(c, s, LoseGrant(i, offset));
    }
    if offset :| offset in m.data {
      assert Enabled(c, s, LoseData(i, offset));
    }
  }

  lemma FinalOwes(m: Msg)
    requires MsgOk(m) && m.data == {} && m.next == Window(m)
    ensures Owed(m) == Forfeited(m)
  {
    assert Missing(m.unsched, Granted(m), m.received) == ForfeitedPackets(m);
  }

  lemma FinalCosts(c: Config, s: State, sender: nat, i: nat)
    requires Inv(c, s) && IsFinal(c, s) && i < |s.msgs|
    ensures ValueAt(s.inUse, sender) <= Total(s.msgs, ForfeitedBy(sender))
    ensures Balanced(s, sender) ==> ValueAt(s.inUse, sender) == Total(s.msgs, ForfeitedBy(sender))
    ensures c.overcommit > 0 && s.msgs[i].known && !IsFullyReceived(s.msgs[i]) ==>
      IsFullyGranted(s.msgs[i]) || s.global == GlobalBudget(c) || s.msgs[i].sender in s.busy
      || BudgetOf(c, s, s.msgs[i].sender) <= ValueAt(s.inUse, s.msgs[i].sender)
  {
    hide Owed, Forfeited, MsgOk, IsFullyReceived, IsFullyGranted;
    forall k | 0 <= k < |s.msgs| ensures Owed(s.msgs[k]) == Forfeited(s.msgs[k]) {
      FinalMsg(c, s, k);
      FinalOwes(s.msgs[k]);
    }
    TotalDominates(s.msgs, OwedBy(sender), ForfeitedBy(sender));
    TotalDominates(s.msgs, ForfeitedBy(sender), OwedBy(sender));
    assert SenderCounterOk(c, s, sender);
    assert !Enabled(c, s, Tick);
    if c.overcommit > 0 && IsActive(s.msgs[i]) {
      var k :| 0 <= k < |s.order| && s.order[k] == i;
      assert !Eligible(c, s, s.order[k]);
    }
  }

  /** When nothing more can happen, a sender's credit in use is at most what its messages have forfeited,
      and exactly that where its books balance; and every message that the receiver knows is complete,
      fully granted, starved of credit, or of a sender that has reported to be busy and from which nothing
      has arrived since. */
  lemma WhatLossCosts(c: Config, flows: seq<(nat, nat)>, steps: seq<Step>, sender: nat, i: nat)
    requires StateAfter(c, flows, steps).Some? && IsFinal(c, StateAfter(c, flows, steps).value) && i < |flows|
    ensures var s := StateAfter(c, flows, steps).value;
      && ValueAt(s.inUse, sender) <= Total(s.msgs, ForfeitedBy(sender))
      && (Balanced(s, sender) ==> ValueAt(s.inUse, sender) == Total(s.msgs, ForfeitedBy(sender)))
      && |s.msgs| == |flows|
      && (c.overcommit > 0 && s.msgs[i].known && !IsFullyReceived(s.msgs[i]) ==>
            || Granted(s.msgs[i]) >= s.msgs[i].size || s.global >= (if c.creditBudget > 1 then c.creditBudget else 1)
            || BudgetOf(c, s, flows[i].0) <= ValueAt(s.inUse, flows[i].0)
            || exists k: nat :: BusyFrom(flows, steps, flows[i].0, k))
  {
    hide StateAfter, IsFinal, Inv, Owed, Forfeited, IsFullyReceived, MsgOk, BudgetOf;
    ReachableStatesKeepInv(c, flows, steps);
    FlowsStay(c, flows, steps);
    var s := StateAfter(c, flows, steps).value;
    FinalCosts(c, s, sender, i);
    BusyIffNotHeardSince(c, flows, steps, s.msgs[i].sender);
    assert SameFlow(c, s.msgs[i], flows[i]);
    if IsFullyGranted(s.msgs[i]) {
      FullyGranted(s.msgs[i]);
    }
  }

  lemma FullyGranted(m: Msg)
    requires IsFullyGranted(m)
    ensures Granted(m) >= m.size
  {
  }

  // ----- when nothing is lost -----

  predicate IsLoss(step: Step) {
    step.LoseRequest? || step.LoseGrant? || step.LoseData?
  }

  /** Nothing is lost; senders may report to be busy. */
  ghost predicate Undisturbed(steps: seq<Step>) {
    forall k :: 0 <= k < |steps| ==> !IsLoss(steps[k])
  }

  /** The latest grant has been taken or is under way. */
  ghost predicate MsgLossless(m: Msg) {
    m.lost == {} && m.request != Dropped && (Window(m) == Granted(m) || Granted(m) - 1 in m.grants)
  }

  ghost predicate AllLossless(s: State) {
    forall i :: 0 <= i < |s.msgs| ==> MsgLossless(s.msgs[i])
  }

  lemma {:induction false} RoundKeepsLossless(c: Config, s: State, k: nat, due: nat, granted: set<nat>)
    requires RoundInv(c, s) && AllLossless(s)
    ensures AllLossless(SendGrantsFrom(c, s, k, due, granted).0)
    decreases |s.order| - k
  {
    hide RoundInv, TryGrant, MsgOk, Eligible, MsgLossless;
    if k < |s.order| && s.order[k] < |s.msgs| {
      var i := s.order[k];
      if due == 0 || s.msgs[i].sender in granted {
        RoundKeepsLossless(c, s, k + 1, due, granted);
      } else {
        OrderIsKnown(c, s, k);
        GrantKeepsRoundInv(c, s, i);
        GrantKeepsLossless(c, s, i);
        var (t, issued) := TryGrant(c, s, i);
        if issued {
          RoundKeepsLossless(c, t, k + 1, due - 1, granted + {s.msgs[i].sender});
        } else {
          RoundKeepsLossless(c, t, k + 1, due, granted);
        }
      }
    }
  }

  lemma GrantKeepsLossless(c: Config, s: State, i: nat)
    requires i < |s.msgs| && MsgOk(s.msgs[i]) && s.msgs[i].known && AllLossless(s)
    ensures AllLossless(TryGrant(c, s, i).0)
  {
    hide TryGrant;
    GrantIsTried(c, s, i);
  }

  lemma MsgStepKeepsLossless(m: Msg, step: Step)
    requires MsgOk(m) && MsgLossless(m) && MsgEnabled(m, step)
    requires !IsLoss(step)
    ensures MsgLossless(MsgAfter(m, step))
  {
    if step.DeliverGrant? {
      GrantIsTaken(m, step.offset);
    } else if step.DeliverData? {
      KnownMsg(m);
    }
  }

  lemma StepKeepsLossless(c: Config, s: State, step: Step)
    requires Inv(c, s) && AllLossless(s) && Enabled(c, s, step) && !IsLoss(step)
    ensures AllLossless(Apply(c, s, step))
  {
    hide MsgOk, MsgAfter, MsgEnabled, MsgLossless, SendGrantsFrom, HasGrantOpportunity, Reschedule;
    if step.Tick? {
      RoundKeepsLossless(c, s, 0, c.overcommit, {});
    } else if step.HearBusy? {
      BusyKeepsMsgs(c, s, step);
    } else {
      StepTouchesOne(c, s, step);
      MsgStepKeepsLossless(s.msgs[step.i], step);
    }
  }

  lemma NewIsLossless(c: Config, flows: seq<(nat, nat)>)
    ensures AllLossless(Initial(c, flows))
  {
  }

  lemma {:induction false} UndisturbedRunsKeep(c: Config, flows: seq<(nat, nat)>, steps: seq<Step>)
    requires StateAfter(c, flows, steps).Some? && Undisturbed(steps)
    ensures AllLossless(StateAfter(c, flows, steps).value)
    decreases |steps|
  {
    hide AllLossless, Enabled, Apply, Initial;
    if steps == [] {
      NewIsLossless(c, flows);
    } else {
      var before := steps[..|steps| - 1];
      UndisturbedRunsKeep(c, flows, before);
      ReachableStatesKeepInv(c, flows, before);
      StepKeepsLossless(c, StateAfter(c, flows, before).value, steps[|steps| - 1]);
    }
  }

  ghost predicate AllUnasked(c: Config, flows: seq<(nat, nat)>) {
    forall i :: 0 <= i < |flows| ==> Unscheduled(c, flows[i].1) == flows[i].1
  }

  /** Each sender that has reported to be busy has been heard from since. */
  ghost predicate AllHeardAgain(flows: seq<(nat, nat)>, steps: seq<Step>) {
    forall sender: nat, k: nat :: !BusyFrom(flows, steps, sender, k)
  }

  /** A run that loses nothing and cannot go on has all credit back, whoever reported to be busy; with grants
      allowed, a message that is not complete is of a sender that reported so and has not been heard from
      since. If all were heard from again, every packet of every message has been delivered exactly when
      the overcommitment level lets any grant out or no message needs one. With SirdProgress.RunsAreBounded,
      every run that loses nothing gets there. */
  lemma UndisturbedRunsDeliver(c: Config, flows: seq<(nat, nat)>, steps: seq<Step>)
    requires StateAfter(c, flows, steps).Some? && Undisturbed(steps)
    requires IsFinal(c, StateAfter(c, flows, steps).value)
    ensures var s := StateAfter(c, flows, steps).value;
      && |s.msgs| == |flows| && s.global == 0
      && (c.overcommit > 0 ==>
            forall i :: 0 <= i < |flows| && !IsFullyReceived(s.msgs[i]) ==>
                          exists k: nat :: BusyFrom(flows, steps, flows[i].0, k))
      && (AllHeardAgain(flows, steps) ==>
            && ((forall i :: 0 <= i < |s.msgs| ==> IsFullyReceived(s.msgs[i])) <==>
                c.overcommit > 0 || AllUnasked(c, flows))
            && (c.overcommit > 0 ==> s.order == []))
  {
    hide StateAfter, IsFullyReceived, IsFinal, Inv, AllLossless, Unscheduled, MsgOk;
    var s := StateAfter(c, flows, steps).value;
    ReachableStatesKeepInv(c, flows, steps);
    FlowsStay(c, flows, steps);
    UndisturbedRunsKeep(c, flows, steps);
    NothingIsOut(c, s);
    if c.overcommit > 0 {
      FinalIsDelivered(c, s);
      forall i | 0 <= i < |flows| && !IsFullyReceived(s.msgs[i])
        ensures exists k: nat :: BusyFrom(flows, steps, flows[i].0, k)
      {
        assert SameFlow(c, s.msgs[i], flows[i]);
        BusyIffNotHeardSince(c, flows, steps, flows[i].0);
      }
      if s.order != [] {
        ListedIsUnfinished(c, s, s.order[0]);
      }
    } else {
      NothingIsGranted(c, flows, steps);
      forall i | 0 <= i < |s.msgs|
        ensures IsFullyReceived(s.msgs[i]) <==> Unscheduled(c, flows[i].1) == flows[i].1
      {
        FinalReceived(c, s, i);
      }
    }
  }

  lemma ListedIsUnfinished(c: Config, s: State, i: nat)
    requires Inv(c, s) && i in s.order
    ensures i < |s.msgs| && !IsFullyReceived(s.msgs[i])
  {
  }

  /** In the end what was granted, and only that, has arrived. */
  lemma FinalReceived(c: Config, s: State, i: nat)
    requires Inv(c, s) && IsFinal(c, s) && AllLossless(s) && i < |s.msgs|
    ensures var m := s.msgs[i];
      && MsgOk(m) && Owed(m) == 0 && (IsFullyReceived(m) <==> Granted(m) == m.size)
      && (!m.known ==> m.size == 0)
  {
    FinalMsg(c, s, i);
    var m := s.msgs[i];
    assert MsgLossless(m);
    assert Missing(m.unsched, Granted(m), m.received) == {};
    if Granted(m) < m.size {
      assert Granted(m) !in m.received;
    }
    assert m.next > 0 ==> 0 in m.received;
  }

  lemma NothingIsOut(c: Config, s: State)
    requires Inv(c, s) && IsFinal(c, s) && AllLossless(s)
    ensures s.global == 0 && forall sender: nat :: ValueAt(s.inUse, sender) == 0
  {
    hide Owed, MsgOk, IsFinal, AllLossless, IsFullyReceived, Granted;
    forall sender: nat ensures ValueAt(s.inUse, sender) == 0 {
      forall i | 0 <= i < |s.msgs| ensures Owed(s.msgs[i]) == 0 {
        FinalReceived(c, s, i);
      }
      TotalZero(s.msgs, OwedBy(sender));
      assert SenderCounterOk(c, s, sender);
    }
    AllZero(s.inUse);
  }

  lemma AllZero(m: map<nat, nat>)
    requires forall k: nat :: ValueAt(m, k) == 0
    ensures SumOf(m) == 0
  {
    assert forall k :: k in m ==> m[k] == ValueAt(m, k);
    SumWithoutZeros(m, map[]);
  }

  lemma FinalIsDelivered(c: Config, s: State)
    requires Inv(c, s) && c.overcommit > 0 && IsFinal(c, s) && AllLossless(s)
    ensures forall i :: 0 <= i < |s.msgs| && !IsFullyReceived(s.msgs[i]) ==> s.msgs[i].sender in s.busy
  {
    hide Owed, MsgOk, MsgLossless, IsFullyReceived, Granted, CountersOk;
    NothingIsOut(c, s);
    NobodyIsEligible(c, s);
    forall i | 0 <= i < |s.msgs| && !IsFullyReceived(s.msgs[i]) ensures s.msgs[i].sender in s.busy {
      FinalReceived(c, s, i);
      if IsActive(s.msgs[i]) {
        UnfinishedIsEligible(c, s, i);
      } else {
        NoPackets(s.msgs[i]);
      }
    }
  }

  lemma NobodyIsEligible(c: Config, s: State)
    requires Inv(c, s) && c.overcommit > 0 && IsFinal(c, s) && s.global == 0
    ensures forall i :: 0 <= i < |s.msgs| && i in s.order ==> !Eligible(c, s, i)
  {
    hide Eligible;
    assert !Enabled(c, s, Tick);
  }

  lemma NoPackets(m: Msg)
    requires m.size == 0
    ensures IsFullyReceived(m)
  {
  }

  lemma UnfinishedIsEligible(c: Config, s: State, i: nat)
    requires Inv(c, s) && IsFinal(c, s) && AllLossless(s) && i < |s.msgs| && IsActive(s.msgs[i])
    ensures Eligible(c, s, i) <==> s.msgs[i].sender !in s.busy
  {
    hide IsFinal, CountersOk;
    FinalReceived(c, s, i);
    NothingIsOut(c, s);
    BudgetIsPositive(c, s, s.msgs[i].sender);
  }

  lemma BudgetIsPositive(c: Config, s: State, sender: nat)
    requires CountersOk(c, s)
    ensures BudgetOf(c, s, sender) >= 1
  {
    assert SenderCounterOk(c, s, sender);
  }

  // ----- there is always a way to go on -----

  /** The network is free: a request, grant or packet under way may arrive now or be lost, an arrival may move
      its message to any position and bring any budget in range, and any sender may report to be busy. */
  lemma AnythingMayHappen(c: Config, s: State, i: nat, offset: nat, position: nat, budget: nat)
    requires i < |s.msgs| && 1 <= budget <= (if c.bdp > 1 then c.bdp else 1)
    ensures s.msgs[i].request == InFlight ==>
              Enabled(c, s, DeliverRequest(i, position, budget)) && Enabled(c, s, LoseRequest(i))
    ensures offset in s.msgs[i].grants ==> Enabled(c, s, DeliverGrant(i, offset)) && Enabled(c, s, LoseGrant(i, offset))
    ensures offset in s.msgs[i].data ==>
              Enabled(c, s, DeliverData(i, offset, position, budget)) && Enabled(c, s, LoseData(i, offset))
    ensures forall sender: nat :: Enabled(c, s, HearBusy(sender))
  {
  }

  /** A step that is neither a loss nor a busy report. */
  predicate IsProgress(step: Step) {
    !IsLoss(step) && !step.HearBusy?
  }

  /** What can be lost can also arrive. */
  lemma ProgressIsPossible(c: Config, s: State) returns (step: Step)
    requires Inv(c, s) && !IsFinal(c, s)
    ensures Enabled(c, s, step) && IsProgress(step)
  {
    hide Inv, CanSend;
    step :| Enabled(c, s, step) && !step.HearBusy?;
    if step.LoseRequest? {
      step := DeliverRequest(step.i, 0, SenderBudget(c));
    } else if step.LoseGrant? {
      step := DeliverGrant(step.i, step.offset);
    } else if step.LoseData? {
      step := DeliverData(step.i, step.offset, 0, SenderBudget(c));
    }
  }

  /** Every run can be carried on to the end without a loss or a busy report. */
  lemma {:induction false} EveryRunCanFinish(c: Config, flows: seq<(nat, nat)>, steps: seq<Step>)
    returns (more: seq<Step>)
    requires StateAfter(c, flows, steps).Some?
    ensures steps <= more && StateAfter(c, flows, more).Some? && IsFinal(c, StateAfter(c, flows, more).value)
    ensures forall k :: |steps| <= k < |more| ==> IsProgress(more[k])
    decreases Remaining(StateAfter(c, flows, steps).value)
  {
    hide StateAfter, Inv, IsFinal, Enabled, Apply, Remaining;
    ReachableStatesKeepInv(c, flows, steps);
    var s := StateAfter(c, flows, steps).value;
    if IsFinal(c, s) {
      more := steps;
    } else {
      var step := ProgressIsPossible(c, s);
      Extend(c, flows, steps, step);
      StepLowersRemaining(c, s, step);
      more := EveryRunCanFinish(c, flows, steps + [step]);
      assert steps <= steps + [step] <= more && more[|steps|] == step;
    }
  }

  /** As long as nothing has been lost, every message can still be delivered whole, if its sender is not
      listed as busy and grants are allowed. */
  lemma EveryMessageCanArrive(c: Config, flows: seq<(nat, nat)>, steps: seq<Step>) returns (more: seq<Step>)
    requires StateAfter(c, flows, steps).Some? && Undisturbed(steps) && AllHeardAgain(flows, steps)
    requires c.overcommit > 0 || AllUnasked(c, flows)
    ensures steps <= more && StateAfter(c, flows, more).Some?
    ensures forall i :: 0 <= i < |flows| ==>
                          && i < |StateAfter(c, flows, more).value.msgs|
                          && IsFullyReceived(StateAfter(c, flows, more).value.msgs[i])
  {
    hide StateAfter, IsFinal, IsFullyReceived, HeardFrom;
    more := EveryRunCanFinish(c, flows, steps);
    forall sender: nat, k: nat ensures !BusyFrom(flows, more, sender, k) {
      assert BusyFrom(flows, more, sender, k) ==> k < |steps| && BusyFrom(flows, steps, sender, k);
    }
    UndisturbedRunsDeliver(c, flows, more);
  }
}
