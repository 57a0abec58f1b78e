/** When the receiver's credit counters say what is owed. Every arriving data packet returns a credit
    of its sender, also one that was sent unasked; so the counters are right in every reachable
    state exactly when no sender mixes packets of the two kinds, or nothing is ever granted. */
module SirdBooks {
  import opened MapSums
  import opened SeqSums
  import opened SirdCredit
  import opened SirdProtocol
  import opened Wrappers

  ghost predicate Balanced(s: State, sender: nat) {
    ValueAt(s.inUse, sender) == Total(s.msgs, OwedBy(sender))
  }

  ghost predicate AlwaysBalanced(c: Config, flows: seq<(nat, nat)>) {
    forall steps, sender: nat {:trigger Balanced(StateAfter(c, flows, steps).value, sender)} ::
      StateAfter(c, flows, steps).Some? ==> Balanced(StateAfter(c, flows, steps).value, sender)
  }

  /** Flow j can hold a credit while a packet of flow i that was sent unasked arrives: they are two
      messages of one sender, or one message that is sent unasked for two packets or more. */
  predicate Clash(c: Config, flows: seq<(nat, nat)>, i: nat, j: nat) {
    && i < |flows| && j < |flows| && flows[i].0 == flows[j].0
    && Unscheduled(c, flows[i].1) > 0 && Unscheduled(c, flows[j].1) < flows[j].1
    && (i != j || c.bdp >= 2)
  }

  ghost predicate Mixed(c: Config, flows: seq<(nat, nat)>) {
    exists i, j :: Clash(c, flows, i, j)
  }

  // ----- what never changes -----

  ghost predicate SameFlow(c: Config, m: Msg, flow: (nat, nat)) {
    m.sender == flow.0 && m.size == flow.1 && m.unsched == Unscheduled(c, flow.1)
  }

  ghost predicate SameFlows(c: Config, s: State, flows: seq<(nat, nat)>) {
    |s.msgs| == |flows| && forall i :: 0 <= i < |flows| ==> SameFlow(c, s.msgs[i], flows[i])
  }

  lemma MsgStepKeepsFlow(m: Msg, step: Step)
    ensures var n := MsgAfter(m, step); n.sender == m.sender && n.size == m.size && n.unsched == m.unsched
  {
  }

  lemma {:induction false} RoundKeepsFlows(c: Config, s: State, k: nat, due: nat, granted: set<nat>,
                                           flows: seq<(nat, nat)>)
    requires RoundInv(c, s) && SameFlows(c, s, flows)
    ensures SameFlows(c, SendGrantsFrom(c, s, k, due, granted).0, flows)
    decreases |s.order| - k
  {
    hide RoundInv, TryGrant, MsgOk;
    if k < |s.order| && s.order[k] < |s.msgs| {
      if due == 0 || s.msgs[s.order[k]].sender in granted {
        RoundKeepsFlows(c, s, k + 1, due, granted, flows);
      } else {
        var (t, issued) := TryGrant(c, s, s.order[k]);
        OrderIsKnown(c, s, k);
        GrantIsTried(c, s, s.order[k]);
        GrantKeepsRoundInv(c, s, s.order[k]);
        if issued {
          RoundKeepsFlows(c, t, k + 1, due - 1, granted + {s.msgs[s.order[k]].sender}, flows);
        } else {
          RoundKeepsFlows(c, t, k + 1, due, granted, flows);
        }
      }
    }
  }

  lemma StepKeepsFlows(c: Config, s: State, step: Step, flows: seq<(nat, nat)>)
    requires Inv(c, s) && Enabled(c, s, step) && SameFlows(c, s, flows)
    ensures SameFlows(c, Apply(c, s, step), flows)
  {
    hide MsgAfter, MsgEnabled, MsgOk, SendGrantsFrom, HasGrantOpportunity;
    if step.Tick? {
      RoundKeepsFlows(c, s, 0, c.overcommit, {}, flows);
    } else if IsAboutMsg(step) {
      StepTouchesOne(c, s, step);
      MsgStepKeepsFlow(s.msgs[step.i], step);
    }
  }

  lemma {:induction false} FlowsStay(c: Config, flows: seq<(nat, nat)>, steps: seq<Step>)
    requires StateAfter(c, flows, steps).Some?
    ensures SameFlows(c, StateAfter(c, flows, steps).value, flows)
    decreases |steps|
  {
    if steps == [] {
    } else {
      hide SameFlows, Apply, Enabled;
      var before := steps[..|steps| - 1];
      FlowsStay(c, flows, before);
      ReachableStatesKeepInv(c, flows, before);
      StepKeepsFlows(c, StateAfter(c, flows, before).value, steps[|steps| - 1], flows);
    }
  }

  // ----- with an overcommitment level of zero, which the attribute allows, nothing is ever granted -----

  lemma {:induction false} NoneDue(c: Config, s: State, k: nat, granted: set<nat>)
    ensures SendGrantsFrom(c, s, k, 0, granted) == (s, false)
    decreases |s.order| - k
  {
    if k < |s.order| {
      NoneDue(c, s, k + 1, granted);
    }
  }

  ghost predicate NothingGranted(s: State) {
    forall i :: 0 <= i < |s.msgs| ==> Granted(s.msgs[i]) == s.msgs[i].unsched
  }

  lemma StillUngranted(m: Msg, step: Step)
    requires Granted(m) == m.unsched
    ensures Granted(MsgAfter(m, step)) == MsgAfter(m, step).unsched
  {
  }

  lemma {:induction false} NothingIsGranted(c: Config, flows: seq<(nat, nat)>, steps: seq<Step>)
    requires StateAfter(c, flows, steps).Some? && c.overcommit == 0
    ensures NothingGranted(StateAfter(c, flows, steps).value)
    decreases |steps|
  {
    if steps == [] {
    } else {
      hide SendGrantsFrom, MsgAfter, MsgEnabled, Granted, HasGrantOpportunity;
      var before, step := steps[..|steps| - 1], steps[|steps| - 1];
      NothingIsGranted(c, flows, before);
      var s := StateAfter(c, flows, before).value;
      if step.Tick? {
        NoneDue(c, s, 0, {});
      } else if IsAboutMsg(step) {
        StepTouchesOne(c, s, step);
        StillUngranted(s.msgs[step.i], step);
      }
    }
  }

  // ----- senders that do not mix -----

  lemma OwesNothing(m: Msg)
    requires MsgOk(m) && (Granted(m) == m.unsched || m.unsched == m.size)
    ensures Owed(m) == 0
  {
    assert Missing(m.unsched, Granted(m), m.received) == {};
  }

  lemma NothingOwedIsBalanced(c: Config, s: State, sender: nat)
    requires Inv(c, s)
    requires forall i :: 0 <= i < |s.msgs| && s.msgs[i].sender == sender ==> Owed(s.msgs[i]) == 0
    ensures Balanced(s, sender)
  {
    hide Owed;
    assert SenderCounterOk(c, s, sender);
    TotalZero(s.msgs, OwedBy(sender));
  }

  /** No packet of the sender is sent unasked. */
  lemma AllGrantedIsBalanced(c: Config, s: State, sender: nat)
    requires Inv(c, s)
    requires forall i :: 0 <= i < |s.msgs| && s.msgs[i].sender == sender ==> s.msgs[i].unsched == 0
    ensures Balanced(s, sender)
  {
    hide Owed;
    assert SenderCounterOk(c, s, sender);
    TotalZero(s.msgs, LeakBy(sender));
    TotalDominates(s.msgs, OwedBy(sender), DueBy(sender));
  }

  /** One message of which one packet is sent unasked, and none other with any packet. */
  ghost predicate IsLone(c: Config, flows: seq<(nat, nat)>, i: nat) {
    && c.bdp == 1 && i < |flows| && Unscheduled(c, flows[i].1) == 1
    && forall k :: 0 <= k < |flows| && k != i && flows[k].0 == flows[i].0 ==> flows[k].1 == 0
  }

  /** Its credit is out or the next grant exposes one packet; and the first packet made it known. */
  ghost predicate LoneMsgOk(m: Msg, inUse: nat) {
    && inUse == Owed(m)
    && (m.known ==> 0 in m.received && m.grantableIdx + Owed(m) <= m.grantedIdx + 1)
  }

  ghost predicate LoneOk(s: State, i: nat)
    requires i < |s.msgs|
  {
    LoneMsgOk(s.msgs[i], ValueAt(s.inUse, s.msgs[i].sender))
  }

  lemma LoneTakesData(m: Msg, inUse: nat, offset: nat)
    requires MsgOk(m) && m.unsched == 1 && offset in m.data && LoneMsgOk(m, inUse) && inUse <= 1
    ensures LoneMsgOk(TakeData(m, offset), if inUse > 0 then inUse - 1 else 0)
  {
    hide Owed;
    DataIsTaken(m, offset);
    LoneFirstPacket(m, offset);
  }

  lemma LoneFirstPacket(m: Msg, offset: nat)
    requires MsgOk(m) && m.unsched == 1 && offset in m.data
    ensures !m.known ==> offset == 0 && Owed(m) == 0
    ensures m.known && 0 in m.received ==> offset > 0
  {
    if !m.known {
      OwesNothing(m);
    }
  }

  lemma LoneIsGranted(c: Config, s: State, i: nat)
    requires RoundInv(c, s) && i < |s.msgs| && s.msgs[i].known && Eligible(c, s, i) && c.bdp == 1
    requires LoneOk(s, i)
    ensures LoneOk(TryGrant(c, s, i).0, i)
  {
    hide Owed, TryGrant, MsgOk;
    GrantIsTried(c, s, i);
    GrantKeepsMsg(c, s, i);
    assert SenderCounterOk(c, s, s.msgs[i].sender);
  }

  lemma LoneRoundStep(c: Config, s: State, flows: seq<(nat, nat)>, i: nat, k: nat)
    requires RoundInv(c, s) && SameFlows(c, s, flows) && IsLone(c, flows, i) && LoneOk(s, i) && k < |s.order|
    ensures s.order[k] < |s.msgs| && LoneOk(TryGrant(c, s, s.order[k]).0, i)
  {
    hide Owed, TryGrant, MsgOk, Eligible, LoneMsgOk;
    OrderIsKnown(c, s, k);
    GrantIsTried(c, s, s.order[k]);
    assert s.order[k] in s.order;
    if Eligible(c, s, s.order[k]) {
      if s.order[k] == i {
        LoneIsGranted(c, s, i);
      } else {
        assert s.msgs[s.order[k]].size > 0;
      }
    }
  }

  lemma {:induction false} RoundKeepsLone(c: Config, s: State, k: nat, due: nat, granted: set<nat>,
                                          flows: seq<(nat, nat)>, i: nat)
    requires RoundInv(c, s) && SameFlows(c, s, flows) && IsLone(c, flows, i) && LoneOk(s, i)
    ensures SameFlows(c, SendGrantsFrom(c, s, k, due, granted).0, flows)
    ensures LoneOk(SendGrantsFrom(c, s, k, due, granted).0, i)
    decreases |s.order| - k
  {
    hide RoundInv, TryGrant, MsgOk, LoneMsgOk, IsLone, Eligible;
    RoundKeepsFlows(c, s, k, due, granted, flows);
    if k < |s.order| && s.order[k] < |s.msgs| {
      if due == 0 || s.msgs[s.order[k]].sender in granted {
        RoundKeepsLone(c, s, k + 1, due, granted, flows, i);
      } else {
        var (t, issued) := TryGrant(c, s, s.order[k]);
        OrderIsKnown(c, s, k);
        GrantIsTried(c, s, s.order[k]);
        GrantKeepsRoundInv(c, s, s.order[k]);
        LoneRoundStep(c, s, flows, i, k);
        if issued {
          RoundKeepsLone(c, t, k + 1, due - 1, granted + {s.msgs[s.order[k]].sender}, flows, i);
        } else {
          RoundKeepsLone(c, t, k + 1, due, granted, flows, i);
        }
      }
    }
  }

  lemma LoneData(c: Config, s: State, step: Step, flows: seq<(nat, nat)>, i: nat)
    requires Inv(c, s) && Enabled(c, s, step) && step.DeliverData?
    requires SameFlows(c, s, flows) && IsLone(c, flows, i) && LoneOk(s, i)
    ensures SameFlows(c, Apply(c, s, step), flows) && LoneOk(Apply(c, s, step), i)
  {
    hide Owed, LoneMsgOk, TakeData, HasGrantOpportunity, Reclaim, IsFullyReceived, Reschedule, RemoveFirst;
    StepKeepsFlows(c, s, step, flows);
    StepTouchesOne(c, s, step);
    ReclaimedCounters(s, s.msgs[step.i].sender);
    assert MsgOk(s.msgs[step.i]);
    assert SenderCounterOk(c, s, s.msgs[i].sender);
    if step.i == i {
      LoneTakesData(s.msgs[i], ValueAt(s.inUse, s.msgs[i].sender), step.offset);
    } else {
      assert s.msgs[step.i].size > 0;
    }
  }

  lemma StepKeepsLone(c: Config, s: State, step: Step, flows: seq<(nat, nat)>, i: nat)
    requires Inv(c, s) && Enabled(c, s, step) && SameFlows(c, s, flows) && IsLone(c, flows, i) && LoneOk(s, i)
    ensures SameFlows(c, Apply(c, s, step), flows) && LoneOk(Apply(c, s, step), i)
  {
    hide MsgOk, SendGrantsFrom, HasGrantOpportunity, MsgEnabled, Reschedule;
    StepKeepsFlows(c, s, step, flows);
    if step.Tick? {
      RoundKeepsLone(c, s, 0, c.overcommit, {}, flows, i);
    } else if step.DeliverData? {
      LoneData(c, s, step, flows, i);
    } else if IsAboutMsg(step) {
      StepTouchesOne(c, s, step);
      LoneQuietStep(s, step, i);
    }
  }

  lemma LoneQuietStep(s: State, step: Step, i: nat)
    requires i < |s.msgs| && MsgsOk(s) && s.msgs[i].unsched > 0 && LoneOk(s, i)
    requires IsAboutMsg(step) && !step.DeliverData? && step.i < |s.msgs| && MsgEnabled(s.msgs[step.i], step)
    ensures LoneMsgOk(s.msgs[step.i := MsgAfter(s.msgs[step.i], step)][i], ValueAt(s.inUse, s.msgs[i].sender))
  {
    if step.i == i {
      assert MsgOk(s.msgs[i]);
      QuietMsgStep(s.msgs[i], step);
    }
  }

  lemma {:induction false} LoneStays(c: Config, flows: seq<(nat, nat)>, steps: seq<Step>, i: nat)
    requires StateAfter(c, flows, steps).Some? && IsLone(c, flows, i)
    ensures SameFlows(c, StateAfter(c, flows, steps).value, flows) && LoneOk(StateAfter(c, flows, steps).value, i)
    decreases |steps|
  {
    if steps == [] {
      NewMsgIsOk(c, flows[i].0, flows[i].1);
    } else {
      hide SameFlow, LoneMsgOk, Apply, Enabled, IsLone;
      var before := steps[..|steps| - 1];
      LoneStays(c, flows, before, i);
      ReachableStatesKeepInv(c, flows, before);
      StepKeepsLone(c, StateAfter(c, flows, before).value, steps[|steps| - 1], flows, i);
    }
  }

  lemma LoneIsBalanced(c: Config, flows: seq<(nat, nat)>, steps: seq<Step>, i: nat)
    requires StateAfter(c, flows, steps).Some? && IsLone(c, flows, i)
    ensures Balanced(StateAfter(c, flows, steps).value, flows[i].0)
  {
    LoneStays(c, flows, steps, i);
    ReachableStatesKeepInv(c, flows, steps);
    var s := StateAfter(c, flows, steps).value;
    forall k | 0 <= k < |s.msgs| && k != i && s.msgs[k].sender == flows[i].0 ensures Owed(s.msgs[k]) == 0 {
      assert MsgOk(s.msgs[k]);
      OwesNothing(s.msgs[k]);
    }
    OnlyOne(s.msgs, i, OwedBy(flows[i].0));
  }

  lemma {:induction false} OnlyOne(q: seq<Msg>, i: nat, f: Msg -> nat)
    requires i < |q| && forall k :: 0 <= k < |q| && k != i ==> f(q[k]) == 0
    ensures Total(q, f) == f(q[i])
    decreases |q|
  {
    var last := |q| - 1;
    if i == last {
      TotalZero(q[..last], f);
    } else {
      OnlyOne(q[..last], i, f);
    }
  }

  /** A sender with no clash has only granted packets, only packets sent unasked, or one lone message. */
  lemma UnmixedIsBalanced(c: Config, flows: seq<(nat, nat)>, steps: seq<Step>, sender: nat)
    requires StateAfter(c, flows, steps).Some? && !Mixed(c, flows)
    ensures Balanced(StateAfter(c, flows, steps).value, sender)
  {
    hide Balanced, Unscheduled, StateAfter;
    var s := StateAfter(c, flows, steps).value;
    FlowsStay(c, flows, steps);
    ReachableStatesKeepInv(c, flows, steps);
    if i :| 0 <= i < |flows| && flows[i].0 == sender && Unscheduled(c, flows[i].1) > 0 {
      if j :| 0 <= j < |flows| && flows[j].0 == sender && Unscheduled(c, flows[j].1) < flows[j].1 {
        LoneOfUnmixed(c, flows, i, j);
        LoneIsBalanced(c, flows, steps, i);
      } else {
        forall k | 0 <= k < |s.msgs| && s.msgs[k].sender == sender ensures Owed(s.msgs[k]) == 0 {
          assert MsgOk(s.msgs[k]);
          OwesNothing(s.msgs[k]);
        }
        NothingOwedIsBalanced(c, s, sender);
      }
    } else {
      AllGrantedIsBalanced(c, s, sender);
    }
  }

  lemma LoneOfUnmixed(c: Config, flows: seq<(nat, nat)>, i: nat, j: nat)
    requires !Mixed(c, flows) && i < |flows| && j < |flows| && flows[i].0 == flows[j].0
    requires Unscheduled(c, flows[i].1) > 0 && Unscheduled(c, flows[j].1) < flows[j].1
    ensures IsLone(c, flows, i)
  {
    assert !Clash(c, flows, i, j);
    forall k | 0 <= k < |flows| && k != i && flows[k].0 == flows[i].0 ensures flows[k].1 == 0 {
      assert !Clash(c, flows, i, k) && !Clash(c, flows, k, i);
    }
  }

  // ----- senders that do -----

  /** Where a sender has a credit out and a packet to send that needs none, sending and delivering that
      packet puts the books out, unless they were already. */
  lemma UnaskedPacketUnbalances(c: Config, s: State, i: nat)
    requires Inv(c, s) && i < |s.msgs| && CanSend(s.msgs[i]) && s.msgs[i].next < s.msgs[i].unsched
    requires Balanced(s, s.msgs[i].sender) && ValueAt(s.inUse, s.msgs[i].sender) > 0
    ensures var m := s.msgs[i];
      var t := Apply(c, s, Send(i));
      && Enabled(c, s, Send(i)) && Enabled(c, t, DeliverData(i, m.next, 0, SenderBudget(c)))
      && !Balanced(Apply(c, t, DeliverData(i, m.next, 0, SenderBudget(c))), m.sender)
  {
    hide Owed, Slack, Leak, Total, TakeData, HasGrantOpportunity, IsFullyReceived, Reschedule, RemoveFirst, Reclaim;
    var m := s.msgs[i];
    var t := Apply(c, s, Send(i));
    var step := DeliverData(i, m.next, 0, SenderBudget(c));
    assert MsgOk(m);
    PacketIsSent(m);
    SameOwed(m, SendNext(m));
    TotalsMove(s, i, SendNext(m), m.sender);
    StepKeepsInv(c, s, Send(i));
    StepTouchesOne(c, t, step);
    DataIsTaken(t.msgs[i], m.next);
    TotalsMove(t, i, TakeData(t.msgs[i], m.next), m.sender);
    ReclaimedCounters(t, m.sender);
  }

  lemma SameOwed(m: Msg, n: Msg)
    requires SameAtReceiver(m, n)
    ensures Owed(n) == Owed(m)
  {
  }

  lemma Extend(c: Config, flows: seq<(nat, nat)>, steps: seq<Step>, step: Step)
    requires StateAfter(c, flows, steps).Some? && Enabled(c, StateAfter(c, flows, steps).value, step)
    ensures StateAfter(c, flows, steps + [step]) == Some(Apply(c, StateAfter(c, flows, steps).value, step))
  {
    assert (steps + [step])[..|steps|] == steps;
  }

  /** Flow j alone is known, and may be granted. */
  ghost predicate Announced(c: Config, flows: seq<(nat, nat)>, j: nat, s: State) {
    && |s.msgs| == |flows| && j < |flows| && s.order == [j] && s.busy == {} && s.inUse == map[] && s.global == 0
    && (forall k :: 0 <= k < |flows| && k != j ==> s.msgs[k] == NewMsg(c, flows[k].0, flows[k].1))
    && s.msgs[j].known && s.msgs[j].sender == flows[j].0 && s.msgs[j].unsched == Unscheduled(c, flows[j].1)
    && !IsFullyGranted(s.msgs[j]) && 1 <= BudgetOf(c, s, flows[j].0)
    && s.msgs[j].next <= 1 && (s.msgs[j].unsched > 1 ==> CanSend(s.msgs[j]))
  }

  lemma AnnounceLong(c: Config, flows: seq<(nat, nat)>, j: nat) returns (steps: seq<Step>)
    requires j < |flows| && IsLong(c, flows[j].1)
    ensures StateAfter(c, flows, steps).Some? && Announced(c, flows, j, StateAfter(c, flows, steps).value)
  {
    hide HasGrantOpportunity;
    var s0 := Initial(c, flows);
    assert StateAfter(c, flows, []) == Some(s0);
    Extend(c, flows, [], SendRequest(j));
    var s1 := Apply(c, s0, SendRequest(j));
    Extend(c, flows, [] + [SendRequest(j)], DeliverRequest(j, 0, SenderBudget(c)));
    steps := [] + [SendRequest(j)] + [DeliverRequest(j, 0, SenderBudget(c))];
    assert Reschedule([], j, 0) == [j];
  }

  lemma AnnounceUnasked(c: Config, flows: seq<(nat, nat)>, j: nat) returns (steps: seq<Step>)
    requires j < |flows| && 0 < Unscheduled(c, flows[j].1) < flows[j].1
    ensures StateAfter(c, flows, steps).Some? && Announced(c, flows, j, StateAfter(c, flows, steps).value)
  {
    hide HasGrantOpportunity;
    var s0 := Initial(c, flows);
    assert StateAfter(c, flows, []) == Some(s0);
    Extend(c, flows, [], Send(j));
    var s1 := Apply(c, s0, Send(j));
    Extend(c, flows, [] + [Send(j)], DeliverData(j, 0, 0, SenderBudget(c)));
    steps := [] + [Send(j)] + [DeliverData(j, 0, 0, SenderBudget(c))];
    assert Reschedule([], j, 0) == [j];
    assert !IsFullyReceived(TakeData(s1.msgs[j], 0)) by { assert 1 !in TakeData(s1.msgs[j], 0).received; }
  }

  /** One tick later it holds a credit. */
  lemma AnnouncedIsGranted(c: Config, flows: seq<(nat, nat)>, j: nat, s: State)
    requires Announced(c, flows, j, s) && Inv(c, s) && c.overcommit > 0
    ensures Enabled(c, s, Tick)
    ensures var t := Apply(c, s, Tick);
      && |t.msgs| == |s.msgs| && ValueAt(t.inUse, flows[j].0) > 0
      && (forall k :: 0 <= k < |s.msgs| && k != j ==> t.msgs[k] == s.msgs[k])
      && t.msgs[j].sender == s.msgs[j].sender && t.msgs[j].unsched == s.msgs[j].unsched
      && t.msgs[j].next == s.msgs[j].next && CanSend(t.msgs[j]) == CanSend(s.msgs[j])
  {
    hide MsgOk, TryGrant, CanSend;
    assert Eligible(c, s, s.order[0]);
    OrderIsKnown(c, s, 0);
    GrantIsTried(c, s, j);
    GrantKeepsCanSend(c, s, j);
    var t := TryGrant(c, s, j).0;
    var granted := {} + {s.msgs[j].sender};
    assert SendGrantsFrom(c, s, 0, c.overcommit, {}).0 == SendGrantsFrom(c, t, 1, c.overcommit - 1, granted).0;
    assert SendGrantsFrom(c, t, 1, c.overcommit - 1, granted) == (t, false);
  }

  lemma GrantKeepsCanSend(c: Config, s: State, j: nat)
    requires j < |s.msgs| && MsgOk(s.msgs[j]) && s.msgs[j].known
    ensures j < |TryGrant(c, s, j).0.msgs| && CanSend(TryGrant(c, s, j).0.msgs[j]) == CanSend(s.msgs[j])
  {
    hide TryGrant;
    GrantIsTried(c, s, j);
  }

  lemma MixedIsUnbalanced(c: Config, flows: seq<(nat, nat)>, i: nat, j: nat) returns (steps: seq<Step>)
    requires Clash(c, flows, i, j) && c.overcommit > 0
    ensures StateAfter(c, flows, steps).Some? && !Balanced(StateAfter(c, flows, steps).value, flows[j].0)
  {
    hide Balanced, Announced, Apply, Enabled, Inv;
    if IsLong(c, flows[j].1) {
      steps := AnnounceLong(c, flows, j);
    } else {
      steps := AnnounceUnasked(c, flows, j);
    }
    ReachableStatesKeepInv(c, flows, steps);
    var s := StateAfter(c, flows, steps).value;
    AnnouncedIsGranted(c, flows, j, s);
    Extend(c, flows, steps, Tick);
    steps := steps + [Tick];
    ReachableStatesKeepInv(c, flows, steps);
    var t := StateAfter(c, flows, steps).value;
    if Balanced(t, flows[j].0) {
      UnaskedIsReady(c, flows, i, j, s);
      UnaskedPacketUnbalances(c, t, i);
      Extend(c, flows, steps, Send(i));
      Extend(c, flows, steps + [Send(i)], DeliverData(i, t.msgs[i].next, 0, SenderBudget(c)));
      steps := steps + [Send(i)] + [DeliverData(i, t.msgs[i].next, 0, SenderBudget(c))];
    }
  }

  lemma UnaskedIsReady(c: Config, flows: seq<(nat, nat)>, i: nat, j: nat, s: State)
    requires Clash(c, flows, i, j) && Announced(c, flows, j, s)
    ensures i < |s.msgs| && s.msgs[i].sender == flows[j].0
    ensures CanSend(s.msgs[i]) && s.msgs[i].next < s.msgs[i].unsched
  {
  }

  /** In every reachable state, under any loss and any reordering, each sender's counter says exactly
      what its messages owe, if and only if no sender mixes packets sent unasked with granted ones,
      or the overcommitment level is zero. */
  lemma BooksBalanceIffUnmixed(c: Config, flows: seq<(nat, nat)>)
    ensures AlwaysBalanced(c, flows) <==> c.overcommit == 0 || !Mixed(c, flows)
  {
    hide Balanced, StateAfter, Inv;
    if c.overcommit == 0 || !Mixed(c, flows) {
      forall steps, sender: nat | StateAfter(c, flows, steps).Some?
        ensures Balanced(StateAfter(c, flows, steps).value, sender)
      {
        if c.overcommit == 0 {
          UngrantedIsBalanced(c, flows, steps, sender);
        } else {
          UnmixedIsBalanced(c, flows, steps, sender);
        }
      }
    } else {
      var i, j :| Clash(c, flows, i, j);
      var steps := MixedIsUnbalanced(c, flows, i, j);
    }
  }

  lemma UngrantedIsBalanced(c: Config, flows: seq<(nat, nat)>, steps: seq<Step>, sender: nat)
    requires StateAfter(c, flows, steps).Some? && c.overcommit == 0
    ensures Balanced(StateAfter(c, flows, steps).value, sender)
  {
    hide Balanced, StateAfter, MsgOk;
    NothingIsGranted(c, flows, steps);
    ReachableStatesKeepInv(c, flows, steps);
    var s := StateAfter(c, flows, steps).value;
    forall k | 0 <= k < |s.msgs| ensures Owed(s.msgs[k]) == 0 {
      OwesNothing(s.msgs[k]);
    }
    NothingOwedIsBalanced(c, s, sender);
  }
}
