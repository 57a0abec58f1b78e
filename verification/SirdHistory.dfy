/** What a run of the SIRD loop has done so far decides who counts as busy, which budget a sender has
    and what a message may send. */
module SirdHistory {
  import opened SirdBooks
  import opened SirdCredit
  import opened SirdProgress
  import opened SirdProtocol
  import opened Wrappers

  /** A packet of a message of the sender arrives. */
  predicate HeardFrom(flows: seq<(nat, nat)>, step: Step, sender: nat) {
    (step.DeliverData? || step.DeliverRequest?) && step.i < |flows| && flows[step.i].0 == sender
  }

  /** Step k is the last in which the sender is heard from. */
  ghost predicate LastHeard(flows: seq<(nat, nat)>, steps: seq<Step>, sender: nat, k: nat) {
    && k < |steps| && HeardFrom(flows, steps[k], sender)
    && forall j :: k < j < |steps| ==> !HeardFrom(flows, steps[j], sender)
  }

  /** Step k reports the sender to be busy, and the sender has not been heard from since. */
  ghost predicate BusyFrom(flows: seq<(nat, nat)>, steps: seq<Step>, sender: nat, k: nat) {
    && k < |steps| && steps[k] == HearBusy(sender)
    && forall j :: k < j < |steps| ==> !HeardFrom(flows, steps[j], sender)
  }

  lemma TickKeepsHistory(c: Config, s: State)
    requires Inv(c, s)
    ensures CreditTick(c, s).busy == s.busy && CreditTick(c, s).budgets == s.budgets
  {
    hide Inv, SendGrantsFrom;
    RoundInvOfInv(c, s);
    RoundOnlyGrants(c, s, 0, c.overcommit, {});
  }

  lemma RoundInvOfInv(c: Config, s: State)
    requires Inv(c, s)
    ensures RoundInv(c, s)
  {
  }

  lemma StepMovesBusy(c: Config, s: State, step: Step, flows: seq<(nat, nat)>, sender: nat)
    requires Inv(c, s) && Enabled(c, s, step) && SameFlows(c, s, flows)
    ensures sender in Apply(c, s, step).busy <==>
            step == HearBusy(sender) || (sender in s.busy && !HeardFrom(flows, step, sender))
    ensures BudgetOf(c, Apply(c, s, step), sender) ==
            if HeardFrom(flows, step, sender) then step.budget else BudgetOf(c, s, sender)
  {
    hide Inv, SendGrantsFrom, HasGrantOpportunity, Reschedule, RemoveFirst, IsFullyReceived, TakeGrant, SendNext,
         CanSend, IsAboutMsg;
    if step.Tick? {
      TickKeepsHistory(c, s);
    } else if step.DeliverData? {
      FlowOfData(c, s, step, flows);
    }
  }

  lemma FlowOfData(c: Config, s: State, step: Step, flows: seq<(nat, nat)>)
    requires Enabled(c, s, step) && step.DeliverData? && SameFlows(c, s, flows)
    ensures step.i < |flows| && TakeData(s.msgs[step.i], step.offset).sender == flows[step.i].0
  {
    assert SameFlow(c, s.msgs[step.i], flows[step.i]);
  }

  /** In every run: a sender is listed as busy exactly if it reported so and no packet of it has arrived
      since. */
  lemma {:induction false} BusyIffNotHeardSince(c: Config, flows: seq<(nat, nat)>, steps: seq<Step>, sender: nat)
    requires StateAfter(c, flows, steps).Some?
    ensures sender in StateAfter(c, flows, steps).value.busy <==>
            exists k: nat :: BusyFrom(flows, steps, sender, k)
    decreases |steps|
  {
    hide Apply, Enabled, SameFlows;
    if steps == [] {
    } else {
      var before, last := steps[..|steps| - 1], |steps| - 1;
      BusyIffNotHeardSince(c, flows, before, sender);
      ReachableStatesKeepInv(c, flows, before);
      FlowsStay(c, flows, before);
      StepMovesBusy(c, StateAfter(c, flows, before).value, steps[last], flows, sender);
      if sender in StateAfter(c, flows, steps).value.busy {
        if steps[last] == HearBusy(sender) {
          assert BusyFrom(flows, steps, sender, last);
        } else {
          var k: nat :| BusyFrom(flows, before, sender, k);
          assert BusyFrom(flows, steps, sender, k);
        }
      }
      if k: nat :| BusyFrom(flows, steps, sender, k) {
        assert k < last ==> BusyFrom(flows, before, sender, k);
      }
    }
  }

  /** In every run: a sender's budget is the one its latest packet brought, and one bandwidth-delay product,
      but at least one packet, before any has arrived. */
  lemma {:induction false} BudgetIsLatest(c: Config, flows: seq<(nat, nat)>, steps: seq<Step>, sender: nat)
    requires StateAfter(c, flows, steps).Some?
    ensures forall k: nat :: LastHeard(flows, steps, sender, k) ==>
                               BudgetOf(c, StateAfter(c, flows, steps).value, sender) == steps[k].budget
    ensures (forall k :: 0 <= k < |steps| ==> !HeardFrom(flows, steps[k], sender)) ==>
            BudgetOf(c, StateAfter(c, flows, steps).value, sender) == if c.bdp > 1 then c.bdp else 1
    decreases |steps|
  {
    hide Apply, Enabled, SameFlows;
    if steps == [] {
    } else {
      var before, last := steps[..|steps| - 1], |steps| - 1;
      BudgetIsLatest(c, flows, before, sender);
      ReachableStatesKeepInv(c, flows, before);
      FlowsStay(c, flows, before);
      StepMovesBusy(c, StateAfter(c, flows, before).value, steps[last], flows, sender);
      forall k: nat | LastHeard(flows, steps, sender, k)
        ensures BudgetOf(c, StateAfter(c, flows, steps).value, sender) == steps[k].budget
      {
        assert k < last ==> LastHeard(flows, before, sender, k) && !HeardFrom(flows, steps[last], sender);
      }
    }
  }

  // ----- what a message may send -----

  /** The first packets, which need no grant. */
  function FirstBurst(c: Config, size: nat): nat {
    if size > c.threshold && size > 1 then 0 else if c.bdp == 0 || size < c.bdp then size else c.bdp
  }

  predicate GrantsUpTo(step: Step, i: nat, packet: nat) {
    step.DeliverGrant? && step.i == i && packet <= step.offset
  }

  ghost predicate MayBeSent(c: Config, flows: seq<(nat, nat)>, steps: seq<Step>, i: nat, packet: nat)
    requires i < |flows|
  {
    || packet < FirstBurst(c, flows[i].1)
    || exists k :: 0 <= k < |steps| && GrantsUpTo(steps[k], i, packet)
  }

  ghost function SendsOf(steps: seq<Step>, i: nat): set<nat> {
    set k: nat | k < |steps| && steps[k] == Send(i)
  }

  lemma StepMovesWindow(c: Config, s: State, step: Step, i: nat, packet: nat)
    requires Inv(c, s) && Enabled(c, s, step) && i < |s.msgs|
    ensures |Apply(c, s, step).msgs| == |s.msgs|
    ensures packet < Window(Apply(c, s, step).msgs[i]) <==> packet < Window(s.msgs[i]) || GrantsUpTo(step, i, packet)
    ensures Apply(c, s, step).msgs[i].next == s.msgs[i].next + if step == Send(i) then 1 else 0
  {
    hide Inv, Apply, Enabled, MsgEnabled, MsgAfter, Window;
    if step.Tick? {
      RoundInvOfInv(c, s);
      TickIsTaken(c, s);
      RoundKeepsWindow(c, s, 0, c.overcommit, {}, i);
    } else if step.HearBusy? {
      BusyKeepsMsgs(c, s, step);
    } else {
      MsgIsOk(c, s, step);
      StepTouchesOne(c, s, step);
      MsgStepMovesWindow(s.msgs[step.i], step, packet);
    }
  }

  lemma MsgStepMovesWindow(m: Msg, step: Step, packet: nat)
    requires MsgOk(m) && MsgEnabled(m, step)
    ensures packet < Window(MsgAfter(m, step)) <==> packet < Window(m) || GrantsUpTo(step, step.i, packet)
    ensures MsgAfter(m, step).next == m.next + if step.Send? then 1 else 0
  {
    if step.DeliverGrant? {
      GrantIsTaken(m, step.offset);
    }
  }

  lemma {:induction false} RoundKeepsWindow(c: Config, s: State, k: nat, due: nat, granted: set<nat>, i: nat)
    requires RoundInv(c, s) && i < |s.msgs|
    ensures var t := SendGrantsFrom(c, s, k, due, granted).0;
      |t.msgs| == |s.msgs| && Window(t.msgs[i]) == Window(s.msgs[i]) && t.msgs[i].next == s.msgs[i].next
    decreases |s.order| - k
  {
    hide RoundInv, TryGrant, MsgOk, Eligible;
    if k < |s.order| && s.order[k] < |s.msgs| {
      if due == 0 || s.msgs[s.order[k]].sender in granted {
        RoundKeepsWindow(c, s, k + 1, due, granted, i);
      } else {
        var (t, issued) := TryGrant(c, s, s.order[k]);
        OrderIsKnown(c, s, k);
        GrantIsTried(c, s, s.order[k]);
        GrantKeepsRoundInv(c, s, s.order[k]);
        if issued {
          RoundKeepsWindow(c, t, k + 1, due - 1, granted + {s.msgs[s.order[k]].sender}, i);
        } else {
          RoundKeepsWindow(c, t, k + 1, due, granted, i);
        }
      }
    }
  }

  lemma NewWindow(c: Config, sender: nat, size: nat)
    ensures Window(NewMsg(c, sender, size)) == FirstBurst(c, size) && NewMsg(c, sender, size).next == 0
  {
  }

  lemma MayBeSentMore(c: Config, flows: seq<(nat, nat)>, steps: seq<Step>, i: nat, packet: nat)
    requires i < |flows| && steps != []
    ensures MayBeSent(c, flows, steps, i, packet) <==>
            MayBeSent(c, flows, steps[..|steps| - 1], i, packet) || GrantsUpTo(steps[|steps| - 1], i, packet)
  {
    hide FirstBurst, GrantsUpTo;
    var before := steps[..|steps| - 1];
    assert forall k :: 0 <= k < |before| ==> before[k] == steps[k];
    if k :| 0 <= k < |steps| && GrantsUpTo(steps[k], i, packet) {
      assert k < |before| ==> GrantsUpTo(before[k], i, packet);
    }
    if k :| 0 <= k < |before| && GrantsUpTo(before[k], i, packet) {
      assert GrantsUpTo(steps[k], i, packet);
    }
  }

  lemma SendsMore(steps: seq<Step>, i: nat)
    requires steps != []
    ensures |SendsOf(steps, i)| == |SendsOf(steps[..|steps| - 1], i)| + if steps[|steps| - 1] == Send(i) then 1 else 0
  {
    var last := |steps| - 1;
    assert SendsOf(steps, i) ==
           if steps[last] == Send(i) then SendsOf(steps[..last], i) + {last} else SendsOf(steps[..last], i);
  }

  lemma {:induction false} WindowIsHistory(c: Config, flows: seq<(nat, nat)>, steps: seq<Step>, i: nat, packet: nat)
    requires StateAfter(c, flows, steps).Some? && i < |flows|
    ensures var s := StateAfter(c, flows, steps).value;
      && |s.msgs| == |flows| && s.msgs[i].next == |SendsOf(steps, i)|
      && (packet < Window(s.msgs[i]) <==> MayBeSent(c, flows, steps, i, packet))
    decreases |steps|
  {
    hide Apply, Enabled, Window, FirstBurst, MayBeSent, SendsOf, GrantsUpTo;
    if steps == [] {
      NewWindow(c, flows[i].0, flows[i].1);
      NothingSent(c, flows, i, packet);
    } else {
      var before, last := steps[..|steps| - 1], |steps| - 1;
      WindowIsHistory(c, flows, before, i, packet);
      ReachableStatesKeepInv(c, flows, before);
      StepMovesWindow(c, StateAfter(c, flows, before).value, steps[last], i, packet);
      MayBeSentMore(c, flows, steps, i, packet);
      SendsMore(steps, i);
    }
  }

  lemma NothingSent(c: Config, flows: seq<(nat, nat)>, i: nat, packet: nat)
    requires i < |flows|
    ensures SendsOf([], i) == {} && (MayBeSent(c, flows, [], i, packet) <==> packet < FirstBurst(c, flows[i].1))
  {
  }

  /** In every run: a message may send its next packet exactly if that is one of the first packets, which
      need no grant, or a grant has arrived that covers it. Which packet is next, the number of packets
      sent so far says. */
  lemma SendIsAllowedIff(c: Config, flows: seq<(nat, nat)>, steps: seq<Step>, i: nat)
    requires StateAfter(c, flows, steps).Some? && i < |flows|
    ensures Enabled(c, StateAfter(c, flows, steps).value, Send(i)) <==>
            MayBeSent(c, flows, steps, i, |set k: nat | k < |steps| && steps[k] == Send(i)|)
  {
    hide StateAfter, MayBeSent;
    var s := StateAfter(c, flows, steps).value;
    ReachableStatesKeepInv(c, flows, steps);
    WindowIsHistory(c, flows, steps, i, |SendsOf(steps, i)|);
    assert SendsOf(steps, i) == set k: nat | k < |steps| && steps[k] == Send(i);
    assert MsgOk(s.msgs[i]);
  }

  // ----- how far a grant reaches -----

  ghost function ArrivalsOf(steps: seq<Step>, from: nat, i: nat): set<nat> {
    set k: nat | from <= k < |steps| && steps[k].DeliverData? && steps[k].i == i
  }

  lemma StepMovesGrantable(c: Config, s: State, step: Step, i: nat)
    requires Inv(c, s) && Enabled(c, s, step) && !step.Tick? && i < |s.msgs|
    requires s.msgs[i].known && 0 < s.msgs[i].unsched < s.msgs[i].size
    ensures |Apply(c, s, step).msgs| == |s.msgs|
    ensures var m, n := s.msgs[i], Apply(c, s, step).msgs[i];
      && n.known && n.unsched == m.unsched && n.size == m.size && Granted(n) == Granted(m)
      && n.grantableIdx == (if step.DeliverData? && step.i == i then Min(m.size - 1, m.grantableIdx + 1)
                            else m.grantableIdx)
  {
    hide Inv, Apply, Enabled, MsgEnabled, MsgAfter;
    if step.HearBusy? {
      BusyKeepsMsgs(c, s, step);
    } else {
      MsgIsOk(c, s, step);
      StepTouchesOne(c, s, step);
      MsgStepMovesGrantable(s.msgs[step.i], step);
    }
  }

  lemma MsgStepMovesGrantable(m: Msg, step: Step)
    requires MsgOk(m) && MsgEnabled(m, step)
    ensures var n := MsgAfter(m, step);
      m.known && 0 < m.unsched < m.size ==>
        && n.known && n.unsched == m.unsched && n.size == m.size && Granted(n) == Granted(m)
        && n.grantableIdx == (if step.DeliverData? then Min(m.size - 1, m.grantableIdx + 1) else m.grantableIdx)
  {
    if step.DeliverGrant? {
      GrantIsTaken(m, step.offset);
    }
  }

  /** From m to n nothing was granted and so many packets arrived. */
  ghost predicate Widened(m: Msg, n: Msg, arrivals: nat) {
    && n.known && n.unsched == m.unsched && n.size == m.size && Granted(n) == Granted(m)
    && n.grantableIdx == if m.grantableIdx + arrivals < m.size then m.grantableIdx + arrivals else m.size - 1
  }

  lemma WidenedByNone(m: Msg)
    requires MsgOk(m) && m.known && 0 < m.unsched < m.size
    ensures Widened(m, m, 0)
  {
  }

  lemma WidensMore(c: Config, s: State, step: Step, i: nat, m: Msg, arrivals: nat)
    requires Inv(c, s) && Enabled(c, s, step) && !step.Tick? && i < |s.msgs|
    requires 0 < m.unsched < m.size && Widened(m, s.msgs[i], arrivals)
    ensures |Apply(c, s, step).msgs| == |s.msgs|
    ensures Widened(m, Apply(c, s, step).msgs[i], arrivals + if step.DeliverData? && step.i == i then 1 else 0)
  {
    hide Inv, Apply, Enabled, Granted;
    StepMovesGrantable(c, s, step, i);
  }

  /** Between two ticks each arriving packet of a message of which a part was sent unasked moves what the
      next grant exposes on by one packet, up to the end of the message. */
  lemma {:induction false} ArrivalsWiden(c: Config, flows: seq<(nat, nat)>, steps: seq<Step>, from: nat, i: nat, m: Msg)
    requires from <= |steps| && StateAfter(c, flows, steps).Some? && StateAfter(c, flows, steps[..from]).Some?
    requires i < |StateAfter(c, flows, steps[..from]).value.msgs|
    requires forall k :: from <= k < |steps| ==> !steps[k].Tick?
    requires m == StateAfter(c, flows, steps[..from]).value.msgs[i] && m.known && 0 < m.unsched < m.size
    ensures i < |StateAfter(c, flows, steps).value.msgs|
    ensures Widened(m, StateAfter(c, flows, steps).value.msgs[i], |ArrivalsOf(steps, from, i)|)
    decreases |steps|
  {
    hide Apply, Enabled, Inv, Widened, MsgOk;
    if |steps| == from {
      assert steps[..from] == steps;
      assert ArrivalsOf(steps, from, i) == {};
      StartsOk(c, flows, steps, i);
      WidenedByNone(m);
    } else {
      var before, last := steps[..|steps| - 1], |steps| - 1;
      assert before[..from] == steps[..from];
      ArrivalsWiden(c, flows, before, from, i, m);
      ReachableStatesKeepInv(c, flows, before);
      WidensMore(c, StateAfter(c, flows, before).value, steps[last], i, m, |ArrivalsOf(before, from, i)|);
      ArrivalsGrow(steps, from, i);
    }
  }

  lemma StartsOk(c: Config, flows: seq<(nat, nat)>, steps: seq<Step>, i: nat)
    requires StateAfter(c, flows, steps).Some? && i < |StateAfter(c, flows, steps).value.msgs|
    ensures MsgOk(StateAfter(c, flows, steps).value.msgs[i])
  {
    ReachableStatesKeepInv(c, flows, steps);
  }

  lemma ArrivalsGrow(steps: seq<Step>, from: nat, i: nat)
    requires from < |steps|
    ensures var last := |steps| - 1;
      |ArrivalsOf(steps, from, i)| ==
      |ArrivalsOf(steps[..last], from, i)| + if steps[last].DeliverData? && steps[last].i == i then 1 else 0
  {
    var last := |steps| - 1;
    assert ArrivalsOf(steps, from, i) ==
           if steps[last].DeliverData? && steps[last].i == i
           then ArrivalsOf(steps[..last], from, i) + {last} else ArrivalsOf(steps[..last], from, i);
  }

  // ----- the receiver's list -----

  lemma {:induction false} RemovesOne(before: seq<nat>, i: nat, after: seq<nat>)
    requires i !in before
    ensures RemoveFirst(before + [i] + after, i) == before + after
    decreases |before|
  {
    var q := before + [i] + after;
    if before == [] {
      assert q[1..] == after;
    } else {
      assert q[1..] == before[1..] + [i] + after;
      RemovesOne(before[1..], i, after);
      assert before == [before[0]] + before[1..];
    }
  }

  lemma {:induction false} RemovesNone(q: seq<nat>, i: nat)
    requires i !in q
    ensures RemoveFirst(q, i) == q
    decreases |q|
  {
    if q == [] {
    } else {
      RemovesNone(q[1..], i);
    }
  }

  lemma RemovedIs(order: seq<nat>, before: seq<nat>, i: nat, after: seq<nat>)
    requires i !in before && (order == before + [i] + after || (order == before + after && i !in after))
    ensures RemoveFirst(order, i) == before + after
  {
    hide RemoveFirst;
    if order == before + [i] + after {
      RemovesOne(before, i, after);
    } else {
      RemovesNone(before + after, i);
    }
  }

  lemma RescheduledIs(order: seq<nat>, i: nat, position: nat, rest: seq<nat>)
    requires RemoveFirst(order, i) == rest
    ensures var at := if position < |rest| then position else |rest|;
      Reschedule(order, i, position) == rest[..at] + [i] + rest[at..]
  {
    hide RemoveFirst;
  }

  /** An arriving packet takes its message out of the list and, unless the message is complete, puts it back
      at the position asked for or else at the end; the others keep their order. */
  lemma ArrivalMovesOne(c: Config, s: State, step: Step, before: seq<nat>, after: seq<nat>)
    requires Enabled(c, s, step) && (step.DeliverData? || step.DeliverRequest?) && step.i !in before
    requires s.order == before + [step.i] + after || (s.order == before + after && step.i !in after)
    ensures var t, rest := Apply(c, s, step), before + after;
      var at := if step.position < |rest| then step.position else |rest|;
      && |t.msgs| == |s.msgs|
      && t.order == if step.DeliverData? && (forall k :: 0 <= k < t.msgs[step.i].size ==> k in t.msgs[step.i].received)
                    then rest else rest[..at] + [step.i] + rest[at..]
  {
    hide HasGrantOpportunity, RemoveFirst, Reschedule, TakeData, MadeKnown, Reclaim;
    RemovedIs(s.order, before, step.i, after);
    RescheduledIs(s.order, step.i, step.position, before + after);
    ReclaimKeepsList(s, s.msgs[step.i].sender);
    if step.DeliverData? {
      ReclaimKeepsList(s, TakeData(s.msgs[step.i], step.offset).sender);
    }
  }

  lemma ReclaimKeepsList(s: State, sender: nat)
    ensures Reclaim(s, sender).order == s.order && Reclaim(s, sender).msgs == s.msgs
  {
  }
}
