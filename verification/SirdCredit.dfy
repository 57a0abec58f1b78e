/** Credit in the SIRD loop: what every step keeps, under any loss and any reordering, for long
    messages and for messages that are sent unasked. */
module SirdCredit {
  import opened Graphs
  import opened MapSums
  import opened SeqSums
  import opened SirdProtocol
  import opened Wrappers

  // ----- one message -----

  /** Packets the sender is to send in the end without a further grant, packets it knows of. */
  function Granted(m: Msg): nat {
    if m.hasGranted then m.grantedIdx + 1 else m.unsched
  }

  function Window(m: Msg): nat {
    if m.waiting then 0 else Min(m.sendIdx + 1, m.size)
  }

  /** The packets from `from` up to `upto` that have not been received. */
  ghost function Missing(from: nat, upto: nat, received: set<nat>): set<nat> {
    set o: nat | from <= o < upto && o !in received
  }

  /** What a message owes: packets that credit was given for and that have not arrived. */
  ghost function Owed(m: Msg): nat {
    |Missing(m.unsched, Granted(m), m.received)|
  }

  /** Packets that the next grant will expose beyond the one it is paid for. */
  function Slack(m: Msg): nat {
    if m.hasGranted && m.grantableIdx > m.grantedIdx + 1 then m.grantableIdx - m.grantedIdx - 1 else 0
  }

  /** How far a message that was sent unasked can have put the books out. */
  function Leak(m: Msg): nat {
    if m.unsched == 0 then 0 else 2 * |m.received|
  }

  ghost function OwedBy(sender: nat): Msg -> nat {
    (m: Msg) => if m.sender == sender then Owed(m) else 0
  }

  ghost function DueBy(sender: nat): Msg -> nat {
    (m: Msg) => if m.sender == sender then Owed(m) + Slack(m) else 0
  }

  ghost function LeakBy(sender: nat): Msg -> nat {
    (m: Msg) => if m.sender == sender then Leak(m) else 0
  }

  ghost predicate SenderOk(m: Msg) {
    && (m.waiting ==> m.sendIdx == 0 && m.unsched == 0)
    && (!m.waiting && m.size > 0 ==> m.sendIdx < m.size)
    && m.next <= Window(m) <= Granted(m) <= m.size
    && m.unsched <= Window(m)
    && m.held == Window(m) - m.next
  }

  ghost predicate ReceiverOk(m: Msg) {
    && (if m.request == NotNeeded then m.unsched > 0 || m.size == 0 else m.unsched == 0 && m.size >= 2)
    && (if m.request == NotNeeded then m.known <==> m.received != {} else m.known <==> m.request == Arrived)
    && (m.hasGranted ==> m.known && m.unsched <= m.grantedIdx + 1 <= m.size && m.grantedIdx <= m.grantableIdx)
    && (m.hasGranted && m.unsched < m.size ==> m.grantableIdx < m.size)
    && (m.unsched == m.size && m.hasGranted ==> m.grantableIdx == m.size)
    && (m.hasGranted && m.unsched == 0 ==> m.grantedIdx == m.grantableIdx)
    && (m.known && m.unsched > 0 ==> m.hasGranted)
    && (!m.hasGranted ==> m.grantableIdx == 0)
  }

  /** Every packet sent is under way, received or lost. */
  ghost predicate NetworkOk(m: Msg) {
    && (forall o :: o in m.grants ==> o < Granted(m))
    && (forall o: nat :: o < m.next <==> o in m.received || o in m.data || o in m.lost)
    && m.data !! m.received && m.data !! m.lost && m.lost !! m.received
  }

  ghost predicate MsgOk(m: Msg) {
    SenderOk(m) && ReceiverOk(m) && NetworkOk(m)
  }

  // ----- the whole state -----

  ghost predicate IsActive(m: Msg) {
    m.known && !IsFullyReceived(m)
  }

  ghost predicate ListOk(s: State) {
    && Distinct(s.order)
    && (forall i :: i in s.order ==> i < |s.msgs|)
    && (forall i :: 0 <= i < |s.msgs| ==> (i in s.order <==> IsActive(s.msgs[i])))
  }

  /** The counters agree with each other and respect the budgets, and a sender's counter is off from
      what its messages owe by no more than the messages that were sent unasked can explain. */
  ghost predicate CountersOk(c: Config, s: State) {
    && s.global == SumOf(s.inUse) <= GlobalBudget(c)
    && (forall sender: nat :: SenderCounterOk(c, s, sender))
  }

  ghost predicate SenderCounterOk(c: Config, s: State, sender: nat) {
    && 1 <= BudgetOf(c, s, sender) <= SenderBudget(c)
    && ValueAt(s.inUse, sender) <= SenderBudget(c)
    && ValueAt(s.inUse, sender) <= Total(s.msgs, OwedBy(sender))
    && Total(s.msgs, DueBy(sender)) <= ValueAt(s.inUse, sender) + Total(s.msgs, LeakBy(sender))
  }

  ghost predicate MsgsOk(s: State) {
    forall i :: 0 <= i < |s.msgs| ==> MsgOk(s.msgs[i])
  }

  /** A wake-up is never lost, if grants are allowed at all. */
  ghost predicate AwakeOk(c: Config, s: State) {
    c.overcommit > 0 && HasGrantOpportunity(c, s) ==> s.tick
  }

  ghost predicate Inv(c: Config, s: State) {
    MsgsOk(s) && ListOk(s) && CountersOk(c, s) && AwakeOk(c, s)
  }

  // ----- counting missing packets -----

  lemma {:induction false} MissingGrows(from: nat, upto: nat, more: nat, received: set<nat>)
    requires from <= upto <= more && forall o :: o in received ==> o < upto
    ensures |Missing(from, more, received)| == |Missing(from, upto, received)| + (more - upto)
    decreases more
  {
    if more == upto {
    } else {
      MissingGrows(from, upto, more - 1, received);
      assert Missing(from, more, received) == Missing(from, more - 1, received) + {more - 1};
    }
  }

  lemma MissingArrives(from: nat, upto: nat, received: set<nat>, o: nat)
    requires o !in received && o < upto
    ensures |Missing(from, upto, received + {o})| ==
            |Missing(from, upto, received)| - if from <= o then 1 else 0
  {
    if from <= o {
      assert Missing(from, upto, received + {o}) == Missing(from, upto, received) - {o};
    } else {
      assert Missing(from, upto, received + {o}) == Missing(from, upto, received);
    }
  }

  // ----- steps at the sender and in the network -----

  ghost predicate SameAtReceiver(m: Msg, n: Msg) {
    && n.sender == m.sender && n.size == m.size && n.unsched == m.unsched
    && n.known == m.known && n.hasGranted == m.hasGranted && n.grantedIdx == m.grantedIdx
    && n.grantableIdx == m.grantableIdx && n.received == m.received
  }

  /** A grant moves the window to its index unless a later one has done so. */
  lemma GrantIsTaken(m: Msg, offset: nat)
    requires MsgOk(m) && offset in m.grants
    ensures MsgOk(TakeGrant(m, offset)) && SameAtReceiver(m, TakeGrant(m, offset))
    ensures Window(TakeGrant(m, offset)) == if offset < Window(m) then Window(m) else offset + 1
  {
  }

  /** Sending spends one credit, and there is one. */
  lemma PacketIsSent(m: Msg)
    requires MsgOk(m) && CanSend(m)
    ensures MsgOk(SendNext(m)) && SameAtReceiver(m, SendNext(m))
    ensures m.held > 0 && m.next < Granted(m) && m.next !in m.data
  {
  }

  lemma PacketIsLost(m: Msg, offset: nat)
    requires MsgOk(m) && offset in m.data
    ensures MsgOk(LoseOne(m, offset)) && SameAtReceiver(m, LoseOne(m, offset))
  {
  }

  lemma OrderIsWithin(c: Config, s: State, t: State)
    requires t.order == s.order && |t.msgs| == |s.msgs| && t.inUse == s.inUse && t.global == s.global
    requires t.budgets == s.budgets && s.busy <= t.busy
    requires forall k :: 0 <= k < |s.msgs| ==> SameAtReceiver(s.msgs[k], t.msgs[k])
    ensures HasGrantOpportunity(c, t) ==> HasGrantOpportunity(c, s)
  {
    if HasGrantOpportunity(c, t) {
      var k :| 0 <= k < |t.order| && t.order[k] < |t.msgs| && Eligible(c, t, t.order[k]);
      assert Eligible(c, s, s.order[k]);
    }
  }

  lemma QuietStepKeepsInv(c: Config, s: State, i: nat, m: Msg)
    requires Inv(c, s) && i < |s.msgs| && MsgOk(m) && SameAtReceiver(s.msgs[i], m)
    ensures Inv(c, s.(msgs := s.msgs[i := m]))
  {
    hide MsgOk, ListOk, CountersOk, HasGrantOpportunity;
    OrderIsWithin(c, s, s.(msgs := s.msgs[i := m]));
    QuietStepKeepsList(s, i, m);
    QuietStepKeepsCounters(c, s, i, m);
  }

  lemma QuietStepKeepsList(s: State, i: nat, m: Msg)
    requires ListOk(s) && i < |s.msgs| && SameAtReceiver(s.msgs[i], m)
    ensures ListOk(s.(msgs := s.msgs[i := m]))
  {
  }

  /** How one message's change moves the totals of a sender. */
  lemma TotalsMove(s: State, i: nat, m: Msg, sender: nat)
    requires i < |s.msgs| && m.sender == s.msgs[i].sender
    ensures var t := s.msgs[i := m];
      if m.sender == sender then
        && Total(t, OwedBy(sender)) == Total(s.msgs, OwedBy(sender)) - Owed(s.msgs[i]) + Owed(m)
        && Total(t, DueBy(sender)) ==
           Total(s.msgs, DueBy(sender)) - Owed(s.msgs[i]) - Slack(s.msgs[i]) + Owed(m) + Slack(m)
        && Total(t, LeakBy(sender)) == Total(s.msgs, LeakBy(sender)) - Leak(s.msgs[i]) + Leak(m)
        && Owed(s.msgs[i]) <= Total(s.msgs, OwedBy(sender))
      else
        && Total(t, OwedBy(sender)) == Total(s.msgs, OwedBy(sender))
        && Total(t, DueBy(sender)) == Total(s.msgs, DueBy(sender))
        && Total(t, LeakBy(sender)) == Total(s.msgs, LeakBy(sender))
  {
    hide Owed, Slack, Leak, Total;
    TotalUpdate(s.msgs, i, m, OwedBy(sender));
    TotalUpdate(s.msgs, i, m, DueBy(sender));
    TotalUpdate(s.msgs, i, m, LeakBy(sender));
  }

  lemma QuietStepKeepsCounters(c: Config, s: State, i: nat, m: Msg)
    requires CountersOk(c, s) && i < |s.msgs| && SameAtReceiver(s.msgs[i], m)
    ensures CountersOk(c, s.(msgs := s.msgs[i := m]))
  {
    var t := s.(msgs := s.msgs[i := m]);
    assert Owed(m) == Owed(s.msgs[i]) && Slack(m) == Slack(s.msgs[i]) && Leak(m) == Leak(s.msgs[i]);
    forall sender: nat ensures SenderCounterOk(c, t, sender) {
      hide Owed, Slack, Leak, Total;
      assert SenderCounterOk(c, s, sender);
      TotalsMove(s, i, m, sender);
    }
  }

  // ----- the active list -----

  lemma Inserted(q: seq<nat>, at: nat, i: nat)
    requires Distinct(q) && at <= |q| && i !in q
    ensures Distinct(q[..at] + [i] + q[at..])
  {
    var r := q[..at] + [i] + q[at..];
    forall j, k | 0 <= j < k < |r| ensures r[j] != r[k] {
      assert r[j] == if j < at then q[j] else if j == at then i else q[j - 1];
      assert r[k] == if k < at then q[k] else if k == at then i else q[k - 1];
    }
  }

  lemma {:induction false} RemovedFirst(q: seq<nat>, i: nat)
    requires Distinct(q)
    ensures Distinct(RemoveFirst(q, i))
    ensures forall x: nat :: x in RemoveFirst(q, i) <==> x in q && x != i
  {
    if q == [] {
    } else {
      assert q == [q[0]] + q[1..];
      assert Distinct(q[1..]);
      if q[0] != i {
        RemovedFirst(q[1..], i);
        Inserted(RemoveFirst(q[1..], i), 0, q[0]);
      }
    }
  }

  lemma Rescheduled(q: seq<nat>, i: nat, position: nat)
    requires Distinct(q)
    ensures Distinct(Reschedule(q, i, position))
    ensures forall x: nat :: x in Reschedule(q, i, position) <==> x in q || x == i
  {
    RemovedFirst(q, i);
    var rest := RemoveFirst(q, i);
    var at := Min(position, |rest|);
    assert rest == rest[..at] + rest[at..];
    Inserted(rest, at, i);
  }

  lemma TickIsIrrelevant(c: Config, s: State, t: State)
    requires t == s.(tick := t.tick)
    ensures HasGrantOpportunity(c, t) == HasGrantOpportunity(c, s)
    ensures CountersOk(c, t) == CountersOk(c, s) && ListOk(t) == ListOk(s) && MsgsOk(t) == MsgsOk(s)
  {
    hide MsgOk, IsActive, Total;
    assert forall sender: nat :: SenderCounterOk(c, t, sender) == SenderCounterOk(c, s, sender);
    assert forall i :: 0 <= i < |s.msgs| ==> Eligible(c, t, i) == Eligible(c, s, i);
  }

  lemma TickIsEnsured(c: Config, s: State)
    requires MsgsOk(s) && ListOk(s) && CountersOk(c, s)
    ensures Inv(c, EnsureCreditTick(c, s))
  {
    hide MsgsOk, ListOk, CountersOk, HasGrantOpportunity;
    var t := EnsureCreditTick(c, s);
    assert t == s.(tick := t.tick);
    TickIsIrrelevant(c, s, t);
  }

  // ----- steps at the receiver -----

  lemma RequestIsTaken(m: Msg)
    requires MsgOk(m) && m.request == InFlight
    ensures var n := MadeKnown(m.(request := Arrived));
      && MsgOk(n) && IsActive(n) && n.sender == m.sender && n.hasGranted == m.hasGranted
      && Owed(n) == Owed(m) && Slack(n) == Slack(m) && Leak(n) == Leak(m)
  {
    assert 0 !in m.received;
  }

  lemma RequestIsReceived(c: Config, s: State, i: nat, position: nat, budget: nat)
    requires Inv(c, s) && Enabled(c, s, DeliverRequest(i, position, budget))
    ensures Inv(c, ReceiveRequest(c, s, i, position, budget))
  {
    hide MsgOk, IsActive, Owed, Slack, Leak, Total, MadeKnown, Reschedule;
    var m := MadeKnown(s.msgs[i].(request := Arrived));
    var t := s.(msgs := s.msgs[i := m], budgets := s.budgets[m.sender := budget], busy := s.busy - {m.sender},
                order := Reschedule(s.order, i, position));
    RequestIsTaken(s.msgs[i]);
    Rescheduled(s.order, i, position);
    forall sender: nat ensures SenderCounterOk(c, t, sender) {
      assert SenderCounterOk(c, s, sender);
      TotalsMove(s, i, m, sender);
    }
    TickIsEnsured(c, t);
  }

  lemma KnownMsg(m: Msg)
    requires MsgOk(m) && m.data != {}
    ensures !m.known ==> m.unsched > 0 && m.received == {}
    ensures var n := MadeKnown(m);
      && n.known && Granted(n) == Granted(m) && Slack(n) == Slack(m) && n.size > 0
      && n == m.(known := true, hasGranted := n.hasGranted, grantedIdx := n.grantedIdx, grantableIdx := n.grantableIdx)
      && (!m.known ==> n.grantableIdx == n.grantedIdx + 1)
  {
  }

  /** What a packet's arrival does to its message: a granted packet is no longer owed, one that was
      sent unasked changes nothing that is owed. */
  lemma DataIsTaken(m: Msg, offset: nat)
    requires MsgOk(m) && offset in m.data
    ensures MsgOk(TakeData(m, offset)) && TakeData(m, offset).known && TakeData(m, offset).sender == m.sender
    ensures Owed(TakeData(m, offset)) == Owed(m) - if offset < m.unsched then 0 else 1
  {
    KnownMsg(m);
    MissingArrives(m.unsched, Granted(m), m.received, offset);
    assert Granted(TakeData(m, offset)) == Granted(m);
  }

  lemma DataLeaks(m: Msg, offset: nat)
    requires MsgOk(m) && offset in m.data
    ensures var n := TakeData(m, offset);
      Owed(n) + Slack(n) + Leak(m) + 1 <= Owed(m) + Slack(m) + Leak(n)
  {
    hide Owed;
    KnownMsg(m);
    DataIsTaken(m, offset);
    assert |m.received + {offset}| == |m.received| + 1;
  }

  lemma ReclaimedCounters(s: State, sender: nat)
    requires s.global == SumOf(s.inUse)
    ensures Reclaim(s, sender).global == SumOf(Reclaim(s, sender).inUse) <= s.global
    ensures forall other: nat ::
              ValueAt(Reclaim(s, sender).inUse, other) ==
              if other == sender && ValueAt(s.inUse, other) > 0
              then ValueAt(s.inUse, other) - 1 else ValueAt(s.inUse, other)
  {
    if ValueAt(s.inUse, sender) > 0 {
      PartOfSum(s.inUse, sender);
      SumUpdate(s.inUse, sender, ValueAt(s.inUse, sender) - 1);
    }
  }

  lemma DataKeepsCounters(c: Config, s: State, t: State, i: nat, offset: nat, budget: nat)
    requires MsgsOk(s) && CountersOk(c, s) && i < |s.msgs| && offset in s.msgs[i].data && 1 <= budget <= SenderBudget(c)
    requires t.msgs == s.msgs[i := TakeData(s.msgs[i], offset)]
    requires t.budgets == s.budgets[s.msgs[i].sender := budget]
    requires t.inUse == Reclaim(s, s.msgs[i].sender).inUse && t.global == Reclaim(s, s.msgs[i].sender).global
    ensures CountersOk(c, t)
  {
    hide MsgOk, Owed, Slack, Leak, Total, TakeData, Reclaim;
    var m := s.msgs[i];
    ReclaimedCounters(s, m.sender);
    DataIsTaken(m, offset);
    DataLeaks(m, offset);
    forall sender: nat ensures SenderCounterOk(c, t, sender) {
      assert SenderCounterOk(c, s, sender);
      TotalsMove(s, i, TakeData(m, offset), sender);
    }
  }

  lemma DataKeepsList(s: State, t: State, i: nat, offset: nat, position: nat)
    requires MsgsOk(s) && ListOk(s) && i < |s.msgs| && offset in s.msgs[i].data
    requires t.msgs == s.msgs[i := TakeData(s.msgs[i], offset)]
    requires t.order == if IsFullyReceived(t.msgs[i]) then RemoveFirst(s.order, i) else Reschedule(s.order, i, position)
    ensures ListOk(t)
  {
    hide MsgOk, TakeData, IsFullyReceived, RemoveFirst, Reschedule;
    DataIsTaken(s.msgs[i], offset);
    RemovedFirst(s.order, i);
    Rescheduled(s.order, i, position);
  }

  lemma DataIsReceived(c: Config, s: State, i: nat, offset: nat, position: nat, budget: nat)
    requires Inv(c, s) && Enabled(c, s, DeliverData(i, offset, position, budget))
    ensures Inv(c, ReceiveData(c, s, i, offset, position, budget))
  {
    hide MsgOk, TakeData, IsFullyReceived, RemoveFirst, Reschedule, ListOk, CountersOk, HasGrantOpportunity;
    var m := TakeData(s.msgs[i], offset);
    var order := if IsFullyReceived(m) then RemoveFirst(s.order, i) else Reschedule(s.order, i, position);
    var t := Reclaim(s, m.sender).(msgs := s.msgs[i := m], budgets := s.budgets[m.sender := budget],
                                   busy := s.busy - {m.sender}, order := order);
    DataIsTaken(s.msgs[i], offset);
    DataKeepsCounters(c, s, t, i, offset, budget);
    DataKeepsList(s, t, i, offset, position);
    TickIsEnsured(c, t);
  }

  // ----- the round of grants -----

  /** A message with credit left is always granted. The grant exposes the next packet, and where
      arrivals have moved the window on, the packets up to there with it. */
  lemma GrantIsTried(c: Config, s: State, i: nat)
    requires i < |s.msgs| && MsgOk(s.msgs[i]) && s.msgs[i].known
    ensures TryGrant(c, s, i).1 == Eligible(c, s, i)
    ensures !Eligible(c, s, i) ==> TryGrant(c, s, i).0 == s
    ensures Eligible(c, s, i) ==>
      var m, n := s.msgs[i], TryGrant(c, s, i).0.msgs[i];
      && Granted(n) == Granted(m) + 1 + Slack(m) && n.grants == m.grants + {Granted(n) - 1}
      && (m.unsched == 0 ==> Slack(m) == 0)
      && n == m.(grants := n.grants, hasGranted := true, grantedIdx := n.grantedIdx, grantableIdx := n.grantedIdx)
      && TryGrant(c, s, i).0 == s.(msgs := s.msgs[i := n], global := s.global + 1,
                                   inUse := s.inUse[m.sender := ValueAt(s.inUse, m.sender) + 1])
  {
  }

  /** What a round keeps; whether a tick is due is settled at its end. */
  ghost predicate RoundInv(c: Config, s: State) {
    MsgsOk(s) && ListOk(s) && CountersOk(c, s)
  }

  lemma GrantKeepsMsg(c: Config, s: State, i: nat)
    requires i < |s.msgs| && MsgOk(s.msgs[i]) && s.msgs[i].known && Eligible(c, s, i)
    ensures var m, n := s.msgs[i], TryGrant(c, s, i).0.msgs[i];
      && MsgOk(n) && n.sender == m.sender && Leak(n) == Leak(m) && Slack(n) == 0
      && Owed(n) == Owed(m) + 1 + Slack(m)
  {
    hide TryGrant, BudgetOf;
    GrantIsTried(c, s, i);
    var m, n := s.msgs[i], TryGrant(c, s, i).0.msgs[i];
    MissingGrows(m.unsched, Granted(m), Granted(n), m.received);
  }

  lemma GrantKeepsCounters(c: Config, s: State, i: nat)
    requires RoundInv(c, s) && i < |s.msgs| && s.msgs[i].known && Eligible(c, s, i)
    ensures CountersOk(c, TryGrant(c, s, i).0)
  {
    hide TryGrant, MsgOk, Owed, Slack, Leak, Total, ListOk;
    var t := TryGrant(c, s, i).0;
    var m := s.msgs[i];
    GrantIsTried(c, s, i);
    GrantKeepsMsg(c, s, i);
    SumUpdate(s.inUse, m.sender, ValueAt(s.inUse, m.sender) + 1);
    forall sender: nat ensures SenderCounterOk(c, t, sender) {
      assert SenderCounterOk(c, s, sender);
      TotalsMove(s, i, t.msgs[i], sender);
    }
  }

  lemma GrantKeepsList(c: Config, s: State, i: nat)
    requires ListOk(s) && i < |s.msgs| && MsgOk(s.msgs[i]) && s.msgs[i].known && Eligible(c, s, i)
    ensures ListOk(TryGrant(c, s, i).0)
  {
    hide TryGrant, Eligible;
    GrantIsTried(c, s, i);
  }

  lemma OrderIsKnown(c: Config, s: State, k: nat)
    requires RoundInv(c, s) && k < |s.order|
    ensures s.order[k] < |s.msgs| && MsgOk(s.msgs[s.order[k]]) && s.msgs[s.order[k]].known
  {
    assert s.order[k] in s.order;
  }

  lemma GrantKeepsRoundInv(c: Config, s: State, i: nat)
    requires RoundInv(c, s) && i < |s.msgs| && s.msgs[i].known
    ensures RoundInv(c, TryGrant(c, s, i).0)
    ensures TryGrant(c, s, i).0.order == s.order && |TryGrant(c, s, i).0.msgs| == |s.msgs|
  {
    hide TryGrant, Eligible, MsgOk, ListOk, CountersOk;
    GrantIsTried(c, s, i);
    if Eligible(c, s, i) {
      GrantKeepsCounters(c, s, i);
      GrantKeepsMsg(c, s, i);
      GrantKeepsList(c, s, i);
    }
  }

  lemma {:induction false} RoundKeepsInv(c: Config, s: State, k: nat, due: nat, granted: set<nat>)
    requires RoundInv(c, s)
    ensures RoundInv(c, SendGrantsFrom(c, s, k, due, granted).0)
    decreases |s.order| - k
  {
    hide RoundInv, TryGrant, MsgOk;
    if k < |s.order| && s.order[k] < |s.msgs| {
      if due == 0 || s.msgs[s.order[k]].sender in granted {
        RoundKeepsInv(c, s, k + 1, due, granted);
      } else {
        var (t, issued) := TryGrant(c, s, s.order[k]);
        OrderIsKnown(c, s, k);
        GrantKeepsRoundInv(c, s, s.order[k]);
        if issued {
          RoundKeepsInv(c, t, k + 1, due - 1, granted + {s.msgs[s.order[k]].sender});
        } else {
          RoundKeepsInv(c, t, k + 1, due, granted);
        }
      }
    }
  }

  /** A round that grants nothing found nobody to grant to: going back to sleep loses no wake-up. */
  lemma {:induction false} IdleRoundFoundNobody(c: Config, s: State, k: nat, due: nat)
    requires RoundInv(c, s) && due > 0
    requires !SendGrantsFrom(c, s, k, due, {}).1
    ensures SendGrantsFrom(c, s, k, due, {}).0 == s
    ensures forall j :: k <= j < |s.order| ==> s.order[j] < |s.msgs| && !Eligible(c, s, s.order[j])
    decreases |s.order| - k
  {
    hide RoundInv, TryGrant, MsgOk, Eligible;
    if k < |s.order| {
      OrderIsKnown(c, s, k);
      GrantIsTried(c, s, s.order[k]);
      IdleRoundFoundNobody(c, s, k + 1, due);
    }
  }

  lemma TickKeepsInv(c: Config, s: State)
    requires Inv(c, s)
    ensures Inv(c, CreditTick(c, s))
  {
    hide MsgsOk, ListOk, CountersOk, SendGrantsFrom, Eligible;
    var (t, issued) := SendGrantsFrom(c, s, 0, c.overcommit, {});
    RoundKeepsInv(c, s, 0, c.overcommit, {});
    var u := CreditTick(c, s);
    assert u == t.(tick := u.tick);
    TickIsIrrelevant(c, t, u);
    if !issued && c.overcommit > 0 {
      IdleRoundFoundNobody(c, s, 0, c.overcommit);
    }
  }

  lemma BusyKeepsInv(c: Config, s: State, sender: nat)
    requires Inv(c, s)
    ensures Inv(c, EnsureCreditTick(c, s.(busy := s.busy + {sender})))
  {
    hide MsgOk, Total, IsActive;
    var t := s.(busy := s.busy + {sender});
    forall other: nat ensures SenderCounterOk(c, t, other) {
      assert SenderCounterOk(c, s, other);
    }
    TickIsEnsured(c, t);
  }

  // ----- runs -----

  // What a step about one message does to it.

  predicate IsAboutMsg(step: Step) {
    !step.Tick? && !step.HearBusy?
  }

  predicate MsgEnabled(m: Msg, step: Step) {
    match step
    case SendRequest(_) => m.request == Unsent
    case DeliverRequest(_, _, _) => m.request == InFlight
    case LoseRequest(_) => m.request == InFlight
    case Tick => false
    case DeliverGrant(_, offset) => offset in m.grants
    case LoseGrant(_, offset) => offset in m.grants
    case Send(_) => CanSend(m)
    case DeliverData(_, offset, _, _) => offset in m.data
    case LoseData(_, offset) => offset in m.data
    case HearBusy(_) => false
  }

  function MsgAfter(m: Msg, step: Step): Msg {
    match step
    case SendRequest(_) => m.(request := InFlight)
    case DeliverRequest(_, _, _) => MadeKnown(m.(request := Arrived))
    case LoseRequest(_) => m.(request := Dropped)
    case DeliverGrant(_, offset) => TakeGrant(m, offset)
    case LoseGrant(_, offset) => m.(grants := m.grants - {offset})
    case Send(_) => SendNext(m)
    case DeliverData(_, offset, _, _) => TakeData(m, offset)
    case LoseData(_, offset) => LoseOne(m, offset)
    case _ => m
  }

  lemma StepTouchesOne(c: Config, s: State, step: Step)
    requires Enabled(c, s, step) && IsAboutMsg(step)
    ensures step.i < |s.msgs| && MsgEnabled(s.msgs[step.i], step)
    ensures Apply(c, s, step).msgs == s.msgs[step.i := MsgAfter(s.msgs[step.i], step)]
    ensures !step.DeliverRequest? && !step.DeliverData? ==> Apply(c, s, step) == s.(msgs := Apply(c, s, step).msgs)
  {
    hide HasGrantOpportunity, Reschedule, RemoveFirst, IsFullyReceived, TakeGrant, TakeData, MadeKnown, SendNext,
         CanSend;
  }

  lemma QuietMsgStep(m: Msg, step: Step)
    requires MsgOk(m) && MsgEnabled(m, step) && !step.DeliverRequest? && !step.DeliverData?
    ensures MsgOk(MsgAfter(m, step)) && SameAtReceiver(m, MsgAfter(m, step))
  {
    if step.DeliverGrant? {
      GrantIsTaken(m, step.offset);
    } else if step.Send? {
      PacketIsSent(m);
    } else if step.LoseData? {
      PacketIsLost(m, step.offset);
    }
  }

  lemma StepKeepsInv(c: Config, s: State, step: Step)
    requires Inv(c, s) && Enabled(c, s, step)
    ensures Inv(c, Apply(c, s, step))
  {
    hide MsgOk, ListOk, CountersOk, AwakeOk, CreditTick, ReceiveData, ReceiveRequest, EnsureCreditTick, MsgAfter,
         MsgEnabled;
    if step.Tick? {
      TickKeepsInv(c, s);
    } else if step.HearBusy? {
      BusyKeepsInv(c, s, step.sender);
    } else if step.DeliverRequest? {
      RequestIsReceived(c, s, step.i, step.position, step.budget);
    } else if step.DeliverData? {
      DataIsReceived(c, s, step.i, step.offset, step.position, step.budget);
    } else {
      StepTouchesOne(c, s, step);
      QuietMsgStep(s.msgs[step.i], step);
      QuietStepKeepsInv(c, s, step.i, MsgAfter(s.msgs[step.i], step));
    }
  }

  lemma NewMsgIsOk(c: Config, sender: nat, size: nat)
    ensures var m := NewMsg(c, sender, size);
      MsgOk(m) && Owed(m) == 0 && Slack(m) == 0 && Leak(m) == 0 && !IsActive(m)
  {
    assert Missing(Unscheduled(c, size), Unscheduled(c, size), {}) == {};
  }

  lemma InitialInv(c: Config, flows: seq<(nat, nat)>)
    ensures Inv(c, Initial(c, flows))
  {
    hide MsgOk, Owed, Slack, Leak, IsActive;
    var s := Initial(c, flows);
    forall i | 0 <= i < |flows|
      ensures MsgOk(s.msgs[i]) && Owed(s.msgs[i]) == 0 && Slack(s.msgs[i]) == 0 && Leak(s.msgs[i]) == 0 &&
              !IsActive(s.msgs[i])
    {
      NewMsgIsOk(c, flows[i].0, flows[i].1);
    }
    forall sender: nat ensures SenderCounterOk(c, s, sender) {
      TotalZero(s.msgs, OwedBy(sender));
      TotalZero(s.msgs, DueBy(sender));
      TotalZero(s.msgs, LeakBy(sender));
    }
  }

  lemma {:induction false} ReachableStatesKeepInv(c: Config, flows: seq<(nat, nat)>, steps: seq<Step>)
    requires StateAfter(c, flows, steps).Some?
    ensures Inv(c, StateAfter(c, flows, steps).value)
    decreases |steps|
  {
    hide Inv, Initial;
    if steps == [] {
      InitialInv(c, flows);
    } else {
      ReachableStatesKeepInv(c, flows, steps[..|steps| - 1]);
      StepKeepsInv(c, StateAfter(c, flows, steps[..|steps| - 1]).value, steps[|steps| - 1]);
    }
  }
}
