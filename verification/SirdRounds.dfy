/** Which messages a round of grants in the SIRD loop serves: the first in the list's order, one for each
    sender that may be given credit, as far as the limits reach. */
module SirdRounds {
  import opened Graphs
  import opened MapSums
  import opened SirdCredit
  import opened SirdProgress
  import opened SirdProtocol

  /** Message i has packets to be granted, and its sender is not busy and has budget left. */
  ghost predicate Wants(c: Config, s: State, i: nat) {
    && i < |s.msgs| && Granted(s.msgs[i]) < s.msgs[i].size && s.msgs[i].sender !in s.busy
    && ValueAt(s.inUse, s.msgs[i].sender) < BudgetOf(c, s, s.msgs[i].sender)
  }

  ghost predicate SameSender(s: State, i: nat, j: nat) {
    i < |s.msgs| && j < |s.msgs| && s.msgs[i].sender == s.msgs[j].sender
  }

  /** Position j is the first, from k on, at which its sender wants a grant. */
  ghost predicate IsCandidate(c: Config, s: State, k: nat, granted: set<nat>, j: nat) {
    && k <= j < |s.order| && Wants(c, s, s.order[j]) && s.msgs[s.order[j]].sender !in granted
    && forall h :: k <= h < j && SameSender(s, s.order[h], s.order[j]) ==> !Wants(c, s, s.order[h])
  }

  ghost function CandidatesBefore(c: Config, s: State, k: nat, granted: set<nat>, j: nat): set<nat> {
    set h: nat | h < j && IsCandidate(c, s, k, granted, h)
  }

  /** How many grants the round may issue. */
  function Room(c: Config, s: State, due: nat): nat {
    var budget := if c.creditBudget > 1 then c.creditBudget else 1;
    var left := if budget > s.global then budget - s.global else 0;
    if due < left then due else left
  }

  ghost predicate IsServed(c: Config, s: State, k: nat, due: nat, granted: set<nat>, j: nat) {
    IsCandidate(c, s, k, granted, j) && |CandidatesBefore(c, s, k, granted, j)| < Room(c, s, due)
  }

  ghost function ServedFrom(c: Config, s: State, k: nat, due: nat, granted: set<nat>): set<nat> {
    set j: nat | k <= j < |s.order| && IsServed(c, s, k, due, granted, j)
  }

  /** One grant for message m, which is n afterwards. */
  ghost predicate OneGrant(m: Msg, n: Msg) {
    && n.grants == m.grants + {Granted(n) - 1} && Granted(n) == Granted(m) + 1 + Slack(m)
    && n == m.(grants := n.grants, hasGranted := true, grantedIdx := n.grantedIdx, grantableIdx := n.grantedIdx)
  }

  ghost predicate PositionIs(c: Config, s: State, t: State, k: nat, due: nat, granted: set<nat>, j: nat)
    requires j < |s.order| && s.order[j] < |s.msgs| == |t.msgs|
  {
    var m, n := s.msgs[s.order[j]], t.msgs[s.order[j]];
    if IsServed(c, s, k, due, granted, j)
    then OneGrant(m, n) && ValueAt(t.inUse, m.sender) == ValueAt(s.inUse, m.sender) + 1
    else n == m
  }

  ghost predicate NoneServed(c: Config, s: State, k: nat, due: nat, granted: set<nat>, sender: nat) {
    forall j :: k <= j < |s.order| && s.order[j] < |s.msgs| && s.msgs[s.order[j]].sender == sender ==>
                  !IsServed(c, s, k, due, granted, j)
  }

  /** The round took s to t: just the served positions, and each of them, got a grant. */
  ghost predicate RoundIs(c: Config, s: State, t: State, k: nat, due: nat, granted: set<nat>) {
    && t.order == s.order && |t.msgs| == |s.msgs| && t.busy == s.busy && t.budgets == s.budgets
    && t.global == s.global + |ServedFrom(c, s, k, due, granted)|
    && (forall j :: k <= j < |s.order| ==> s.order[j] < |s.msgs| && PositionIs(c, s, t, k, due, granted, j))
    && (forall i :: 0 <= i < |s.msgs| && !ListedFrom(s, k, i) ==> t.msgs[i] == s.msgs[i])
    && (forall sender: nat :: NoneServed(c, s, k, due, granted, sender) ==>
                                ValueAt(t.inUse, sender) == ValueAt(s.inUse, sender))
  }

  ghost predicate ListedFrom(s: State, k: nat, i: nat) {
    exists j :: k <= j < |s.order| && s.order[j] == i
  }

  lemma {:induction false} NoRoomNoGrant(c: Config, s: State, k: nat, due: nat, granted: set<nat>)
    requires Room(c, s, due) == 0
    ensures SendGrantsFrom(c, s, k, due, granted) == (s, false)
    decreases |s.order| - k
  {
    if k < |s.order| {
      NoRoomNoGrant(c, s, k + 1, due, granted);
    }
  }

  lemma NothingIsServed(c: Config, s: State, k: nat, due: nat, granted: set<nat>)
    requires RoundInv(c, s) && (Room(c, s, due) == 0 || k >= |s.order|)
    ensures RoundIs(c, s, s, k, due, granted)
  {
    hide Wants, MsgOk, CountersOk;
    assert ServedFrom(c, s, k, due, granted) == {};
    forall j | k <= j < |s.order| ensures s.order[j] < |s.msgs| && PositionIs(c, s, s, k, due, granted, j) {
      OrderIsKnown(c, s, j);
    }
  }

  lemma WantsIsEligible(c: Config, s: State, i: nat, due: nat)
    requires i < |s.msgs| && MsgOk(s.msgs[i]) && s.msgs[i].known && Room(c, s, due) > 0
    ensures Wants(c, s, i) == Eligible(c, s, i)
  {
  }

  // Position k is passed over.

  ghost predicate PassesOver(c: Config, s: State, k: nat, granted: set<nat>)
    requires k < |s.order|
  {
    s.order[k] < |s.msgs| && (s.msgs[s.order[k]].sender in granted || !Wants(c, s, s.order[k]))
  }

  lemma SameCandidate(c: Config, s: State, k: nat, granted: set<nat>, j: nat)
    requires k < |s.order| && PassesOver(c, s, k, granted)
    ensures IsCandidate(c, s, k, granted, j) == IsCandidate(c, s, k + 1, granted, j)
  {
    hide Wants;
  }

  lemma SameServed(c: Config, s: State, k: nat, due: nat, granted: set<nat>, j: nat)
    requires k < |s.order| && PassesOver(c, s, k, granted)
    ensures IsServed(c, s, k, due, granted, j) == IsServed(c, s, k + 1, due, granted, j)
  {
    hide Wants, IsCandidate;
    SameCandidate(c, s, k, granted, j);
    forall h: nat ensures IsCandidate(c, s, k, granted, h) == IsCandidate(c, s, k + 1, granted, h) {
      SameCandidate(c, s, k, granted, h);
    }
    assert CandidatesBefore(c, s, k, granted, j) == CandidatesBefore(c, s, k + 1, granted, j);
  }

  lemma PassedOver(c: Config, s: State, t: State, k: nat, due: nat, granted: set<nat>)
    requires RoundInv(c, s) && k < |s.order| && PassesOver(c, s, k, granted)
    requires RoundIs(c, s, t, k + 1, due, granted)
    ensures RoundIs(c, s, t, k, due, granted)
  {
    hide Wants, MsgOk, CountersOk, IsServed, OneGrant;
    assert !IsServed(c, s, k, due, granted, k) by { NotServed(c, s, k, due, granted); }
    forall j: nat ensures IsServed(c, s, k, due, granted, j) == IsServed(c, s, k + 1, due, granted, j) {
      SameServed(c, s, k, due, granted, j);
    }
    NotListedAgain(s, k);
    assert ServedFrom(c, s, k, due, granted) == ServedFrom(c, s, k + 1, due, granted);
    forall j | k <= j < |s.order| ensures s.order[j] < |s.msgs| && PositionIs(c, s, t, k, due, granted, j) {
      OrderIsKnown(c, s, j);
    }
    forall i | 0 <= i < |s.msgs| && !ListedFrom(s, k, i) ensures t.msgs[i] == s.msgs[i] {
      assert !ListedFrom(s, k + 1, i);
    }
    forall sender: nat | NoneServed(c, s, k, due, granted, sender)
      ensures ValueAt(t.inUse, sender) == ValueAt(s.inUse, sender)
    {
      assert NoneServed(c, s, k + 1, due, granted, sender);
    }
  }

  lemma NotServed(c: Config, s: State, k: nat, due: nat, granted: set<nat>)
    requires k < |s.order| && PassesOver(c, s, k, granted)
    ensures !IsServed(c, s, k, due, granted, k)
  {
  }

  lemma NotListedAgain(s: State, k: nat)
    requires ListOk(s) && k < |s.order|
    ensures !ListedFrom(s, k + 1, s.order[k])
  {
  }

  // Position k is served.

  lemma CandidateAfter(c: Config, s: State, t: State, k: nat, granted: set<nat>, j: nat)
    requires k < |s.order| && ListOk(s) && Wants(c, s, s.order[k]) && s.msgs[s.order[k]].sender !in granted
    requires var i := s.order[k];
      && |t.msgs| == |s.msgs| && t.msgs == s.msgs[i := t.msgs[i]] && t.msgs[i].sender == s.msgs[i].sender
      && t.order == s.order && t.busy == s.busy && t.budgets == s.budgets
      && forall other: nat :: other != s.msgs[i].sender ==> ValueAt(t.inUse, other) == ValueAt(s.inUse, other)
    ensures IsCandidate(c, t, k + 1, granted + {s.msgs[s.order[k]].sender}, j) <==>
            IsCandidate(c, s, k, granted, j) && j != k
    ensures IsCandidate(c, s, k, granted, k)
  {
    hide IsActive, MapSums.ValueAt;
    var sender := s.msgs[s.order[k]].sender;
    forall h | 0 <= h < |s.order| && s.order[h] < |s.msgs| && s.msgs[s.order[h]].sender != sender
      ensures Wants(c, t, s.order[h]) == Wants(c, s, s.order[h])
    {
    }
  }

  lemma ServedAfter(c: Config, s: State, t: State, k: nat, due: nat, granted: set<nat>, j: nat)
    requires k < |s.order| && s.order[k] < |s.msgs| && ListOk(s)
    requires Wants(c, s, s.order[k]) && s.msgs[s.order[k]].sender !in granted
    requires var i := s.order[k];
      && |t.msgs| == |s.msgs| && t.msgs == s.msgs[i := t.msgs[i]] && t.msgs[i].sender == s.msgs[i].sender
      && t.order == s.order && t.busy == s.busy && t.budgets == s.budgets && t.global == s.global + 1
      && forall other: nat :: other != s.msgs[i].sender ==> ValueAt(t.inUse, other) == ValueAt(s.inUse, other)
    requires Room(c, s, due) > 0
    ensures IsServed(c, s, k, due, granted, k)
    ensures j > k ==> IsServed(c, s, k, due, granted, j) ==
                      IsServed(c, t, k + 1, due - 1, granted + {s.msgs[s.order[k]].sender}, j)
  {
    hide Wants, IsCandidate, ListOk, MapSums.ValueAt;
    var more := granted + {s.msgs[s.order[k]].sender};
    CandidateAfter(c, s, t, k, granted, j);
    forall h: nat ensures IsCandidate(c, t, k + 1, more, h) <==> IsCandidate(c, s, k, granted, h) && h != k {
      CandidateAfter(c, s, t, k, granted, h);
    }
    NoneBefore(c, s, k, granted);
    if j > k {
      assert CandidatesBefore(c, s, k, granted, j) == CandidatesBefore(c, t, k + 1, more, j) + {k};
    }
  }

  lemma NoneBefore(c: Config, s: State, k: nat, granted: set<nat>)
    ensures CandidatesBefore(c, s, k, granted, k) == {}
  {
  }

  lemma ServedOne(c: Config, s: State, t: State, u: State, k: nat, due: nat, granted: set<nat>)
    requires RoundInv(c, s) && k < |s.order| && due > 0 && Room(c, s, due) > 0
    requires Wants(c, s, s.order[k]) && s.msgs[s.order[k]].sender !in granted
    requires (t, true) == TryGrant(c, s, s.order[k])
    requires RoundIs(c, t, u, k + 1, due - 1, granted + {s.msgs[s.order[k]].sender})
    ensures RoundIs(c, s, u, k, due, granted)
  {
    hide Wants, MsgOk, CountersOk, IsServed, TryGrant, OneGrant, Eligible, ListedFrom, PositionIs, NoneServed, Room;
    OrderIsKnown(c, s, k);
    var i := s.order[k];
    var sender := s.msgs[i].sender;
    GrantedOnce(c, s, i);
    forall other: nat | other != sender ensures ValueAt(t.inUse, other) == ValueAt(s.inUse, other) {
      OthersKeep(c, s, i, other);
    }
    forall j: nat
      ensures IsServed(c, s, k, due, granted, k)
      ensures j > k ==> IsServed(c, s, k, due, granted, j) == IsServed(c, t, k + 1, due - 1, granted + {sender}, j)
    {
      ServedAfter(c, s, t, k, due, granted, j);
    }
    assert ServedFrom(c, s, k, due, granted) == ServedFrom(c, t, k + 1, due - 1, granted + {sender}) + {k};
    forall j | k <= j < |s.order| ensures s.order[j] < |s.msgs| && PositionIs(c, s, u, k, due, granted, j) {
      OrderIsKnown(c, s, j);
      ServedOnce(c, s, t, u, k, due, granted, j);
    }
    forall h | 0 <= h < |s.msgs| && !ListedFrom(s, k, h) ensures u.msgs[h] == s.msgs[h] {
      NotListedLater(s, t, k, h);
    }
    forall other: nat | NoneServed(c, s, k, due, granted, other)
      ensures ValueAt(u.inUse, other) == ValueAt(s.inUse, other)
    {
      NoneServedLater(c, s, t, k, due, granted, other);
    }
  }

  lemma NotListedLater(s: State, t: State, k: nat, h: nat)
    requires k < |s.order| && t.order == s.order && !ListedFrom(s, k, h)
    ensures !ListedFrom(t, k + 1, h) && h != s.order[k]
  {
  }

  lemma NoneServedLater(c: Config, s: State, t: State, k: nat, due: nat, granted: set<nat>, other: nat)
    requires k < |s.order| && s.order[k] < |s.msgs| == |t.msgs| && t.order == s.order && due > 0
    requires t.msgs == s.msgs[s.order[k] := t.msgs[s.order[k]]]
    requires t.msgs[s.order[k]].sender == s.msgs[s.order[k]].sender
    requires IsServed(c, s, k, due, granted, k)
    requires forall j: nat :: j > k ==>
               IsServed(c, s, k, due, granted, j) ==
               IsServed(c, t, k + 1, due - 1, granted + {s.msgs[s.order[k]].sender}, j)
    requires NoneServed(c, s, k, due, granted, other)
    ensures other != s.msgs[s.order[k]].sender
    ensures NoneServed(c, t, k + 1, due - 1, granted + {s.msgs[s.order[k]].sender}, other)
  {
    hide IsServed;
  }

  lemma ServedOnce(c: Config, s: State, t: State, u: State, k: nat, due: nat, granted: set<nat>, j: nat)
    requires 0 < due && k <= j < |s.order| && s.order[k] < |s.msgs| && s.order[j] < |s.msgs|
    requires ListOk(s) && |t.msgs| == |s.msgs| && t.order == s.order
    requires var i := s.order[k];
      && t.msgs == s.msgs[i := t.msgs[i]] && OneGrant(s.msgs[i], t.msgs[i])
      && ValueAt(t.inUse, s.msgs[i].sender) == ValueAt(s.inUse, s.msgs[i].sender) + 1
      && forall other: nat :: other != s.msgs[i].sender ==> ValueAt(t.inUse, other) == ValueAt(s.inUse, other)
    requires IsServed(c, s, k, due, granted, k)
    requires j > k ==> IsServed(c, s, k, due, granted, j) ==
                       IsServed(c, t, k + 1, due - 1, granted + {s.msgs[s.order[k]].sender}, j)
    requires RoundIs(c, t, u, k + 1, due - 1, granted + {s.msgs[s.order[k]].sender})
    ensures |u.msgs| == |s.msgs| && PositionIs(c, s, u, k, due, granted, j)
  {
    var i, more := s.order[k], granted + {s.msgs[s.order[k]].sender};
    if j == k {
      hide IsServed, Wants, OneGrant, ListOk;
      NotListedAgain(s, k);
      assert !ListedFrom(t, k + 1, i);
      SenderIsDone(c, t, k + 1, due - 1, more, s.msgs[i].sender);
    } else {
      assert PositionIs(c, t, u, k + 1, due - 1, more, j);
      assert s.order[j] != i;
      if IsServed(c, s, k, due, granted, j) {
        assert t.msgs[t.order[j]].sender !in more;
      }
    }
  }

  lemma SenderIsDone(c: Config, s: State, k: nat, due: nat, granted: set<nat>, sender: nat)
    requires sender in granted
    ensures NoneServed(c, s, k, due, granted, sender)
  {
  }

  lemma GrantedOnce(c: Config, s: State, i: nat)
    requires i < |s.msgs| && MsgOk(s.msgs[i]) && s.msgs[i].known && TryGrant(c, s, i).1
    ensures var t := TryGrant(c, s, i).0;
      && |t.msgs| == |s.msgs| && t.msgs == s.msgs[i := t.msgs[i]] && OneGrant(s.msgs[i], t.msgs[i])
      && t.msgs[i].sender == s.msgs[i].sender && t.order == s.order && t.busy == s.busy && t.budgets == s.budgets
      && t.global == s.global + 1
      && ValueAt(t.inUse, s.msgs[i].sender) == ValueAt(s.inUse, s.msgs[i].sender) + 1
  {
    hide TryGrant, MsgOk, Slack, Granted;
    GrantIsTried(c, s, i);
  }

  lemma {:induction false} RoundServesFirst(c: Config, s: State, k: nat, due: nat, granted: set<nat>)
    requires RoundInv(c, s)
    ensures RoundIs(c, s, SendGrantsFrom(c, s, k, due, granted).0, k, due, granted)
    ensures SendGrantsFrom(c, s, k, due, granted).1 <==> SendGrantsFrom(c, s, k, due, granted).0.global > s.global
    decreases |s.order| - k
  {
    hide RoundInv, TryGrant, MsgOk, Eligible, RoundIs, Wants;
    if Room(c, s, due) == 0 || k >= |s.order| {
      NothingIsServed(c, s, k, due, granted);
      NoRoomNoGrant'(c, s, k, due, granted);
    } else {
      var i := s.order[k];
      OrderIsKnown(c, s, k);
      WantsIsEligible(c, s, i, due);
      GrantIsTried(c, s, i);
      if s.msgs[i].sender in granted || !Wants(c, s, i) {
        RoundServesFirst(c, s, k + 1, due, granted);
        PassedOver(c, s, SendGrantsFrom(c, s, k + 1, due, granted).0, k, due, granted);
      } else {
        GrantKeepsRoundInv(c, s, i);
        var t := TryGrant(c, s, i).0;
        var more := granted + {s.msgs[i].sender};
        RoundServesFirst(c, t, k + 1, due - 1, more);
        ServedOne(c, s, t, SendGrantsFrom(c, t, k + 1, due - 1, more).0, k, due, granted);
        GlobalRises(c, t, SendGrantsFrom(c, t, k + 1, due - 1, more).0, k + 1, due - 1, more);
      }
    }
  }

  lemma NoRoomNoGrant'(c: Config, s: State, k: nat, due: nat, granted: set<nat>)
    requires Room(c, s, due) == 0 || k >= |s.order|
    ensures SendGrantsFrom(c, s, k, due, granted) == (s, false)
  {
    if k < |s.order| {
      NoRoomNoGrant(c, s, k, due, granted);
    }
  }

  lemma GlobalRises(c: Config, s: State, t: State, k: nat, due: nat, granted: set<nat>)
    requires RoundIs(c, s, t, k, due, granted)
    ensures t.global >= s.global
  {
  }

  // ----- the tick -----

  /** Credit is left in all, and a listed message wants it. */
  ghost predicate SomeoneWaits(c: Config, s: State) {
    && s.global < (if c.creditBudget > 1 then c.creditBudget else 1)
    && exists k :: 0 <= k < |s.order| && Wants(c, s, s.order[k])
  }

  lemma WaitsIsOpportunity(c: Config, s: State)
    requires RoundInv(c, s)
    ensures HasGrantOpportunity(c, s) <==> SomeoneWaits(c, s)
  {
    hide RoundInv, Eligible, Wants, MsgOk;
    if s.global < GlobalBudget(c) {
      forall k | 0 <= k < |s.order|
        ensures s.order[k] < |s.msgs| && Wants(c, s, s.order[k]) == Eligible(c, s, s.order[k])
      {
        OrderIsKnown(c, s, k);
        WantsIsEligible(c, s, s.order[k], 1);
      }
    }
  }

  /** A tick grants one packet, and where arrivals have moved the window on the packets up to there, to the
      first of the messages in the list's order: to one of each sender that is not busy and has budget
      left, as far as the overcommitment level and the credit left in all reach. Nothing else changes.
      The next tick is scheduled exactly if something was granted and somebody waits for more. */
  lemma TickServesFirst(c: Config, s: State)
    requires Inv(c, s)
    ensures RoundIs(c, s, CreditTick(c, s), 0, c.overcommit, {})
    ensures CreditTick(c, s).tick <==> CreditTick(c, s).global > s.global && SomeoneWaits(c, CreditTick(c, s))
  {
    hide RoundInv, SendGrantsFrom, Wants, HasGrantOpportunity, RoundIs;
    var (t, issued) := SendGrantsFrom(c, s, 0, c.overcommit, {});
    InvGivesRoundInv(c, s);
    RoundServesFirst(c, s, 0, c.overcommit, {});
    RoundKeepsInv(c, s, 0, c.overcommit, {});
    WaitsIsOpportunity(c, t);
    FlagIsIrrelevant(c, s, t, CreditTick(c, s));
  }

  lemma InvGivesRoundInv(c: Config, s: State)
    requires Inv(c, s)
    ensures RoundInv(c, s)
  {
  }

  lemma FlagIsIrrelevant(c: Config, s: State, t: State, u: State)
    requires u == t.(tick := u.tick) && RoundIs(c, s, t, 0, c.overcommit, {})
    ensures RoundIs(c, s, u, 0, c.overcommit, {}) && SomeoneWaits(c, u) == SomeoneWaits(c, t)
  {
    hide IsServed, ListedFrom, OneGrant;
    assert forall i: nat :: Wants(c, u, i) == Wants(c, t, i);
    assert forall j | 0 <= j < |s.order| :: PositionIs(c, s, t, 0, c.overcommit, {}, j) ==
                                            PositionIs(c, s, u, 0, c.overcommit, {}, j);
  }

  /** Outside of ticks, a tick gets scheduled exactly when something arrives and somebody waits. */
  lemma TickIsScheduledIff(c: Config, s: State, step: Step)
    requires Inv(c, s) && Enabled(c, s, step) && !step.Tick?
    ensures var t := Apply(c, s, step);
      t.tick <==> s.tick || ((step.DeliverData? || step.DeliverRequest? || step.HearBusy?) && SomeoneWaits(c, t))
  {
    hide Inv, MsgAfter, MsgEnabled, SomeoneWaits, HasGrantOpportunity, Reschedule, RemoveFirst, TakeData, MadeKnown,
         TakeGrant, SendNext, CanSend, IsFullyReceived;
    StepKeepsInv(c, s, step);
    var t := Apply(c, s, step);
    InvGivesRoundInv(c, t);
    WaitsIsOpportunity(c, t);
    if step.DeliverData? || step.DeliverRequest? || step.HearBusy? {
      ScheduledByEnsure(c, t.(tick := s.tick));
    } else {
      StepTouchesOne(c, s, step);
    }
  }

  lemma ScheduledByEnsure(c: Config, s: State)
    ensures var t := EnsureCreditTick(c, s);
      (t.tick <==> s.tick || HasGrantOpportunity(c, s)) && HasGrantOpportunity(c, t) == HasGrantOpportunity(c, s)
  {
    var t := EnsureCreditTick(c, s);
    assert forall i :: 0 <= i < |s.msgs| ==> Eligible(c, t, i) == Eligible(c, s, i);
  }
}
