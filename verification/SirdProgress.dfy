/** Rounds of grants in the SIRD loop are fair and waste no credit, and every run is finite. */
module SirdProgress {
  import opened MapSums
  import opened SeqSums
  import opened SirdCredit
  import opened SirdProtocol
  import opened Wrappers

  // ----- one round -----

  /** The round as the receiver runs it. */
  method SendAppropriateGrants(c: Config, s: State) returns (t: State, issued: bool)
    requires forall k :: 0 <= k < |s.order| ==> s.order[k] < |s.msgs|
    ensures (t, issued) == SendGrantsFrom(c, s, 0, c.overcommit, {})
  {
    t, issued := s, false;
    var granted: set<nat>, due: nat := {}, c.overcommit;
    for k := 0 to |s.order|
      invariant t.order == s.order && |t.msgs| == |s.msgs|
      invariant SendGrantsFrom(c, s, 0, c.overcommit, {}).0 == SendGrantsFrom(c, t, k, due, granted).0
      invariant SendGrantsFrom(c, s, 0, c.overcommit, {}).1 == (issued || SendGrantsFrom(c, t, k, due, granted).1)
    {
      var i := t.order[k];
      var sender := t.msgs[i].sender;
      if due > 0 && sender !in granted {
        var (u, issuedNow) := TryGrant(c, t, i);
        t := u;
        if issuedNow {
          granted, due, issued := granted + {sender}, due - 1, true;
        }
      }
    }
  }

  /** From s to t grants were issued, none of them to the senders in granted. */
  ghost predicate OnlyGrants(s: State, t: State, due: nat, granted: set<nat>) {
    && t.order == s.order && t.budgets == s.budgets && t.busy == s.busy && |t.msgs| == |s.msgs|
    && s.global <= t.global <= s.global + due
    && (forall sender: nat :: AtMostOne(s, t, granted, sender))
    && (forall i :: 0 <= i < |s.msgs| ==> StillGranted(s, t, i))
  }

  ghost predicate AtMostOne(s: State, t: State, granted: set<nat>, sender: nat) {
    var before := ValueAt(s.inUse, sender);
    before <= ValueAt(t.inUse, sender) <= before + if sender in granted then 0 else 1
  }

  ghost predicate StillGranted(s: State, t: State, i: nat)
    requires i < |s.msgs| == |t.msgs|
  {
    t.msgs[i].sender == s.msgs[i].sender && (IsFullyGranted(s.msgs[i]) ==> IsFullyGranted(t.msgs[i]))
  }

  /** Message i cannot be given more in this round: its sender has had its grant, or credit ran out. */
  ghost predicate Served(c: Config, s: State, t: State, granted: set<nat>, i: nat)
    requires i < |s.msgs| == |t.msgs|
  {
    || s.msgs[i].sender in granted
    || ValueAt(t.inUse, s.msgs[i].sender) > ValueAt(s.inUse, s.msgs[i].sender)
    || !Eligible(c, t, i)
  }

  lemma GrantOnlyGrants(c: Config, s: State, i: nat, granted: set<nat>)
    requires i < |s.msgs| && MsgOk(s.msgs[i]) && s.msgs[i].known && s.msgs[i].sender !in granted
    ensures OnlyGrants(s, TryGrant(c, s, i).0, if Eligible(c, s, i) then 1 else 0, granted)
    ensures Eligible(c, s, i) ==>
      ValueAt(TryGrant(c, s, i).0.inUse, s.msgs[i].sender) == ValueAt(s.inUse, s.msgs[i].sender) + 1
  {
    hide TryGrant;
    GrantIsTried(c, s, i);
  }

  lemma GrantsAddUp(s: State, t: State, u: State, due: nat, granted: set<nat>, sender: nat)
    requires OnlyGrants(s, t, 1, granted) && due > 0 && OnlyGrants(t, u, due - 1, granted + {sender})
    requires ValueAt(t.inUse, sender) == ValueAt(s.inUse, sender) + 1 && sender !in granted
    requires forall other: nat :: other != sender ==> ValueAt(t.inUse, other) == ValueAt(s.inUse, other)
    ensures OnlyGrants(s, u, due, granted)
  {
    forall other: nat ensures AtMostOne(s, u, granted, other) {
      assert AtMostOne(s, t, granted, other) && AtMostOne(t, u, granted + {sender}, other);
    }
    forall i | 0 <= i < |s.msgs| ensures StillGranted(s, u, i) {
      assert StillGranted(s, t, i) && StillGranted(t, u, i);
    }
  }

  lemma CreditOnlyShrinks(c: Config, s: State, t: State, due: nat, granted: set<nat>, i: nat)
    requires OnlyGrants(s, t, due, granted) && i < |s.msgs| && Eligible(c, t, i)
    ensures Eligible(c, s, i)
  {
    assert StillGranted(s, t, i) && AtMostOne(s, t, granted, s.msgs[i].sender);
  }

  lemma OthersKeep(c: Config, s: State, i: nat, other: nat)
    requires i < |s.msgs| && MsgOk(s.msgs[i]) && s.msgs[i].known && other != s.msgs[i].sender
    ensures ValueAt(TryGrant(c, s, i).0.inUse, other) == ValueAt(s.inUse, other)
  {
    hide TryGrant;
    GrantIsTried(c, s, i);
  }

  /** A round issues at most due grants and at most one for each sender. */
  lemma {:induction false} RoundOnlyGrants(c: Config, s: State, k: nat, due: nat, granted: set<nat>)
    requires RoundInv(c, s)
    ensures OnlyGrants(s, SendGrantsFrom(c, s, k, due, granted).0, due, granted)
    decreases |s.order| - k
  {
    hide RoundInv, TryGrant, OnlyGrants, MsgOk, Eligible;
    if k < |s.order| && s.order[k] < |s.msgs| {
      var i := s.order[k];
      var sender := s.msgs[i].sender;
      if due == 0 || sender in granted {
        RoundOnlyGrants(c, s, k + 1, due, granted);
      } else {
        OrderIsKnown(c, s, k);
        GrantKeepsRoundInv(c, s, i);
        GrantIsTried(c, s, i);
        GrantOnlyGrants(c, s, i, granted);
        var (t, issued) := TryGrant(c, s, i);
        if issued {
          RoundOnlyGrants(c, t, k + 1, due - 1, granted + {sender});
          forall other: nat | other != sender ensures ValueAt(t.inUse, other) == ValueAt(s.inUse, other) {
            OthersKeep(c, s, i, other);
          }
          GrantsAddUp(s, t, SendGrantsFrom(c, t, k + 1, due - 1, granted + {sender}).0, due, granted, sender);
        } else {
          RoundOnlyGrants(c, t, k + 1, due, granted);
        }
      }
    } else {
      NoGrants(s, due, granted);
    }
  }

  lemma NoGrants(s: State, due: nat, granted: set<nat>)
    ensures OnlyGrants(s, s, due, granted)
  {
  }

  /** A round that stops short of its limit leaves no message behind that could have been granted. */
  lemma {:induction false} RoundServesAll(c: Config, s: State, k: nat, due: nat, granted: set<nat>)
    requires RoundInv(c, s)
    ensures var t := SendGrantsFrom(c, s, k, due, granted).0;
      |t.msgs| == |s.msgs| &&
      (t.global < s.global + due ==>
         forall j :: k <= j < |s.order| ==> s.order[j] < |s.msgs| && Served(c, s, t, granted, s.order[j]))
    decreases |s.order| - k
  {
    hide RoundInv, TryGrant, OnlyGrants, MsgOk, Eligible;
    var u := SendGrantsFrom(c, s, k, due, granted).0;
    RoundOnlyGrants(c, s, k, due, granted);
    SameLength(s, u, due, granted);
    if k < |s.order| {
      var i := s.order[k];
      OrderIsKnown(c, s, k);
      var sender := s.msgs[i].sender;
      if due == 0 {
        RoundOnlyGrants(c, s, k, 0, granted);
        NothingDue(s, u, granted);
      } else if sender in granted {
        RoundServesAll(c, s, k + 1, due, granted);
      } else {
        OrderIsKnown(c, s, k);
        GrantKeepsRoundInv(c, s, i);
        GrantIsTried(c, s, i);
        GrantOnlyGrants(c, s, i, granted);
        var (t, issued) := TryGrant(c, s, i);
        if issued {
          GrantCounts(c, s, i);
          RoundServesAll(c, t, k + 1, due - 1, granted + {sender});
          RoundOnlyGrants(c, t, k + 1, due - 1, granted + {sender});
          if u.global < s.global + due {
            forall j | k <= j < |s.order| ensures s.order[j] < |s.msgs| && Served(c, s, u, granted, s.order[j]) {
              OrderIsKnown(c, s, j);
              GrantKeeps(s, t, granted, s.order[j], sender);
              KeepsOne(t, u, due - 1, granted + {sender}, sender);
              if s.msgs[s.order[j]].sender != sender {
                OthersKeep(c, s, i, s.msgs[s.order[j]].sender);
              }
            }
          }
        } else {
          RoundServesAll(c, s, k + 1, due, granted);
          RoundOnlyGrants(c, s, k + 1, due, granted);
          if Eligible(c, u, i) {
            CreditOnlyShrinks(c, s, u, due, granted, i);
          }
        }
      }
    }
  }

  lemma SameLength(s: State, t: State, due: nat, granted: set<nat>)
    requires OnlyGrants(s, t, due, granted)
    ensures |t.msgs| == |s.msgs| && t.order == s.order
  {
  }

  lemma NothingDue(s: State, t: State, granted: set<nat>)
    requires OnlyGrants(s, t, 0, granted)
    ensures t.global == s.global
  {
  }

  lemma GrantCounts(c: Config, s: State, i: nat)
    requires i < |s.msgs| && TryGrant(c, s, i).1
    ensures TryGrant(c, s, i).0.global == s.global + 1
  {
  }

  lemma GrantKeeps(s: State, t: State, granted: set<nat>, i: nat, sender: nat)
    requires OnlyGrants(s, t, 1, granted) && i < |s.msgs|
    ensures |t.msgs| == |s.msgs| && t.msgs[i].sender == s.msgs[i].sender
  {
    assert StillGranted(s, t, i);
  }

  lemma KeepsOne(s: State, t: State, due: nat, granted: set<nat>, sender: nat)
    requires OnlyGrants(s, t, due, granted)
    ensures ValueAt(t.inUse, sender) >= ValueAt(s.inUse, sender)
  {
    assert AtMostOne(s, t, granted, sender);
  }

  /** One credit tick: at most overcommit grants, at most one for each sender, and unless the limit
      is reached nobody who could have been granted is left out. */
  lemma TickIsFairAndThrifty(c: Config, s: State, sender: nat, k: nat)
    requires Inv(c, s) && k < |s.order|
    ensures var t := CreditTick(c, s);
      && s.global <= t.global <= s.global + c.overcommit
      && ValueAt(s.inUse, sender) <= ValueAt(t.inUse, sender) <= ValueAt(s.inUse, sender) + 1
      && |t.msgs| == |s.msgs| && s.order[k] < |s.msgs|
      && (t.global < s.global + c.overcommit ==>
            || ValueAt(t.inUse, s.msgs[s.order[k]].sender) > ValueAt(s.inUse, s.msgs[s.order[k]].sender)
            || !Eligible(c, t, s.order[k]))
  {
    hide SendGrantsFrom;
    RoundOnlyGrants(c, s, 0, c.overcommit, {});
    RoundServesAll(c, s, 0, c.overcommit, {});
    var t := SendGrantsFrom(c, s, 0, c.overcommit, {}).0;
    assert AtMostOne(s, t, {}, sender);
    OrderIsKnown(c, s, k);
    if t.global < s.global + c.overcommit {
      assert Served(c, s, t, {}, s.order[k]);
    }
  }

  // ----- runs are bounded -----

  function RequestRank(m: Msg): nat {
    match m.request
    case Unsent => 3
    case InFlight => 2
    case _ => 0
  }

  /** Work left for one message: packets to grant and packets to send count three, packets under way
      two, grants under way one. */
  function Rank(m: Msg): nat {
    RequestRank(m)
      + (if m.size > Granted(m) then 3 * (m.size - Granted(m)) else 0) + |m.grants|
      + (if m.size > m.next then 3 * (m.size - m.next) else 0) + 2 * |m.data|
  }

  function RankOf(): Msg -> nat {
    (m: Msg) => Rank(m)
  }

  ghost function Remaining(s: State): nat {
    Total(s.msgs, RankOf()) + if s.tick then 1 else 0
  }

  lemma {:induction false} RoundLowersRank(c: Config, s: State, k: nat, due: nat, granted: set<nat>)
    requires RoundInv(c, s)
    ensures Total(SendGrantsFrom(c, s, k, due, granted).0.msgs, RankOf())
              + (if SendGrantsFrom(c, s, k, due, granted).1 then 2 else 0) <= Total(s.msgs, RankOf())
    decreases |s.order| - k
  {
    hide RoundInv, TryGrant, MsgOk, Eligible, Rank;
    if k < |s.order| && s.order[k] < |s.msgs| {
      var i := s.order[k];
      if due == 0 || s.msgs[i].sender in granted {
        RoundLowersRank(c, s, k + 1, due, granted);
      } else {
        OrderIsKnown(c, s, k);
        GrantKeepsRoundInv(c, s, i);
        GrantLowersRank(c, s, i);
        GrantIsTried(c, s, i);
        var (t, issued) := TryGrant(c, s, i);
        if issued {
          RoundLowersRank(c, t, k + 1, due - 1, granted + {s.msgs[i].sender});
        } else {
          RoundLowersRank(c, t, k + 1, due, granted);
        }
      }
    }
  }

  lemma GrantLowersRank(c: Config, s: State, i: nat)
    requires i < |s.msgs| && MsgOk(s.msgs[i]) && s.msgs[i].known
    ensures TryGrant(c, s, i).1 ==> Total(TryGrant(c, s, i).0.msgs, RankOf()) + 2 <= Total(s.msgs, RankOf())
  {
    hide TryGrant, Total, Owed;
    GrantIsTried(c, s, i);
    if Eligible(c, s, i) {
      GrantKeepsMsg(c, s, i);
      TotalUpdate(s.msgs, i, TryGrant(c, s, i).0.msgs[i], RankOf());
    }
  }

  lemma TickLowersRemaining(c: Config, s: State)
    requires Inv(c, s) && s.tick
    ensures Remaining(CreditTick(c, s)) < Remaining(s)
  {
    hide SendGrantsFrom;
    RoundLowersRank(c, s, 0, c.overcommit, {});
  }

  lemma FewerGrants(m: Msg, n: Msg, offset: nat)
    requires offset in m.grants && n.grants == m.grants - {offset} && n.data == m.data
    requires n.request == m.request && n.size == m.size && n.next == m.next && Granted(n) == Granted(m)
    ensures Rank(n) + 1 == Rank(m)
  {
  }

  lemma FewerPackets(m: Msg, n: Msg, offset: nat)
    requires offset in m.data && n.data == m.data - {offset} && n.grants == m.grants
    requires n.request == m.request && n.size == m.size && n.next == m.next && Granted(n) == Granted(m)
    ensures Rank(n) + 2 == Rank(m)
  {
  }

  lemma MorePackets(m: Msg)
    requires m.next !in m.data && m.next < m.size
    ensures Rank(SendNext(m)) + 1 == Rank(m)
  {
    assert |m.data + {m.next}| == |m.data| + 1;
  }

  lemma GrantKeepsGranted(m: Msg, offset: nat)
    ensures var n := TakeGrant(m, offset);
      && n.grants == m.grants - {offset} && n.data == m.data && n.request == m.request
      && n.size == m.size && n.next == m.next && Granted(n) == Granted(m)
  {
  }

  lemma QuietRank(m: Msg, step: Step)
    requires MsgOk(m) && MsgEnabled(m, step) && !step.DeliverRequest? && !step.DeliverData?
    ensures Rank(MsgAfter(m, step)) + 1 <= Rank(m)
  {
    if step.SendRequest? || step.LoseRequest? {
    } else {
      hide Rank, MsgOk, TakeGrant, SendNext;
      if step.Send? {
        PacketIsSent(m);
        MorePackets(m);
      } else if step.LoseData? {
        FewerPackets(m, MsgAfter(m, step), step.offset);
      } else {
        GrantKeepsGranted(m, step.offset);
        FewerGrants(m, MsgAfter(m, step), step.offset);
      }
    }
  }

  lemma MsgStepLowersRank(m: Msg, step: Step)
    requires MsgOk(m) && MsgEnabled(m, step)
    ensures Rank(MsgAfter(m, step)) + (if step.DeliverRequest? || step.DeliverData? then 2 else 1) <= Rank(m)
  {
    if step.DeliverData? {
      KnownMsg(m);
      assert |m.data - {step.offset}| == |m.data| - 1;
    } else if step.DeliverRequest? {
    } else {
      QuietRank(m, step);
    }
  }

  lemma MsgIsOk(c: Config, s: State, step: Step)
    requires Inv(c, s) && Enabled(c, s, step) && IsAboutMsg(step)
    ensures step.i < |s.msgs| && MsgOk(s.msgs[step.i])
  {
  }

  lemma BusyKeepsMsgs(c: Config, s: State, step: Step)
    requires Enabled(c, s, step) && step.HearBusy?
    ensures Apply(c, s, step).msgs == s.msgs
  {
  }

  /** Every step but a busy report takes work away. */
  lemma StepLowersRemaining(c: Config, s: State, step: Step)
    requires Inv(c, s) && Enabled(c, s, step)
    ensures Remaining(Apply(c, s, step)) <= Remaining(s) + if step.HearBusy? then 1 else -1
  {
    hide Rank, Inv, Apply, MsgAfter, MsgEnabled, MsgOk;
    if step.Tick? {
      TickIsTaken(c, s);
      TickLowersRemaining(c, s);
    } else if step.HearBusy? {
      BusyKeepsMsgs(c, s, step);
    } else {
      MsgIsOk(c, s, step);
      StepTouchesOne(c, s, step);
      MsgStepLowersRank(s.msgs[step.i], step);
      TotalUpdate(s.msgs, step.i, MsgAfter(s.msgs[step.i], step), RankOf());
    }
  }

  lemma TickIsTaken(c: Config, s: State)
    requires Enabled(c, s, Tick)
    ensures s.tick && Apply(c, s, Tick) == CreditTick(c, s)
  {
  }

  function FlowRank(): ((nat, nat)) -> nat {
    (f: (nat, nat)) => 3 + 6 * f.1
  }

  lemma {:induction false} InitialTotal(c: Config, flows: seq<(nat, nat)>)
    ensures Total(Initial(c, flows).msgs, RankOf()) <= Total(flows, FlowRank())
    decreases |flows|
  {
    if flows == [] {
    } else {
      var last := |flows| - 1;
      InitialTotal(c, flows[..last]);
      assert Initial(c, flows).msgs[..last] == Initial(c, flows[..last]).msgs;
    }
  }

  function BusyReports(steps: seq<Step>): nat {
    if steps == [] then 0 else
      BusyReports(steps[..|steps| - 1]) + if steps[|steps| - 1].HearBusy? then 1 else 0
  }

  lemma {:induction false} RemainingAfter(c: Config, flows: seq<(nat, nat)>, steps: seq<Step>)
    requires StateAfter(c, flows, steps).Some?
    ensures |steps| + Remaining(StateAfter(c, flows, steps).value) <= Remaining(Initial(c, flows)) +
            2 * BusyReports(steps)
    decreases |steps|
  {
    if steps == [] {
    } else {
      hide Remaining, Enabled, Apply;
      var before := steps[..|steps| - 1];
      RemainingAfter(c, flows, before);
      ReachableStatesKeepInv(c, flows, before);
      StepLowersRemaining(c, StateAfter(c, flows, before).value, steps[|steps| - 1]);
    }
  }

  /** Every run is finite: at most three steps for each message, six for each of its packets, and two
      for each busy report. */
  lemma RunsAreBounded(c: Config, flows: seq<(nat, nat)>, steps: seq<Step>)
    requires StateAfter(c, flows, steps).Some?
    ensures |steps| <= Total(flows, FlowRank()) + 2 * BusyReports(steps)
  {
    RemainingAfter(c, flows, steps);
    InitialTotal(c, flows);
  }
}
