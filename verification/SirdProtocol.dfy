/** The receiver-driven credit loop of the SIRD transport (src/internet/model/homa-l4-protocol.cc):
    senders, a network that delays, reorders and may lose packets, and one receiver that grants
    one packet of credit at a time out of a global and a per-sender budget. Long messages wait for
    a first grant; the others may send up to one bandwidth-delay product unasked. Nothing is
    retransmitted. */
module SirdProtocol {
  import opened MapSums
  import opened Wrappers

  /** The attributes, in packets: the credit budget over all senders, the bandwidth-delay product,
      the longest message that need not wait for a grant; and the overcommitment level. */
  datatype Config = Config(creditBudget: nat, bdp: nat, threshold: nat, overcommit: nat)

  function AtLeastOne(n: nat): nat {
    if n > 1 then n else 1
  }

  function GlobalBudget(c: Config): nat {
    AtLeastOne(c.creditBudget)
  }

  function SenderBudget(c: Config): nat {
    AtLeastOne(c.bdp)
  }

  predicate IsLong(c: Config, size: nat) {
    size > AtLeastOne(c.threshold)
  }

  /** How many packets of a message may be sent without a grant. With a bandwidth-delay product of
      zero the 16-bit window index wraps and the whole message may be sent. */
  function Unscheduled(c: Config, size: nat): nat {
    if IsLong(c, size) then 0 else if c.bdp == 0 || size < c.bdp then size else c.bdp
  }

  datatype Request = NotNeeded | Unsent | InFlight | Arrived | Dropped

  /** Both ends of one message and its packets under way.
      Sender: how many packets it may send unasked, whether it waits for a first grant, the highest
      index it may send, the credit held, the next packet to send. Network: the grants and data
      packets under way and the data packets lost, by index. Receiver: whether the message is known,
      whether it counts as granted, the highest index granted and grantable, and what has arrived. */
  datatype Msg = Msg(
    sender: nat, size: nat, unsched: nat,
    request: Request, waiting: bool, sendIdx: nat, held: nat, next: nat,
    grants: set<nat>, data: set<nat>, lost: set<nat>,
    known: bool, hasGranted: bool, grantedIdx: nat, grantableIdx: nat, received: set<nat>)

  /** order lists the active inbound messages, busy the senders that reported to be busy; tick says
      whether a credit tick is scheduled. */
  datatype State = State(
    msgs: seq<Msg>, order: seq<nat>, busy: set<nat>,
    inUse: map<nat, nat>, global: nat, budgets: map<nat, nat>, tick: bool)

  // ----- the sender -----

  function NewMsg(c: Config, sender: nat, size: nat): Msg {
    var unsched := Unscheduled(c, size);
    var long := IsLong(c, size);
    Msg(sender, size, unsched,
        if long then Unsent else NotNeeded, long, if unsched > 0 then unsched - 1 else 0, unsched, 0,
        {}, {}, {}, false, false, 0, 0, {})
  }

  function Min(a: nat, b: nat): nat {
    if a < b then a else b
  }

  /** A grant raises the window to its index unless a later grant has done so already; the credit
      held grows by as many packets as the window did. */
  function HandleGrantOffset(m: Msg, offset: nat): Msg {
    var before := if m.waiting then 0 else Min(m.sendIdx + 1, m.size);
    var waiting := m.waiting && offset < m.sendIdx;
    var sendIdx := if offset > m.sendIdx then offset else m.sendIdx;
    var after := if waiting then 0 else Min(sendIdx + 1, m.size);
    m.(waiting := waiting, sendIdx := sendIdx, held := if after > before then m.held + (after - before) else m.held)
  }

  function TakeGrant(m: Msg, offset: nat): Msg {
    HandleGrantOffset(m.(grants := m.grants - {offset}), offset)
  }

  predicate CanSend(m: Msg) {
    !m.waiting && m.next <= m.sendIdx && m.next < m.size
  }

  function SendNext(m: Msg): Msg {
    m.(data := m.data + {m.next}, next := m.next + 1, held := if m.held > 0 then m.held - 1 else 0)
  }

  // ----- one inbound message -----

  predicate IsFullyReceived(m: Msg) {
    forall i :: 0 <= i < m.size ==> i in m.received
  }

  predicate IsFullyGranted(m: Msg) {
    m.hasGranted && m.grantedIdx + 1 >= m.size
  }

  predicate IsGrantable(m: Msg) {
    if m.hasGranted then m.grantedIdx < m.grantableIdx else m.size > 0 && m.grantableIdx < m.size
  }

  function AdvanceGrantableWindow(m: Msg): Msg {
    if m.size == 0 || IsFullyGranted(m) then m else
      var base := if m.hasGranted then m.grantedIdx + 1 else 0;
      var advanced := Min(m.size - 1, base);
      if advanced <= m.grantableIdx then m else m.(grantableIdx := advanced)
  }

  /** The grant carries the grantable index and is on its way to the sender. */
  function GenerateGrant(m: Msg): Msg {
    var offset := if m.size == 0 then 0 else Min(m.grantableIdx, m.size - 1);
    m.(grants := m.grants + {offset}, grantedIdx := offset, hasGranted := true)
  }

  /** The receiver's state for a message it hears of for the first time: what need not be granted
      counts as granted, and one packet more as grantable. */
  function MadeKnown(m: Msg): Msg {
    if m.known then m
    else if m.unsched == 0 then m.(known := true)
    else m.(known := true, hasGranted := true, grantedIdx := m.unsched - 1, grantableIdx := m.unsched)
  }

  /** A packet joins its message. Where credit alone does not drive the window, each packet after
      the one that made the message known moves the window on. */
  function TakeData(m: Msg, offset: nat): Msg {
    var n := MadeKnown(m).(data := m.data - {offset}, received := m.received + {offset});
    if !m.known || m.unsched == 0 || n.grantableIdx + 1 >= n.size then n
    else n.(grantableIdx := n.grantableIdx + 1)
  }

  // ----- granting -----

  function BudgetOf(c: Config, s: State, sender: nat): nat {
    if sender in s.budgets then s.budgets[sender] else SenderBudget(c)
  }

  /** A message that may be given credit now. */
  predicate Eligible(c: Config, s: State, i: nat)
    requires i < |s.msgs|
  {
    var sender := s.msgs[i].sender;
    && !IsFullyGranted(s.msgs[i]) && sender !in s.busy
    && BudgetOf(c, s, sender) > ValueAt(s.inUse, sender) && GlobalBudget(c) > s.global
  }

  predicate HasGrantOpportunity(c: Config, s: State) {
    && GlobalBudget(c) > s.global
    && exists k :: 0 <= k < |s.order| && s.order[k] < |s.msgs| && Eligible(c, s, s.order[k])
  }

  /** What the loop does for one message whose sender has not been granted in this round. */
  function TryGrant(c: Config, s: State, i: nat): (State, bool)
    requires i < |s.msgs|
  {
    if !Eligible(c, s, i) then (s, false) else
      var m := if IsGrantable(s.msgs[i]) then s.msgs[i] else AdvanceGrantableWindow(s.msgs[i]);
      if !IsGrantable(m) then (s.(msgs := s.msgs[i := m]), false)
      else
        (s.(msgs := s.msgs[i := GenerateGrant(m)],
            inUse := s.inUse[m.sender := ValueAt(s.inUse, m.sender) + 1],
            global := s.global + 1), true)
  }

  /** The round over the active messages from position k on: at most `due` grants, at most one for
      each sender. */
  function SendGrantsFrom(c: Config, s: State, k: nat, due: nat, granted: set<nat>): (State, bool)
    decreases |s.order| - k
  {
    if k >= |s.order| || s.order[k] >= |s.msgs| then (s, false)
    else if due == 0 || s.msgs[s.order[k]].sender in granted then
      SendGrantsFrom(c, s, k + 1, due, granted)
    else
      var (t, issued) := TryGrant(c, s, s.order[k]);
      if issued then (SendGrantsFrom(c, t, k + 1, due - 1, granted + {s.msgs[s.order[k]].sender}).0, true)
      else SendGrantsFrom(c, t, k + 1, due, granted)
  }

  function CreditTick(c: Config, s: State): State {
    var (t, issued) := SendGrantsFrom(c, s, 0, c.overcommit, {});
    t.(tick := issued && HasGrantOpportunity(c, t))
  }

  function EnsureCreditTick(c: Config, s: State): State {
    if s.tick || !HasGrantOpportunity(c, s) then s else s.(tick := true)
  }

  // ----- receiving -----

  function RemoveFirst(q: seq<nat>, i: nat): seq<nat> {
    if q == [] then [] else if q[0] == i then q[1..] else [q[0]] + RemoveFirst(q[1..], i)
  }

  /** The active list with message i at the given position: any position, as both the order by
      remaining bytes and the round-robin order are special cases. */
  function Reschedule(q: seq<nat>, i: nat, position: nat): seq<nat> {
    var rest := RemoveFirst(q, i);
    var at := Min(position, |rest|);
    rest[..at] + [i] + rest[at..]
  }

  function Reclaim(s: State, sender: nat): State {
    if ValueAt(s.inUse, sender) > 0
    then s.(inUse := s.inUse[sender := ValueAt(s.inUse, sender) - 1],
         global := if s.global > 0 then s.global - 1 else 0)
    else s
  }

  /** A data packet, granted or not, returns one credit of its sender if any is out, may move the
      sender's budget, and joins its message, which leaves the active list when complete. */
  function ReceiveData(c: Config, s: State, i: nat, offset: nat, position: nat, budget: nat): State
    requires i < |s.msgs|
  {
    var m := TakeData(s.msgs[i], offset);
    var t := Reclaim(s, m.sender).(
             msgs := s.msgs[i := m], budgets := s.budgets[m.sender := budget], busy := s.busy - {m.sender},
             order := if IsFullyReceived(m) then RemoveFirst(s.order, i) else Reschedule(s.order, i, position));
    EnsureCreditTick(c, t)
  }

  /** The zero-payload packet that announces a long message; it too may move the sender's budget. */
  function ReceiveRequest(c: Config, s: State, i: nat, position: nat, budget: nat): State
    requires i < |s.msgs|
  {
    var m := MadeKnown(s.msgs[i].(request := Arrived));
    var t := s.(msgs := s.msgs[i := m], budgets := s.budgets[m.sender := budget], busy := s.busy - {m.sender},
                order := Reschedule(s.order, i, position));
    EnsureCreditTick(c, t)
  }

  // ----- the steps of the system -----

  datatype Step =
    | SendRequest(i: nat)
    | DeliverRequest(i: nat, position: nat, budget: nat)
    | LoseRequest(i: nat)
    | Tick
    | DeliverGrant(i: nat, offset: nat)
    | LoseGrant(i: nat, offset: nat)
    | Send(i: nat)
    | DeliverData(i: nat, offset: nat, position: nat, budget: nat)
    | LoseData(i: nat, offset: nat)
    | HearBusy(sender: nat)

  predicate Enabled(c: Config, s: State, step: Step) {
    match step
    case SendRequest(i) => i < |s.msgs| && s.msgs[i].request == Unsent
    case DeliverRequest(i, _, budget) =>
      i < |s.msgs| && s.msgs[i].request == InFlight && 1 <= budget <= SenderBudget(c)
    case LoseRequest(i) => i < |s.msgs| && s.msgs[i].request == InFlight
    case Tick => s.tick
    case DeliverGrant(i, offset) => i < |s.msgs| && offset in s.msgs[i].grants
    case LoseGrant(i, offset) => i < |s.msgs| && offset in s.msgs[i].grants
    case Send(i) => i < |s.msgs| && CanSend(s.msgs[i])
    case DeliverData(i, offset, _, budget) =>
      i < |s.msgs| && offset in s.msgs[i].data && 1 <= budget <= SenderBudget(c)
    case LoseData(i, offset) => i < |s.msgs| && offset in s.msgs[i].data
    case HearBusy(_) => true
  }

  function Apply(c: Config, s: State, step: Step): State
    requires Enabled(c, s, step)
  {
    match step
    case SendRequest(i) => s.(msgs := s.msgs[i := s.msgs[i].(request := InFlight)])
    case DeliverRequest(i, position, budget) => ReceiveRequest(c, s, i, position, budget)
    case LoseRequest(i) => s.(msgs := s.msgs[i := s.msgs[i].(request := Dropped)])
    case Tick => CreditTick(c, s)
    case DeliverGrant(i, offset) => s.(msgs := s.msgs[i := TakeGrant(s.msgs[i], offset)])
    case LoseGrant(i, offset) => s.(msgs := s.msgs[i := s.msgs[i].(grants := s.msgs[i].grants - {offset})])
    case Send(i) => s.(msgs := s.msgs[i := SendNext(s.msgs[i])])
    case DeliverData(i, offset, position, budget) => ReceiveData(c, s, i, offset, position, budget)
    case LoseData(i, offset) => s.(msgs := s.msgs[i := LoseOne(s.msgs[i], offset)])
    case HearBusy(sender) => EnsureCreditTick(c, s.(busy := s.busy + {sender}))
  }

  function LoseOne(m: Msg, offset: nat): Msg {
    m.(data := m.data - {offset}, lost := m.lost + {offset})
  }

  /** A run starts with messages given by (sender, size in packets). */
  function Initial(c: Config, flows: seq<(nat, nat)>): State {
    State(seq(|flows|, i requires 0 <= i < |flows| => NewMsg(c, flows[i].0, flows[i].1)),
          [], {}, map[], 0, map[], false)
  }

  /** The state after the given steps, unless one of them could not be taken. */
  ghost function StateAfter(c: Config, flows: seq<(nat, nat)>, steps: seq<Step>): Option<State> {
    if steps == [] then Some(Initial(c, flows)) else
      var before := StateAfter(c, flows, steps[..|steps| - 1]);
      if before.Some? && Enabled(c, before.value, steps[|steps| - 1])
      then Some(Apply(c, before.value, steps[|steps| - 1])) else None
  }
}
