/** The feedback loop by which the SIRD receiver sets one sender's credit budget from congestion
    marks (src/internet/model/homa-l4-protocol.cc), over exact reals. */
module SirdBudget {
  import opened RealOrder

  /** One signal (network marks or sender marks): its budget, its smoothed mark ratio, and the
      packets and marks seen in the current epoch. */
  datatype Signal = Signal(budget: real, ratio: real, packets: nat, marks: nat)

  function Fresh(base: nat): Signal {
    Signal(base as real, 0.0, 0, 0)
  }

  function Clamp(base: nat, budget: real): real {
    var low := if budget < base as real then budget else base as real;
    if low > 1.0 then low else 1.0
  }

  function Share(part: nat, whole: nat): real
    requires whole > 0
  {
    part as real / whole as real
  }

  function Smoothed(gain: real, ratio: real, share: real): real {
    (1.0 - gain) * ratio + gain * share
  }

  function Cut(budget: real, ratio: real): real {
    budget * (1.0 - ratio / 2.0)
  }

  /** The end of an epoch: the ratio moves toward the share of marked packets; a marked epoch cuts the
      budget by half that ratio, a clean one adds a packet. */
  function EndEpoch(base: nat, gain: real, s: Signal): Signal
    requires s.packets > 0
  {
    var ratio := Smoothed(gain, s.ratio, Share(s.marks, s.packets));
    Signal(Clamp(base, if s.marks > 0 then Cut(s.budget, ratio) else s.budget + 1.0), ratio, 0, 0)
  }

  /** One packet; an epoch is base packets long. */
  function Observe(base: nat, gain: real, s: Signal, marked: bool): Signal {
    var t := s.(packets := s.packets + 1, marks := s.marks + if marked then 1 else 0);
    if t.packets >= base then EndEpoch(base, gain, t) else t
  }

  function ObserveAll(base: nat, gain: real, s: Signal, marks: seq<bool>): Signal {
    if marks == [] then s else
      Observe(base, gain, ObserveAll(base, gain, s, marks[..|marks| - 1]), marks[|marks| - 1])
  }

  /** The state the receiver keeps for one sender. */
  class SenderLoop {
    const base: nat
    const gain: real
    var netBudget: real
    var hostBudget: real
    var netRatio: real
    var hostRatio: real
    var epochPackets: nat
    var epochCeMarks: nat
    var epochCsnMarks: nat

    constructor (bdp: nat, gain: real)
      ensures this.base == (if bdp > 1 then bdp else 1) && this.gain == gain
      ensures Net() == Fresh(base) && Host() == Fresh(base)
      ensures netBudget == hostBudget == base as real && netRatio == hostRatio == 0.0
      ensures epochPackets == epochCeMarks == epochCsnMarks == 0
    {
      base := if bdp > 1 then bdp else 1;
      this.gain := gain;
      netBudget, hostBudget := (if bdp > 1 then bdp else 1) as real, (if bdp > 1 then bdp else 1) as real;
      netRatio, hostRatio := 0.0, 0.0;
      epochPackets, epochCeMarks, epochCsnMarks := 0, 0, 0;
    }

    function Net(): Signal
      reads this
    {
      Signal(netBudget, netRatio, epochPackets, epochCeMarks)
    }

    function Host(): Signal
      reads this
    {
      Signal(hostBudget, hostRatio, epochPackets, epochCsnMarks)
    }

    /** The whole packets of credit the sender may have outstanding: the most that fit both budgets. */
    function Budget(): (packets: int)
      reads this
      ensures netBudget >= 1.0 && hostBudget >= 1.0 ==>
        && packets as real <= netBudget && packets as real <= hostBudget
        && (netBudget < (packets + 1) as real || hostBudget < (packets + 1) as real)
    {
      var least := if netBudget < hostBudget then netBudget else hostBudget;
      (if least > 1.0 then least else 1.0).Floor
    }

    method ReceivePacket(ceMarked: bool, senderCsn: bool)
      modifies this
      ensures Net() == Observe(base, gain, old(Net()), ceMarked)
      ensures Host() == Observe(base, gain, old(Host()), senderCsn)
    {
      epochPackets := epochPackets + 1;
      if ceMarked {
        epochCeMarks := epochCeMarks + 1;
      }
      if senderCsn {
        epochCsnMarks := epochCsnMarks + 1;
      }
      if epochPackets >= base {
        netRatio := Smoothed(gain, netRatio, Share(epochCeMarks, epochPackets));
        hostRatio := Smoothed(gain, hostRatio, Share(epochCsnMarks, epochPackets));
        if epochCeMarks > 0 {
          netBudget := Clamp(base, Cut(netBudget, netRatio));
        } else {
          netBudget := Clamp(base, netBudget + 1.0);
        }
        if epochCsnMarks > 0 {
          hostBudget := Clamp(base, Cut(hostBudget, hostRatio));
        } else {
          hostBudget := Clamp(base, hostBudget + 1.0);
        }
        epochPackets, epochCeMarks, epochCsnMarks := 0, 0, 0;
      }
    }

    /** What SirdProtocol assumes of a budget. */
    lemma BudgetIsLegal(ce: seq<bool>, csn: seq<bool>)
      requires base >= 1 && 0.0 <= gain <= 1.0
      requires Net() == ObserveAll(base, gain, Fresh(base), ce) && Host() == ObserveAll(base, gain, Fresh(base), csn)
      ensures 1 <= Budget() <= base
    {
      StaysInRange(base, gain, ce);
      StaysInRange(base, gain, csn);
    }
  }

  // ----- over all packets -----

  ghost predicate InRange(base: nat, s: Signal) {
    1.0 <= s.budget <= base as real && 0.0 <= s.ratio <= 1.0 && s.packets < base && s.marks <= s.packets
  }

  lemma ShareGrows(part: nat, more: nat, whole: nat)
    requires part <= more <= whole && whole > 0
    ensures 0.0 <= Share(part, whole) <= Share(more, whole) <= 1.0
  {
    var inverse := 1.0 / whole as real;
    assert Share(part, whole) == part as real * inverse;
    assert Share(more, whole) == more as real * inverse;
    assert whole as real * inverse == 1.0;
    MulLe(0.0, part as real, inverse);
    MulLe(part as real, more as real, inverse);
    MulLe(more as real, whole as real, inverse);
  }

  function Times(x: real, y: real): real {
    x * y
  }

  lemma SmoothedGrows(gain: real, x: real, x': real, y: real, y': real)
    requires 0.0 <= gain <= 1.0 && 0.0 <= x <= x' <= 1.0 && 0.0 <= y <= y' <= 1.0
    ensures 0.0 <= Smoothed(gain, x, y) <= Smoothed(gain, x', y') <= 1.0
  {
    hide Times, Smoothed;
    TimesGrow(x, x', 1.0 - gain);
    TimesGrow(y, y', gain);
    SmoothedAsTimes(gain, x, y);
    SmoothedAsTimes(gain, x', y');
  }

  lemma TimesGrow(x: real, x': real, z: real)
    requires 0.0 <= x <= x' <= 1.0 && z >= 0.0
    ensures 0.0 <= Times(z, x) <= Times(z, x') <= z
  {
    MulLe(x, x', z);
    MulLe(x', 1.0, z);
  }

  lemma SmoothedAsTimes(gain: real, x: real, y: real)
    ensures Smoothed(gain, x, y) == Times(1.0 - gain, x) + Times(gain, y)
  {
  }

  lemma CutGrows(budget: real, less: real, ratio: real, more: real)
    requires 0.0 <= less <= budget && 0.0 <= ratio <= more <= 1.0
    ensures Cut(less, more) <= Cut(budget, ratio) <= budget
  {
    MulLe(less, budget, 1.0 - more / 2.0);
    MulLe(1.0 - more / 2.0, 1.0 - ratio / 2.0, budget);
    MulLe(1.0 - ratio / 2.0, 1.0, budget);
  }

  lemma EpochEndsInRange(base: nat, gain: real, s: Signal)
    requires base >= 1 && 0.0 <= gain <= 1.0 && 0.0 <= s.ratio <= 1.0 && s.marks <= s.packets && s.packets > 0
    ensures InRange(base, EndEpoch(base, gain, s))
  {
    hide Share, Smoothed, Cut;
    ShareGrows(s.marks, s.marks, s.packets);
    SmoothedGrows(gain, s.ratio, s.ratio, Share(s.marks, s.packets), Share(s.marks, s.packets));
  }

  lemma ObserveKeepsRange(base: nat, gain: real, s: Signal, marked: bool)
    requires base >= 1 && 0.0 <= gain <= 1.0 && InRange(base, s)
    ensures InRange(base, Observe(base, gain, s, marked))
  {
    hide EndEpoch;
    EpochEndsInRange(base, gain, s.(packets := s.packets + 1, marks := s.marks + if marked then 1 else 0));
  }

  lemma {:induction false} StaysInRange(base: nat, gain: real, marks: seq<bool>)
    requires base >= 1 && 0.0 <= gain <= 1.0
    ensures InRange(base, ObserveAll(base, gain, Fresh(base), marks))
    decreases |marks|
  {
    if marks == [] {
    } else {
      var last := |marks| - 1;
      StaysInRange(base, gain, marks[..last]);
      ObserveKeepsRange(base, gain, ObserveAll(base, gain, Fresh(base), marks[..last]), marks[last]);
    }
  }

  // ----- more congestion never earns more credit -----

  /** t has seen at least the congestion that s has. */
  ghost predicate WorseOff(s: Signal, t: Signal) {
    t.budget <= s.budget && s.ratio <= t.ratio && t.packets == s.packets && s.marks <= t.marks
  }

  lemma EpochKeepsWorse(base: nat, gain: real, s: Signal, t: Signal)
    requires 0.0 <= gain <= 1.0 && WorseOff(s, t) && s.packets > 0
    requires 1.0 <= t.budget && 0.0 <= s.ratio && t.ratio <= 1.0 && t.marks <= t.packets
    ensures WorseOff(EndEpoch(base, gain, s), EndEpoch(base, gain, t))
  {
    hide Share, Smoothed, Cut;
    ShareGrows(s.marks, t.marks, s.packets);
    SmoothedGrows(gain, s.ratio, t.ratio, Share(s.marks, s.packets), Share(t.marks, t.packets));
    CutGrows(s.budget, t.budget, EndEpoch(base, gain, s).ratio, EndEpoch(base, gain, t).ratio);
    CutGrows(s.budget, t.budget, EndEpoch(base, gain, t).ratio, EndEpoch(base, gain, t).ratio);
  }

  lemma ObserveKeepsWorse(base: nat, gain: real, s: Signal, t: Signal, few: bool, many: bool)
    requires base >= 1 && 0.0 <= gain <= 1.0 && InRange(base, s) && InRange(base, t) && WorseOff(s, t) && (few ==> many)
    ensures WorseOff(Observe(base, gain, s, few), Observe(base, gain, t, many))
  {
    hide EndEpoch;
    EpochKeepsWorse(base, gain,
      s.(packets := s.packets + 1, marks := s.marks + if few then 1 else 0),
      t.(packets := t.packets + 1, marks := t.marks + if many then 1 else 0));
  }

  /** Marking more packets of the same traffic never leaves a sender with a larger budget. */
  lemma {:induction false} MoreMarksNeverPay(base: nat, gain: real, few: seq<bool>, many: seq<bool>)
    requires base >= 1 && 0.0 <= gain <= 1.0 && |few| == |many|
    requires forall i :: 0 <= i < |few| && few[i] ==> many[i]
    ensures WorseOff(ObserveAll(base, gain, Fresh(base), few), ObserveAll(base, gain, Fresh(base), many))
    decreases |few|
  {
    if few == [] {
    } else {
      hide Observe, InRange, WorseOff;
      var last := |few| - 1;
      MoreMarksNeverPay(base, gain, few[..last], many[..last]);
      StaysInRange(base, gain, few[..last]);
      StaysInRange(base, gain, many[..last]);
      ObserveKeepsWorse(base, gain, ObserveAll(base, gain, Fresh(base), few[..last]),
        ObserveAll(base, gain, Fresh(base), many[..last]), few[last], many[last]);
    }
  }

  // ----- recovery -----

  ghost predicate Clean(marks: seq<bool>) {
    forall i :: 0 <= i < |marks| ==> !marks[i]
  }

  lemma CleanPacket(base: nat, gain: real, s: Signal, start: real, epochs: nat)
    requires base >= 1 && 0.0 <= gain <= 1.0 && InRange(base, s) && s.marks == 0 && start >= 1.0
    requires s.budget == Clamp(base, start + epochs as real)
    ensures var t := Observe(base, gain, s, false);
      && t.marks == 0
      && t.packets == (if s.packets + 1 == base then 0 else s.packets + 1)
      && t.budget == (if s.packets + 1 == base then Clamp(base, start + (epochs + 1) as real) else s.budget)
  {
    hide Share, Smoothed, Cut;
  }

  /** Unmarked traffic wins back one packet for each whole epoch, up to the full budget. */
  lemma {:induction false} CleanTrafficRestores(base: nat, gain: real, s: Signal, marks: seq<bool>, epochs: nat,
                                                rest: nat)
    requires InRange(base, s) && s.packets == 0 && 0.0 <= gain <= 1.0 && Clean(marks)
    requires |marks| == epochs * base + rest && rest < base
    ensures var t := ObserveAll(base, gain, s, marks);
      && InRange(base, t) && t.packets == rest && t.marks == 0
      && t.budget == Clamp(base, s.budget + epochs as real)
    decreases |marks|
  {
    hide Observe;
    if rest > 0 {
      var before := marks[..|marks| - 1];
      CleanTrafficRestores(base, gain, s, before, epochs, rest - 1);
      ObserveKeepsRange(base, gain, ObserveAll(base, gain, s, before), false);
      CleanPacket(base, gain, ObserveAll(base, gain, s, before), s.budget, epochs);
    } else if epochs > 0 {
      var before := marks[..|marks| - 1];
      CleanTrafficRestores(base, gain, s, before, epochs - 1, base - 1);
      ObserveKeepsRange(base, gain, ObserveAll(base, gain, s, before), false);
      CleanPacket(base, gain, ObserveAll(base, gain, s, before), s.budget, epochs - 1);
    }
  }

  // ----- one epoch -----

  ghost function Marked(marks: seq<bool>): set<nat> {
    set i: nat | i < |marks| && marks[i]
  }

  lemma {:induction false} WithinEpoch(base: nat, gain: real, s: Signal, marks: seq<bool>)
    requires s.packets == 0 && s.marks == 0 && |marks| < base
    ensures ObserveAll(base, gain, s, marks) == s.(packets := |marks|, marks := |Marked(marks)|)
    decreases |marks|
  {
    if marks == [] {
      assert Marked(marks) == {};
    } else {
      hide EndEpoch;
      var last := |marks| - 1;
      WithinEpoch(base, gain, s, marks[..last]);
      OneMoreMark(marks);
    }
  }

  lemma OneMoreMark(marks: seq<bool>)
    requires marks != []
    ensures |Marked(marks)| == |Marked(marks[..|marks| - 1])| + if marks[|marks| - 1] then 1 else 0
  {
    var last := |marks| - 1;
    assert Marked(marks) == if marks[last] then Marked(marks[..last]) + {last} else Marked(marks[..last]);
  }

  lemma EpochIsEnded(base: nat, gain: real, s: Signal, marks: seq<bool>)
    requires base > 0 && s.packets == 0 && s.marks == 0 && |marks| == base
    ensures ObserveAll(base, gain, s, marks) == EndEpoch(base, gain, s.(packets := base, marks := |Marked(marks)|))
  {
    hide EndEpoch;
    WithinEpoch(base, gain, s, marks[..base - 1]);
    OneMoreMark(marks);
  }

  lemma EpochEnds(base: nat, gain: real, s: Signal, marked: nat)
    requires InRange(base, s) && s.packets == 0 && marked <= base && 0.0 <= gain <= 1.0
    ensures var t, ratio := EndEpoch(base, gain, s.(packets := base, marks := marked)),
                            Smoothed(gain, s.ratio, Share(marked, base));
      && t.packets == 0 && t.marks == 0 && t.ratio == ratio
      && (marked == 0 ==> t.budget == if s.budget + 1.0 < base as real then s.budget + 1.0 else base as real)
      && (marked > 0 ==> t.budget == if Cut(s.budget, ratio) > 1.0 then Cut(s.budget, ratio) else 1.0)
  {
    hide Share, Smoothed, Cut;
    var ratio := Smoothed(gain, s.ratio, Share(marked, base));
    ShareGrows(marked, marked, base);
    SmoothedGrows(gain, s.ratio, s.ratio, Share(marked, base), Share(marked, base));
    CutGrows(s.budget, s.budget, ratio, ratio);
  }

  /** A whole epoch moves the ratio by the gain's part of the way to the share of marked packets. An epoch
      without a mark adds one packet to the budget, up to the full budget; one with a mark takes half the
      new ratio's part of the budget off, down to one packet. */
  lemma EpochOutcome(base: nat, gain: real, s: Signal, marks: seq<bool>)
    requires InRange(base, s) && s.packets == 0 && |marks| == base && 0.0 <= gain <= 1.0
    ensures var t := ObserveAll(base, gain, s, marks);
      var marked: nat := |set i: nat | i < base && marks[i]|;
      && t.packets == 0 && t.marks == 0
      && t.ratio == s.ratio + gain * (marked as real / base as real - s.ratio)
      && (marked == 0 ==> t.budget == if s.budget + 1.0 < base as real then s.budget + 1.0 else base as real)
      && (marked > 0 ==>
            var cut := s.budget - s.budget * t.ratio / 2.0; t.budget == if cut > 1.0 then cut else 1.0)
  {
    hide Share, Smoothed, Cut, EndEpoch, ObserveAll;
    assert Marked(marks) == set i: nat | i < base && marks[i];
    MarksAreFew(marks);
    EpochIsEnded(base, gain, s, marks);
    EpochEnds(base, gain, s, |Marked(marks)|);
    RatioMoves(gain, s.ratio, |Marked(marks)|, base);
    CutIsHalf(s.budget, Smoothed(gain, s.ratio, Share(|Marked(marks)|, base)));
  }

  lemma {:induction false} MarksAreFew(marks: seq<bool>)
    ensures |Marked(marks)| <= |marks|
    decreases |marks|
  {
    if marks == [] {
      assert Marked(marks) == {};
    } else {
      MarksAreFew(marks[..|marks| - 1]);
      OneMoreMark(marks);
    }
  }

  lemma RatioMoves(gain: real, ratio: real, marked: nat, base: nat)
    requires base > 0
    ensures Smoothed(gain, ratio, Share(marked, base)) == ratio + gain * (marked as real / base as real - ratio)
  {
  }

  lemma CutIsHalf(budget: real, ratio: real)
    ensures Cut(budget, ratio) == budget - budget * ratio / 2.0
  {
  }
}
