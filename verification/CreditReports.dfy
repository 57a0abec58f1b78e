/** Credit totals kept online by the simulation (scratch/lab2.cc) and replayed offline from the
    traces (scripts/lab2_plot.py, derive_credit_series_from_protocol_traces). */
module CreditReports {
  import opened Wrappers
  import opened MapSums

  /** Addresses are numbers in the simulation and texts in the traces; only equality matters. */
  type Address = nat

  type MsgKey = (Address, Address, nat)

  type PairKey = (Address, Address)

  datatype SenderReport = SenderReport(time: int, sender: Address, receiver: Address, msgId: nat, credit: nat)

  datatype ReceiverReport = ReceiverReport(time: int, receiver: Address, sender: Address, avail: nat, budget: nat)

  const TwoTo32 := 0x1_0000_0000

  // ----- the two ways of keeping sender credit -----

  function KeyOf(r: SenderReport): MsgKey {
    (r.sender, r.receiver, r.msgId)
  }

  /** Online: other senders are ignored and a credit of zero erases the entry. */
  function OnlineStep(m: map<MsgKey, nat>, target: Address, r: SenderReport): map<MsgKey, nat> {
    if r.sender != target then m
    else if r.credit == 0 then m - {KeyOf(r)}
    else m[KeyOf(r) := r.credit]
  }

  function Online(target: Address, reports: seq<SenderReport>): map<MsgKey, nat> {
    if reports == [] then map[]
    else OnlineStep(Online(target, reports[..|reports| - 1]), target, reports[|reports| - 1])
  }

  /** Offline: every report overwrites its entry. */
  function Offline(reports: seq<SenderReport>): map<MsgKey, nat> {
    if reports == [] then map[] else
      var r := reports[|reports| - 1];
      Offline(reports[..|reports| - 1])[KeyOf(r) := r.credit]
  }

  function OfTarget(m: map<MsgKey, nat>, target: Address): map<MsgKey, nat> {
    map k | k in m && k.0 == target :: m[k]
  }

  /** The credit in the latest report about a key. */
  function Latest(reports: seq<SenderReport>, key: MsgKey): Option<nat> {
    if reports == [] then None
    else if KeyOf(reports[|reports| - 1]) == key then Some(reports[|reports| - 1].credit)
    else Latest(reports[..|reports| - 1], key)
  }

  /** Report i is the last one about its key. */
  ghost predicate IsLast(reports: seq<SenderReport>, key: MsgKey, i: nat) {
    && i < |reports| && (reports[i].sender, reports[i].receiver, reports[i].msgId) == key
    && forall j :: i < j < |reports| ==> (reports[j].sender, reports[j].receiver, reports[j].msgId) != key
  }

  lemma {:induction false} LatestIsLast(reports: seq<SenderReport>, key: MsgKey)
    ensures forall i: nat :: IsLast(reports, key, i) ==> Latest(reports, key) == Some(reports[i].credit)
    ensures Latest(reports, key).Some? ==> exists i: nat :: IsLast(reports, key, i)
    decreases |reports|
  {
    if reports == [] {
    } else {
      var last := |reports| - 1;
      LatestIsLast(reports[..last], key);
      if KeyOf(reports[last]) == key {
        assert IsLast(reports, key, last);
      } else if i: nat :| IsLast(reports[..last], key, i) {
        assert IsLast(reports, key, i);
      }
      forall i: nat | IsLast(reports, key, i) ensures Latest(reports, key) == Some(reports[i].credit) {
        assert i < last ==> IsLast(reports[..last], key, i);
      }
    }
  }

  lemma {:induction false} OfflineIsLatest(reports: seq<SenderReport>, key: MsgKey)
    ensures key in Offline(reports) <==> Latest(reports, key).Some?
    ensures key in Offline(reports) ==> Offline(reports)[key] == Latest(reports, key).value
  {
    if reports == [] {
    } else {
      OfflineIsLatest(reports[..|reports| - 1], key);
    }
  }

  /** Online holds exactly the target's keys whose latest report is not zero, with that report. */
  lemma {:induction false} OnlineIsLatest(target: Address, reports: seq<SenderReport>, key: MsgKey)
    ensures key in Online(target, reports) <==>
            key.0 == target && Latest(reports, key).Some? && Latest(reports, key).value > 0
    ensures key in Online(target, reports) ==> Online(target, reports)[key] == Latest(reports, key).value
  {
    if reports == [] {
    } else {
      OnlineIsLatest(target, reports[..|reports| - 1], key);
    }
  }

  /** Erasing zeros or keeping them, the target's total is the same after any reports. */
  lemma TotalsAgree(target: Address, reports: seq<SenderReport>)
    ensures SumOf(Online(target, reports)) == SumOf(OfTarget(Offline(reports), target))
  {
    var online, offline := Online(target, reports), OfTarget(Offline(reports), target);
    forall k
      ensures k in online ==> k in offline && online[k] == offline[k]
      ensures k in offline && k !in online ==> offline[k] == 0
    {
      OnlineIsLatest(target, reports, k);
      OfflineIsLatest(reports, k);
    }
    hide Online, Offline, OfTarget;
    SumWithoutZeros(offline, online);
  }

  // ----- receiver availability -----

  /** The latest report of every receiver that has reported about the target. */
  function Reported(target: Address, reports: seq<ReceiverReport>): map<PairKey, nat> {
    if reports == [] then map[] else
      var r := reports[|reports| - 1];
      var before := Reported(target, reports[..|reports| - 1]);
      if r.sender != target then before else before[(r.receiver, r.sender) := r.avail]
  }

  /** Online starts with one budget for each active receiver, before anything is reported. */
  function Seeds(target: Address, receivers: seq<Address>, budget: nat): map<PairKey, nat> {
    if receivers == [] then map[] else
      Seeds(target, receivers[..|receivers| - 1], budget)[(receivers[|receivers| - 1], target) := budget]
  }

  function OnlineAvail(seeds: map<PairKey, nat>, target: Address, reports: seq<ReceiverReport>): map<PairKey, nat> {
    if reports == [] then seeds else
      var r := reports[|reports| - 1];
      var before := OnlineAvail(seeds, target, reports[..|reports| - 1]);
      if r.sender != target then before else before[(r.receiver, r.sender) := r.avail]
  }

  lemma {:induction false} OnlineOverlaysSeeds(seeds: map<PairKey, nat>, target: Address, reports: seq<ReceiverReport>)
    ensures OnlineAvail(seeds, target, reports) == seeds + Reported(target, reports)
    decreases |reports|
  {
    if reports == [] {
    } else {
      OnlineOverlaysSeeds(seeds, target, reports[..|reports| - 1]);
    }
  }

  /** Offline starts from the budgets that the whole trace reports about the target. */
  function Budgets(target: Address, reports: seq<ReceiverReport>): map<PairKey, nat> {
    if reports == [] then map[] else
      var r := reports[|reports| - 1];
      var before := Budgets(target, reports[..|reports| - 1]);
      if r.sender != target then before else before[(r.receiver, r.sender) := r.budget]
  }

  /** Offline after the first n of all the reports. */
  function OfflineAvail(target: Address, all: seq<ReceiverReport>, n: nat): map<PairKey, nat>
    requires n <= |all|
  {
    if n == 0 then Budgets(target, all) else
      OfflineAvail(target, all, n - 1)[(all[n - 1].receiver, all[n - 1].sender) := all[n - 1].avail]
  }

  /** Report i is the last one of the receiver about the target. */
  ghost predicate IsLastOf(target: Address, reports: seq<ReceiverReport>, receiver: Address, i: nat) {
    && i < |reports| && reports[i].sender == target && reports[i].receiver == receiver
    && forall j :: i < j < |reports| ==> reports[j].sender != target || reports[j].receiver != receiver
  }

  /** Both dictionaries have an entry for just the receivers that report about the target, with the budget
      and the availability in the last of their reports. */
  lemma {:induction false} EntriesAreLast(target: Address, reports: seq<ReceiverReport>, k: PairKey)
    ensures forall i: nat :: IsLastOf(target, reports, k.0, i) && k.1 == target ==>
              && k in Budgets(target, reports) && Budgets(target, reports)[k] == reports[i].budget
              && k in Reported(target, reports) && Reported(target, reports)[k] == reports[i].avail
    ensures k in Budgets(target, reports) || k in Reported(target, reports) ==>
              k.1 == target && exists i: nat :: IsLastOf(target, reports, k.0, i)
    decreases |reports|
  {
    if reports == [] {
    } else {
      var last := |reports| - 1;
      EntriesAreLast(target, reports[..last], k);
      if reports[last].sender == target && reports[last].receiver == k.0 {
        assert IsLastOf(target, reports, k.0, last);
      } else if i: nat :| IsLastOf(target, reports[..last], k.0, i) {
        assert IsLastOf(target, reports, k.0, i);
      }
      forall i: nat | IsLastOf(target, reports, k.0, i) && k.1 == target
        ensures k in Budgets(target, reports) && Budgets(target, reports)[k] == reports[i].budget
        ensures k in Reported(target, reports) && Reported(target, reports)[k] == reports[i].avail
      {
        assert i < last ==> IsLastOf(target, reports[..last], k.0, i);
      }
    }
  }

  /** After n of all the reports, what the offline sweep has for a receiver of the target: the availability in
      the last of its reports so far, and before any the budget in the last of all its reports. */
  lemma OfflineEntry(target: Address, all: seq<ReceiverReport>, n: nat, receiver: Address, i: nat)
    requires n <= |all|
    ensures IsLastOf(target, all[..n], receiver, i) ==>
              && (receiver, target) in OfflineAvail(target, all, n)
              && OfflineAvail(target, all, n)[(receiver, target)] == all[i].avail
    ensures IsLastOf(target, all, receiver, i) && n <= |all| && !HasReported(target, all[..n], receiver) ==>
              && (receiver, target) in OfflineAvail(target, all, n)
              && OfflineAvail(target, all, n)[(receiver, target)] == all[i].budget
  {
    hide OfflineAvail, Budgets, Reported;
    var k := (receiver, target);
    OfflineOverlaysBudgets(target, all, n);
    EntriesAreLast(target, all, k);
    EntriesAreLast(target, all[..n], k);
    BudgetKeys(target, all[..n], k);
    assert k in AvailOfTarget(OfflineAvail(target, all, n), target) ==>
           AvailOfTarget(OfflineAvail(target, all, n), target)[k] == OfflineAvail(target, all, n)[k];
  }

  function AvailOfTarget(m: map<PairKey, nat>, target: Address): map<PairKey, nat> {
    map k | k in m && k.1 == target :: m[k]
  }

  lemma {:induction false} OfflineOverlaysBudgets(target: Address, all: seq<ReceiverReport>, n: nat)
    requires n <= |all|
    ensures AvailOfTarget(OfflineAvail(target, all, n), target) == Budgets(target, all) + Reported(target, all[..n])
  {
    if n == 0 {
      assert all[..0] == [];
      BudgetsAreOfTarget(target, all);
    } else {
      OfflineOverlaysBudgets(target, all, n - 1);
      assert all[..n][..n - 1] == all[..n - 1];
      var r := all[n - 1];
      var before, after := OfflineAvail(target, all, n - 1), OfflineAvail(target, all, n);
      if r.sender == target {
        assert AvailOfTarget(after, target) == AvailOfTarget(before, target)[(r.receiver, r.sender) := r.avail];
      } else {
        assert AvailOfTarget(after, target) == AvailOfTarget(before, target);
      }
    }
  }

  lemma {:induction false} BudgetsAreOfTarget(target: Address, reports: seq<ReceiverReport>)
    ensures AvailOfTarget(Budgets(target, reports), target) == Budgets(target, reports)
  {
    if reports == [] {
    } else {
      BudgetsAreOfTarget(target, reports[..|reports| - 1]);
      var before := Budgets(target, reports[..|reports| - 1]);
      assert forall k :: k in before ==> k in AvailOfTarget(before, target);
    }
  }

  lemma OverlayOne<K>(base: map<K, nat>, rest: map<K, nat>, k: K, v: nat)
    requires k !in rest
    ensures SumOf(base + rest[k := v]) == SumOf(base + rest) - ValueAt(base, k) + v
  {
    hide SumOf;
    assert base + rest[k := v] == (base + rest)[k := v];
    SumUpdate(base + rest, k, v);
    assert ValueAt(base + rest, k) == ValueAt(base, k);
  }

  lemma UncoverOne<K>(base: map<K, nat>, covered: set<K>, k: K)
    requires k !in covered
    ensures SumOf(base - covered) == SumOf(base - (covered + {k})) + ValueAt(base, k)
  {
    hide SumOf;
    if k in base {
      SumWithout(base - covered, k);
      assert base - covered - {k} == base - (covered + {k});
    } else {
      assert base - covered == base - (covered + {k});
    }
  }

  lemma SumOverlayStep<K>(base: map<K, nat>, rest: map<K, nat>, k: K, v: nat)
    requires k !in rest && SumOf(base + rest) == SumOf(rest) + SumOf(base - rest.Keys)
    ensures SumOf(base + rest[k := v]) == SumOf(rest[k := v]) + SumOf(base - rest[k := v].Keys)
  {
    hide SumOf;
    OverlayOne(base, rest, k, v);
    UncoverOne(base, rest.Keys, k);
    SumUpdate(rest, k, v);
    assert rest[k := v].Keys == rest.Keys + {k};
  }

  lemma {:induction false} SumOverlay<K>(base: map<K, nat>, top: map<K, nat>)
    ensures SumOf(base + top) == SumOf(top) + SumOf(base - top.Keys)
    decreases |top|
  {
    hide SumOf;
    if top == map[] {
      assert base + top == base && base - top.Keys == base;
      EmptySum<K>();
    } else {
      var k :| k in top;
      SumOverlay(base, top - {k});
      SumOverlayStep(base, top - {k}, k, top[k]);
      assert (top - {k})[k := top[k]] == top;
    }
  }

  lemma EmptySum<K>()
    ensures SumOf<K>(map[]) == 0
  {
  }

  /** Before a receiver's first report it counts with its seed online, and offline with the budget it
      will report, if it will report at all. That is all the two availabilities differ by. */
  lemma AvailabilityGap(seeds: map<PairKey, nat>, target: Address, all: seq<ReceiverReport>, n: nat)
    requires n <= |all|
    ensures var heard := Reported(target, all[..n]).Keys;
            SumOf(OnlineAvail(seeds, target, all[..n])) + SumOf(Budgets(target, all) - heard) ==
            SumOf(AvailOfTarget(OfflineAvail(target, all, n), target)) + SumOf(seeds - heard)
  {
    OfflineOverlaysBudgets(target, all, n);
    OnlineOverlaysSeeds(seeds, target, all[..n]);
    SumOverlay(Budgets(target, all), Reported(target, all[..n]));
    SumOverlay(seeds, Reported(target, all[..n]));
  }

  ghost predicate HasReported(target: Address, reports: seq<ReceiverReport>, receiver: Address) {
    exists i :: 0 <= i < |reports| && reports[i].sender == target && reports[i].receiver == receiver
  }

  /** The seeded receivers that never report about the target. */
  ghost function Silent(target: Address, receivers: seq<Address>, all: seq<ReceiverReport>): set<Address> {
    set r | r in receivers && !HasReported(target, all, r)
  }

  /** As the simulation is set up: every report about the target comes from a seeded receiver and
      names the budget that was seeded. */
  ghost predicate AsConfigured(target: Address, receivers: seq<Address>, budget: nat, all: seq<ReceiverReport>) {
    forall i :: 0 <= i < |all| && all[i].sender == target ==> all[i].receiver in receivers && all[i].budget == budget
  }

  lemma {:induction false} SeededKeys(target: Address, receivers: seq<Address>, budget: nat, k: PairKey)
    ensures k in Seeds(target, receivers, budget) <==> k.0 in receivers && k.1 == target
    ensures k in Seeds(target, receivers, budget) ==> Seeds(target, receivers, budget)[k] == budget
    decreases |receivers|
  {
    if receivers == [] {
    } else {
      SeededKeys(target, receivers[..|receivers| - 1], budget, k);
      assert receivers == receivers[..|receivers| - 1] + [receivers[|receivers| - 1]];
    }
  }

  lemma HasReportedMore(target: Address, reports: seq<ReceiverReport>, r: ReceiverReport, receiver: Address)
    ensures HasReported(target, reports + [r], receiver) <==>
            HasReported(target, reports, receiver) || (r.sender == target && r.receiver == receiver)
  {
    var more := reports + [r];
    assert forall i :: 0 <= i < |reports| ==> more[i] == reports[i];
    assert more[|reports|] == r;
    if i :| 0 <= i < |more| && more[i].sender == target && more[i].receiver == receiver {
      assert i < |reports| ==> reports[i] == more[i];
    }
  }

  lemma {:induction false} BudgetKeys(target: Address, reports: seq<ReceiverReport>, k: PairKey)
    ensures k in Budgets(target, reports) <==> k.1 == target && HasReported(target, reports, k.0)
    ensures k in Reported(target, reports) <==> k.1 == target && HasReported(target, reports, k.0)
    decreases |reports|
  {
    if reports == [] {
    } else {
      hide HasReported;
      var last := |reports| - 1;
      BudgetKeys(target, reports[..last], k);
      assert reports == reports[..last] + [reports[last]];
      HasReportedMore(target, reports[..last], reports[last], k.0);
    }
  }

  lemma {:induction false} BudgetValues(target: Address, receivers: seq<Address>, budget: nat,
                                        reports: seq<ReceiverReport>, k: PairKey)
    requires AsConfigured(target, receivers, budget, reports) && k in Budgets(target, reports)
    ensures Budgets(target, reports)[k] == budget && k.0 in receivers && k.1 == target
    decreases |reports|
  {
    var last := |reports| - 1;
    if reports[last].sender == target && k == (reports[last].receiver, target) {
    } else {
      BudgetValues(target, receivers, budget, reports[..last], k);
    }
  }

  lemma {:induction false} ConstantSum<K>(m: map<K, nat>, v: nat)
    requires forall k :: k in m ==> m[k] == v
    ensures SumOf(m) == v * |m|
    decreases |m|
  {
    if m == map[] {
      EmptySum<K>();
    } else {
      var k :| k in m;
      SumWithout(m, k);
      ConstantSum(m - {k}, v);
      assert |m| == |m - {k}| + 1;
      assert v * |m| == v * |m - {k}| + v;
    }
  }

  lemma {:induction false} PairCount(s: set<Address>, target: Address, pairs: set<PairKey>)
    requires forall k :: k in pairs <==> k.0 in s && k.1 == target
    ensures |pairs| == |s|
    decreases s
  {
    if s == {} {
      assert pairs == {};
    } else {
      var r :| r in s;
      PairCount(s - {r}, target, pairs - {(r, target)});
      assert (r, target) in pairs;
    }
  }

  /** What has been heard by n has been heard in the end. */
  lemma HeardEarly(target: Address, all: seq<ReceiverReport>, n: nat)
    requires n <= |all|
    ensures Reported(target, all[..n]).Keys <= Budgets(target, all).Keys
  {
    forall k | k in Reported(target, all[..n]) ensures k in Budgets(target, all) {
      BudgetKeys(target, all[..n], k);
      BudgetKeys(target, all, k);
      var i :| 0 <= i < n && all[..n][i].sender == target && all[..n][i].receiver == k.0;
      assert all[i] == all[..n][i];
    }
  }

  /** Seeds of receivers not heard so far: of those that will report, and of the silent ones. */
  lemma SeedsSplit(target: Address, receivers: seq<Address>, budget: nat, all: seq<ReceiverReport>, heard: set<PairKey>)
    requires AsConfigured(target, receivers, budget, all) && heard <= Budgets(target, all).Keys
    ensures var seeds, budgets := Seeds(target, receivers, budget), Budgets(target, all);
            SumOf(seeds - heard) == SumOf(budgets - heard) + SumOf(seeds - budgets.Keys)
  {
    hide AsConfigured, Budgets, Seeds, SumOf;
    var seeds, budgets := Seeds(target, receivers, budget), Budgets(target, all);
    forall k | k in budgets ensures k in seeds && seeds[k] == budgets[k] {
      BudgetValues(target, receivers, budget, all, k);
      SeededKeys(target, receivers, budget, k);
    }
    SumOverlay(seeds - heard, budgets - heard);
    assert (seeds - heard) + (budgets - heard) == seeds - heard;
    assert (seeds - heard) - (budgets - heard).Keys == seeds - budgets.Keys;
  }

  lemma SilentSeeds(target: Address, receivers: seq<Address>, budget: nat, all: seq<ReceiverReport>)
    ensures SumOf(Seeds(target, receivers, budget) - Budgets(target, all).Keys) ==
            budget * |Silent(target, receivers, all)|
  {
    hide Budgets, Seeds, SumOf, HasReported;
    var rest := Seeds(target, receivers, budget) - Budgets(target, all).Keys;
    forall k
      ensures k in rest <==> k.0 in Silent(target, receivers, all) && k.1 == target
      ensures k in rest ==> rest[k] == budget
    {
      SeededKeys(target, receivers, budget, k);
      BudgetKeys(target, all, k);
    }
    ConstantSum(rest, budget);
    PairCount(Silent(target, receivers, all), target, rest.Keys);
  }

  /** So in such a simulation the online availability exceeds the offline one by the same amount at
      every sample: one budget for each receiver that never reports about the target. */
  lemma SilentReceiversCount(target: Address, receivers: seq<Address>, budget: nat, all: seq<ReceiverReport>, n: nat)
    requires n <= |all| && AsConfigured(target, receivers, budget, all)
    ensures SumOf(OnlineAvail(Seeds(target, receivers, budget), target, all[..n])) ==
            SumOf(AvailOfTarget(OfflineAvail(target, all, n), target)) + budget * |Silent(target, receivers, all)|
  {
    hide AsConfigured, Budgets, Reported, Seeds, OnlineAvail, OfflineAvail, AvailOfTarget, Silent, SumOf;
    var heard := Reported(target, all[..n]).Keys;
    AvailabilityGap(Seeds(target, receivers, budget), target, all, n);
    HeardEarly(target, all, n);
    SeedsSplit(target, receivers, budget, all, heard);
    SilentSeeds(target, receivers, budget, all);
  }

  /** The two agree at every sample exactly when every active receiver reports at least once. */
  lemma AvailabilitiesAgreeIffAllReport(target: Address, receivers: seq<Address>, budget: nat, all: seq<ReceiverReport>)
    requires AsConfigured(target, receivers, budget, all) && budget >= 1
    ensures (forall n: nat :: n <= |all| ==>
              SumOf(OnlineAvail(Seeds(target, receivers, budget), target, all[..n])) ==
              SumOf(AvailOfTarget(OfflineAvail(target, all, n), target)))
            <==> forall r :: r in receivers ==> HasReported(target, all, r)
  {
    hide AsConfigured, Seeds, OnlineAvail, OfflineAvail, AvailOfTarget, SumOf, HasReported;
    forall n: nat | n <= |all|
      ensures SumOf(OnlineAvail(Seeds(target, receivers, budget), target, all[..n])) ==
              SumOf(AvailOfTarget(OfflineAvail(target, all, n), target)) + budget * |Silent(target, receivers, all)|
    {
      SilentReceiversCount(target, receivers, budget, all, n);
    }
    if r :| r in receivers && !HasReported(target, all, r) {
      assert r in Silent(target, receivers, all);
      Positive(budget, |Silent(target, receivers, all)|);
      assert SumOf(OnlineAvail(Seeds(target, receivers, budget), target, all[..0])) !=
             SumOf(AvailOfTarget(OfflineAvail(target, all, 0), target));
    } else {
      assert Silent(target, receivers, all) == {};
    }
  }

  lemma Positive(x: nat, y: nat)
    requires x > 0 && y > 0
    ensures x * y > 0
  {
  }

  // ----- the simulation's callbacks -----

  class CreditSampleState {
    const targetSender: Address
    var senderCredits: map<MsgKey, nat>
    var receiverAvail: map<PairKey, nat>

    /** Seeds the availability of every active receiver with its budget. */
    constructor (targetSender: Address, receivers: seq<Address>, budget: nat)
      ensures this.targetSender == targetSender && senderCredits == Online(targetSender, [])
      ensures receiverAvail == OnlineAvail(Seeds(targetSender, receivers, budget), targetSender, [])
    {
      this.targetSender := targetSender;
      senderCredits, receiverAvail := map[], map[];
      new;
      for i := 0 to |receivers|
        invariant senderCredits == Online(targetSender, [])
        invariant receiverAvail == Seeds(targetSender, receivers[..i], budget)
      {
        assert receivers[..i + 1][..i] == receivers[..i];
        receiverAvail := receiverAvail[(receivers[i], targetSender) := budget];
      }
      assert receivers[..|receivers|] == receivers;
    }

    method UpdateSenderState(r: SenderReport, ghost before: seq<SenderReport>)
      requires senderCredits == Online(targetSender, before)
      modifies this`senderCredits
      ensures senderCredits == Online(targetSender, before + [r])
    {
      assert (before + [r])[..|before|] == before;
      if r.sender != targetSender {
        return;
      }
      var key := (r.sender, r.receiver, r.msgId);
      if r.credit == 0 {
        senderCredits := senderCredits - {key};
      } else {
        senderCredits := senderCredits[key := r.credit];
      }
    }

    method UpdateReceiverState(r: ReceiverReport, ghost seeds: map<PairKey, nat>, ghost before: seq<ReceiverReport>)
      requires receiverAvail == OnlineAvail(seeds, targetSender, before)
      modifies this`receiverAvail
      ensures receiverAvail == OnlineAvail(seeds, targetSender, before + [r])
    {
      assert (before + [r])[..|before|] == before;
      if r.sender != targetSender {
        return;
      }
      receiverAvail := receiverAvail[(r.receiver, r.sender) := r.avail];
    }

    /** Both sums are taken in 32 bits. */
    method SampleCreditState() returns (senderCreditPkts: nat, receiverAvailPkts: nat)
      ensures senderCreditPkts == Wrapped(SumOf(senderCredits))
      ensures receiverAvailPkts == Wrapped(SumOf(receiverAvail))
      ensures senderCreditPkts == SumOf(senderCredits) % 0x1_0000_0000
      ensures receiverAvailPkts == SumOf(receiverAvail) % 0x1_0000_0000
    {
      senderCreditPkts := SumIn32Bits(senderCredits);
      receiverAvailPkts := SumIn32Bits(receiverAvail);
    }
  }

  method SumIn32Bits<K(==)>(m: map<K, nat>) returns (sum: nat)
    ensures sum == Wrapped(SumOf(m))
  {
    hide SumOf, Wrapped;
    sum := 0;
    var rest := m;
    EmptySum<K>();
    WrappedSmall(sum);
    while rest != map[]
      invariant Wrapped(sum + SumOf(rest)) == Wrapped(SumOf(m)) && sum == Wrapped(sum)
      decreases |rest|
    {
      var k :| k in rest;
      SumWithout(rest, k);
      WrapOnce(sum + rest[k], SumOf(rest - {k}));
      sum := Wrapped(sum + rest[k]);
      rest := rest - {k};
    }
  }

  function Wrapped(n: nat): nat {
    n % TwoTo32
  }

  lemma WrappedSmall(n: nat)
    requires n < TwoTo32
    ensures Wrapped(n) == n
  {
  }

  lemma WrapOnce(a: nat, b: nat)
    ensures Wrapped(Wrapped(a) + b) == Wrapped(a + b) && Wrapped(Wrapped(a)) == Wrapped(a)
  {
  }

  /** The sampled total is the offline total exactly while that fits in 32 bits. */
  lemma SampleIsOfflineTotal(target: Address, reports: seq<SenderReport>)
    ensures var offline := SumOf(OfTarget(Offline(reports), target));
            Wrapped(SumOf(Online(target, reports))) == offline <==> offline < 0x1_0000_0000
  {
    hide Online, Offline, OfTarget;
    TotalsAgree(target, reports);
  }

  // ----- the offline sweep -----

  /** Takes in the sender reports up to a sample time and sums the target's credit. */
  method SweepSenders(reports: seq<SenderReport>, index0: nat, credits0: map<MsgKey, nat>, t: int, target: Address)
    returns (index: nat, credits: map<MsgKey, nat>, total: nat)
    requires index0 <= |reports| && credits0 == Offline(reports[..index0])
    ensures index0 <= index <= |reports| && credits == Offline(reports[..index])
    ensures forall i :: index0 <= i < index ==> reports[i].time <= t
    ensures index < |reports| ==> reports[index].time > t
    ensures total == SumOf(OfTarget(Offline(reports[..index]), target))
  {
    index, credits := index0, credits0;
    while index < |reports| && reports[index].time <= t
      invariant index0 <= index <= |reports| && credits == Offline(reports[..index])
      invariant forall i :: index0 <= i < index ==> reports[i].time <= t
    {
      assert reports[..index + 1][..index] == reports[..index];
      credits := credits[KeyOf(reports[index]) := reports[index].credit];
      index := index + 1;
    }
    total := SumTarget(credits, target);
  }

  method SumTarget(credits: map<MsgKey, nat>, target: Address) returns (total: nat)
    ensures total == SumOf(OfTarget(credits, target))
  {
    hide SumOf;
    total := 0;
    var rest := credits;
    while rest != map[]
      invariant total + SumOf(OfTarget(rest, target)) == SumOf(OfTarget(credits, target))
      decreases |rest|
    {
      var k :| k in rest;
      var part := OfTarget(rest, target);
      assert OfTarget(rest - {k}, target) == part - {k};
      if k.0 == target {
        SumWithout(part, k);
        total := total + rest[k];
      } else {
        assert part - {k} == part;
      }
      rest := rest - {k};
    }
    assert OfTarget(rest, target) == map[];
    EmptySum<MsgKey>();
  }
}
