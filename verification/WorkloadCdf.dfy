/** What the raw-workload reader's distribution means, and exactly which weights of zero spoil it. */
module WorkloadCdf {
  import opened Workload

  ghost predicate NonNegativeRows(q: Query, rows: seq<Row>) {
    forall i :: 0 <= i < |rows| && Selected(q, rows[i]) ==> rows[i].percent >= 0.0
  }

  ghost predicate HasSize(q: Query, rows: seq<Row>, size: nat)
    requires q.bytesPerPkt > 0
  {
    exists i :: 0 <= i < |rows| && Selected(q, rows[i]) && SizeInPkts(q, rows[i]) == size
  }

  ghost predicate HasWeight(q: Query, rows: seq<Row>, size: nat)
    requires q.bytesPerPkt > 0
  {
    exists i :: 0 <= i < |rows| && Selected(q, rows[i]) && SizeInPkts(q, rows[i]) == size && rows[i].percent > 0.0
  }

  /** Every size but the least has a row of positive weight. */
  ghost predicate WeightsAboveLeast(q: Query, rows: seq<Row>)
    requires q.bytesPerPkt > 0
  {
    forall size, less :: HasSize(q, rows, size) && HasSize(q, rows, less) && less < size ==> HasWeight(q, rows, size)
  }

  ghost predicate NonNegative(pct: map<nat, real>) {
    forall k :: k in pct ==> pct[k] >= 0.0
  }

  ghost predicate PositiveAboveLeast(pct: map<nat, real>) {
    forall k, j :: k in pct && j in pct && j < k ==> pct[k] > 0.0
  }

  ghost predicate Rising(entries: seq<(real, nat)>) {
    forall i, j :: 0 <= i < j < |entries| ==> entries[i].0 < entries[j].0 && entries[i].1 < entries[j].1
  }

  function Before(entries: seq<(real, nat)>): real {
    if entries == [] then 0.0 else entries[|entries| - 1].0
  }

  function Scaled(size: nat, step: real): real {
    size as real * step
  }

  /** The mean that the distribution describes: each size times the step at it. */
  ghost function StepMean(entries: seq<(real, nat)>): real {
    if entries == [] then 0.0 else
      var front := entries[..|entries| - 1];
      StepMean(front) + Scaled(entries[|entries| - 1].1, entries[|entries| - 1].0 - Before(front))
  }

  // ----- merged weights are positive -----

  lemma {:induction false} RowsGrow(q: Query, rows: seq<Row>, j: nat, k: nat)
    requires q.bytesPerPkt > 0 && NonNegativeRows(q, rows) && j <= k
    ensures RowsUpTo(q, rows, j) <= RowsUpTo(q, rows, k)
    ensures (exists i :: && 0 <= i < |rows| && Selected(q, rows[i])
                         && j < SizeInPkts(q, rows[i]) <= k && rows[i].percent > 0.0)
            ==> RowsUpTo(q, rows, j) < RowsUpTo(q, rows, k)
    decreases |rows|
  {
    hide SizeInPkts, Selected;
    if rows == [] {
    } else {
      RowsGrow(q, rows[..|rows| - 1], j, k);
    }
  }

  /** Rows of no weight, and sizes that no row has, do not move the sum. */
  lemma {:induction false} RowsStand(q: Query, rows: seq<Row>, j: nat, k: nat)
    requires q.bytesPerPkt > 0 && j <= k
    requires forall i :: 0 <= i < |rows| && Selected(q, rows[i]) && j < SizeInPkts(q, rows[i]) <= k ==>
             rows[i].percent == 0.0
    ensures RowsUpTo(q, rows, j) == RowsUpTo(q, rows, k)
    decreases |rows|
  {
    hide SizeInPkts, Selected;
    if rows == [] {
    } else {
      RowsStand(q, rows[..|rows| - 1], j, k);
    }
  }

  lemma MergedWeight(q: Query, rows: seq<Row>, pct: map<nat, real>, total: real, k: nat)
    requires q.bytesPerPkt > 0 && NonNegativeRows(q, rows) && Merged(q, rows, pct, total) && k in pct
    ensures pct[k] >= 0.0 && HasSize(q, rows, k) && (HasWeight(q, rows, k) ==> pct[k] > 0.0)
  {
    hide SizeInPkts, Selected, RowsUpTo;
    RowsGrow(q, rows, k - 1, k);
    assert UpTo(pct, k) == RowsUpTo(q, rows, k) && UpTo(pct, k - 1) == RowsUpTo(q, rows, k - 1);
  }

  lemma WeightsMerge(q: Query, rows: seq<Row>, pct: map<nat, real>, total: real)
    requires q.bytesPerPkt > 0 && NonNegativeRows(q, rows) && Merged(q, rows, pct, total)
    ensures NonNegative(pct) && (WeightsAboveLeast(q, rows) ==> PositiveAboveLeast(pct))
  {
    hide HasSize, HasWeight, Merged, NonNegativeRows;
    forall k | k in pct ensures pct[k] >= 0.0 && HasSize(q, rows, k) && (HasWeight(q, rows, k) ==> pct[k] > 0.0) {
      MergedWeight(q, rows, pct, total, k);
    }
  }

  lemma {:induction false} UpToGrows(pct: map<nat, real>, j: nat, k: nat)
    requires NonNegative(pct) && j <= k
    ensures 0.0 <= UpTo(pct, j) <= UpTo(pct, k)
    decreases k
  {
    if j < k {
      UpToGrows(pct, j, k - 1);
    } else if k > 0 {
      UpToGrows(pct, k - 1, k - 1);
    }
  }

  lemma {:induction false} NothingAbove(pct: map<nat, real>, j: nat, k: nat)
    requires j <= k && forall i :: i in pct ==> i <= j
    ensures UpTo(pct, k) == UpTo(pct, j)
    decreases k
  {
    if j < k {
      NothingAbove(pct, j, k - 1);
    }
  }

  lemma ShareIsMonotone(x: real, y: real, total: real)
    requires total > 0.0
    ensures x < y ==> Share(x, total) < Share(y, total)
    ensures x <= y ==> Share(x, total) <= Share(y, total)
    ensures Share(total, total) == 1.0
  {
    var gap := y - x;
    assert Share(y, total) == Share(x, total) + gap / total;
  }

  // ----- the entries -----

  /** Each entry is the share of the weight up to its size. */
  ghost predicate SharesOk(pct: map<nat, real>, total: real, k: nat, e: seq<(real, nat)>)
    requires total > 0.0
  {
    && Rising(e)
    && (forall i :: 0 <= i < |e| ==> e[i].1 <= k && e[i].1 in pct && e[i].0 == Share(UpTo(pct, e[i].1), total))
    && Before(e) == Share(UpTo(pct, k), total)
  }

  ghost predicate Covers(pct: map<nat, real>, k: nat, e: seq<(real, nat)>) {
    forall size :: size in pct && 1 <= size <= k ==> exists i :: 0 <= i < |e| && e[i].1 == size
  }

  ghost predicate EntriesOk(pct: map<nat, real>, total: real, k: nat)
    requires total > 0.0
  {
    var e := Entries(pct, total, k);
    SharesOk(pct, total, k, e) && Covers(pct, k, e) && StepMean(e) == Share(Moment(pct, k), total)
  }

  lemma EntriesStart(pct: map<nat, real>, total: real)
    requires total > 0.0
    ensures EntriesOk(pct, total, 0)
  {
  }

  lemma RisingLast(e: seq<(real, nat)>)
    requires Rising(e) && e != []
    ensures forall i :: 0 <= i < |e| ==> e[i].0 <= e[|e| - 1].0 && e[i].1 <= e[|e| - 1].1
  {
  }

  lemma AppendShare(pct: map<nat, real>, total: real, k: nat, e: seq<(real, nat)>)
    requires total > 0.0 && k > 0 && k in pct && SharesOk(pct, total, k - 1, e)
    requires e == [] || Share(UpTo(pct, k - 1), total) < Share(UpTo(pct, k), total)
    ensures SharesOk(pct, total, k, e + [(Share(UpTo(pct, k), total), k)])
  {
    hide Share, UpTo;
    var p := Share(UpTo(pct, k), total);
    var f := e + [(p, k)];
    assert forall i :: 0 <= i < |e| ==> f[i] == e[i];
    if e != [] {
      RisingLast(e);
    }
    forall i, j | 0 <= i < j < |f| ensures f[i].0 < f[j].0 && f[i].1 < f[j].1 {
      assert j < |e| ==> f[j] == e[j];
    }
  }

  lemma AppendCovers(pct: map<nat, real>, k: nat, e: seq<(real, nat)>, p: real)
    requires k > 0 && Covers(pct, k - 1, e)
    ensures Covers(pct, k, e + [(p, k)])
    ensures k !in pct ==> Covers(pct, k, e)
  {
    var f := e + [(p, k)];
    forall size | size in pct && 1 <= size <= k ensures exists i :: 0 <= i < |f| && f[i].1 == size {
      if size < k {
        var i :| 0 <= i < |e| && e[i].1 == size;
        assert f[i].1 == size;
      } else {
        assert f[|e|].1 == size;
      }
    }
  }

  lemma AppendMean(e: seq<(real, nat)>, p: real, size: nat, step: real)
    requires p - Before(e) == step
    ensures StepMean(e + [(p, size)]) == StepMean(e) + Scaled(size, step)
  {
    hide Scaled;
    assert (e + [(p, size)])[..|e|] == e;
  }

  lemma NextIn(pct: map<nat, real>, total: real, k: nat)
    requires total > 0.0 && k > 0 && NonNegative(pct) && PositiveAboveLeast(pct) && UpTo(pct, k) <= total
    requires EntriesOk(pct, total, k - 1) && k in pct
    ensures EntriesOk(pct, total, k)
  {
    hide Share, StepMean, Scaled, SharesOk, Covers, Moment, UpTo, Entries, Stored, PositiveAboveLeast, NonNegative,
         Before;
    var e := Entries(pct, total, k - 1);
    var p := Share(UpTo(pct, k), total);
    UpToStep(pct, total, k, e);
    NextEntry(pct, total, k);
    SharesBefore(pct, total, k - 1, e);
    AppendShare(pct, total, k, e);
    AppendCovers(pct, k, e, p);
    AppendMean(e, p, k, Share(pct[k], total));
  }

  lemma NextEntry(pct: map<nat, real>, total: real, k: nat)
    requires total > 0.0 && k > 0 && k in pct && UpTo(pct, k) <= total
    ensures UpTo(pct, k - 1) < UpTo(pct, k) ==> Share(UpTo(pct, k - 1), total) < Share(UpTo(pct, k), total)
    ensures Share(UpTo(pct, k), total) - Share(UpTo(pct, k - 1), total) == Share(pct[k], total)
    ensures Share(Moment(pct, k), total) == Share(Moment(pct, k - 1), total) + Scaled(k, Share(pct[k], total))
    ensures Entries(pct, total, k) == Entries(pct, total, k - 1) + [(Share(UpTo(pct, k), total), k)]
  {
    hide Share, Moment, UpTo, Entries, Stored;
    DistributionStep(pct, total, k);
    ShareIsMonotone(UpTo(pct, k - 1), UpTo(pct, k), total);
    ShareIsMonotone(UpTo(pct, k), total, total);
  }

  lemma NextOut(pct: map<nat, real>, total: real, k: nat)
    requires total > 0.0 && k > 0 && EntriesOk(pct, total, k - 1) && k !in pct
    ensures EntriesOk(pct, total, k)
  {
    hide Share, StepMean, Covers, Moment, UpTo, Entries, Stored, Rising;
    DistributionStep(pct, total, k);
    AppendCovers(pct, k, Entries(pct, total, k), 0.0);
  }

  lemma EntriesNext(pct: map<nat, real>, total: real, k: nat)
    requires total > 0.0 && k > 0 && NonNegative(pct) && PositiveAboveLeast(pct) && UpTo(pct, k) <= total
    requires EntriesOk(pct, total, k - 1)
    ensures EntriesOk(pct, total, k)
  {
    hide EntriesOk, UpTo, NonNegative, PositiveAboveLeast;
    if k in pct {
      NextIn(pct, total, k);
    } else {
      NextOut(pct, total, k);
    }
  }

  lemma UpToStep(pct: map<nat, real>, total: real, k: nat, e: seq<(real, nat)>)
    requires total > 0.0 && k > 0 && k in pct && PositiveAboveLeast(pct) && SharesOk(pct, total, k - 1, e)
    ensures e == [] || UpTo(pct, k - 1) < UpTo(pct, k)
  {
    hide Share;
    if e != [] {
      assert e[0].1 in pct && e[0].1 < k;
    }
  }

  lemma SharesBefore(pct: map<nat, real>, total: real, k: nat, e: seq<(real, nat)>)
    requires total > 0.0 && SharesOk(pct, total, k, e)
    ensures Before(e) == Share(UpTo(pct, k), total)
  {
  }

  lemma {:induction false} EntriesAreOk(pct: map<nat, real>, total: real, k: nat)
    requires total > 0.0 && NonNegative(pct) && PositiveAboveLeast(pct) && UpTo(pct, k) <= total
    ensures EntriesOk(pct, total, k)
    decreases k
  {
    if k == 0 {
      EntriesStart(pct, total);
    } else {
      hide EntriesOk, UpTo, NonNegative, PositiveAboveLeast;
      UpToGrows(pct, k - 1, k);
      EntriesAreOk(pct, total, k - 1);
      EntriesNext(pct, total, k);
    }
  }

  lemma StoredLast(e: seq<(real, nat)>)
    requires e != []
    ensures Stored(e) == Stored(e[..|e| - 1])[e[|e| - 1].0 := e[|e| - 1].1]
  {
  }

  lemma MapWithLast(m: map<real, nat>, e: seq<(real, nat)>, p: real, size: nat)
    requires IsMapOf(m, e) && forall i :: 0 <= i < |e| ==> e[i].0 != p
    ensures IsMapOf(m[p := size], e + [(p, size)])
  {
    var f := e + [(p, size)];
    assert f[|e|] == (p, size);
    var n := m[p := size];
    forall x | x in n ensures exists i :: 0 <= i < |f| && f[i].0 == x {
      if x != p {
        var i :| 0 <= i < |e| && e[i].0 == x;
        assert f[i].0 == x;
      }
    }
  }

  lemma {:induction false} StoredKeepsAll(e: seq<(real, nat)>)
    requires Rising(e)
    ensures IsMapOf(Stored(e), e)
    decreases |e|
  {
    if e != [] {
      hide Stored, IsMapOf;
      var last := |e| - 1;
      StoredKeepsAll(e[..last]);
      StoredLast(e);
      MapWithLast(Stored(e[..last]), e[..last], e[last].0, e[last].1);
      assert e == e[..last] + [e[last]];
    } else {
      assert Stored(e) == map[];
    }
  }

  /** entries is the distribution of spec, ascending, and says of each size what share of the rows'
      weight has at most that size. */
  ghost predicate Describes(q: Query, rows: seq<Row>, spec: Spec, entries: seq<(real, nat)>)
    requires q.bytesPerPkt > 0 && RowsUpTo(q, rows, MAX_PKTS) > 0.0
  {
    && Rising(entries) && entries != [] && entries[|entries| - 1].0 == 1.0
    && SharesOfRows(q, rows, entries)
    && AccountsForRows(q, rows, entries)
    && IsMapOf(spec.cdf, entries)
    && spec.mean == StepMean(entries) == Share(RowsMoment(q, rows), RowsUpTo(q, rows, MAX_PKTS))
  }

  ghost predicate SharesOfRows(q: Query, rows: seq<Row>, entries: seq<(real, nat)>)
    requires q.bytesPerPkt > 0 && RowsUpTo(q, rows, MAX_PKTS) > 0.0
  {
    forall i :: 0 <= i < |entries| ==>
      entries[i].0 == Share(RowsUpTo(q, rows, entries[i].1), RowsUpTo(q, rows, MAX_PKTS))
  }

  ghost predicate AccountsForRows(q: Query, rows: seq<Row>, entries: seq<(real, nat)>)
    requires q.bytesPerPkt > 0
  {
    forall i :: 0 <= i < |rows| && Selected(q, rows[i]) ==>
      exists j :: 0 <= j < |entries| && entries[j].1 == SizeInPkts(q, rows[i])
  }

  ghost predicate IsMapOf(m: map<real, nat>, entries: seq<(real, nat)>) {
    && (forall i :: 0 <= i < |entries| ==> entries[i].0 in m && m[entries[i].0] == entries[i].1)
    && (forall p :: p in m ==> exists i :: 0 <= i < |entries| && entries[i].0 == p)
  }

  lemma LastEntry(pct: map<nat, real>, total: real, largest: nat)
    requires total > 0.0 && total == UpTo(pct, MAX_PKTS) && InBounds(pct) && EntriesOk(pct, total, MAX_PKTS)
    requires largest in pct && forall k :: k in pct ==> k <= largest
    ensures var e := Entries(pct, total, MAX_PKTS);
      e != [] && e[|e| - 1] == (1.0, largest)
  {
    hide Share, UpTo, StepMean, Moment, Entries;
    var e := Entries(pct, total, MAX_PKTS);
    ShareIsMonotone(0.0, 0.0, total);
    var i :| 0 <= i < |e| && e[i].1 == largest;
    RisingLast(e);
  }

  lemma ProperCdf(q: Query, rows: seq<Row>, spec: Spec) returns (entries: seq<(real, nat)>)
    requires q.bytesPerPkt > 0 && NonNegativeRows(q, rows) && WeightsAboveLeast(q, rows) && IsSpecOf(q, rows, spec)
    ensures RowsUpTo(q, rows, MAX_PKTS) > 0.0 && Describes(q, rows, spec, entries)
  {
    hide Share, UpTo, RowsUpTo, Moment, RowsMoment, StepMean, Entries, Stored, Merged, SharesOk, Covers, IsMapOf,
         Rising, SharesOfRows, AccountsForRows, PositiveAboveLeast, NonNegative, InBounds, NonNegativeRows,
         WeightsAboveLeast;
    var pct: map<nat, real>, total: real, largest: nat :| SpecFrom(q, rows, pct, total, largest, spec);
    entries := Entries(pct, total, MAX_PKTS);
    MergedTotals(q, rows, pct, total);
    WeightsMerge(q, rows, pct, total);
    EntriesAreOk(pct, total, MAX_PKTS);
    EntriesRise(pct, total, MAX_PKTS, entries);
    LastEntry(pct, total, largest);
    StoredKeepsAll(entries);
    KeepLast(entries, largest);
    RowShares(q, rows, pct, total, entries);
  }

  lemma SpecTotal(q: Query, rows: seq<Row>, spec: Spec)
    requires q.bytesPerPkt > 0 && IsSpecOf(q, rows, spec)
    ensures RowsUpTo(q, rows, MAX_PKTS) > 0.0
  {
    hide Merged, UpTo, RowsUpTo, Moment, RowsMoment, Entries, Stored;
    var pct: map<nat, real>, total: real, largest: nat :| SpecFrom(q, rows, pct, total, largest, spec);
    MergedTotals(q, rows, pct, total);
  }

  /** The entry of a size that is not the least lies above another one, with no size in between. */
  lemma EntryBelow(q: Query, rows: seq<Row>, spec: Spec, entries: seq<(real, nat)>, size: nat, less: nat)
    returns (j: nat)
    requires q.bytesPerPkt > 0 && RowsUpTo(q, rows, MAX_PKTS) > 0.0 && Describes(q, rows, spec, entries)
    requires HasSize(q, rows, size) && HasSize(q, rows, less) && less < size
    ensures 0 < j < |entries| && entries[j].1 == size && entries[j - 1].1 < size
    ensures forall i :: 0 <= i < |rows| && Selected(q, rows[i]) ==>
      !(entries[j - 1].1 < SizeInPkts(q, rows[i]) < size)
  {
    hide SizeInPkts, Selected, RowsUpTo, RowsMoment, StepMean, Share, IsMapOf, SharesOfRows;
    j :| j < |entries| && entries[j].1 == size;
    var i :| 0 <= i < |entries| && entries[i].1 == less;
    assert j > i;
    forall k | 0 <= k < |rows| && Selected(q, rows[k])
      ensures !(entries[j - 1].1 < SizeInPkts(q, rows[k]) < size)
    {
      var h :| 0 <= h < |entries| && entries[h].1 == SizeInPkts(q, rows[k]);
      assert h < j - 1 || h == j - 1 || h == j || h > j;
    }
  }

  lemma WeightIsNeeded(q: Query, rows: seq<Row>, spec: Spec, entries: seq<(real, nat)>, size: nat, less: nat)
    requires q.bytesPerPkt > 0 && NonNegativeRows(q, rows) && RowsUpTo(q, rows, MAX_PKTS) > 0.0
    requires Describes(q, rows, spec, entries) && HasSize(q, rows, size) && HasSize(q, rows, less) && less < size
    ensures HasWeight(q, rows, size)
  {
    hide SizeInPkts, Selected, RowsUpTo, RowsMoment, StepMean, Share, IsMapOf, AccountsForRows;
    var j := EntryBelow(q, rows, spec, entries, size, less);
    if !HasWeight(q, rows, size) {
      RowsStand(q, rows, entries[j - 1].1, size);
    }
  }

  /** With weights that are not negative, the stored distribution rises strictly in probability and
      size, ends at probability one with the largest size, accounts for every row, and has the mean
      that is reported with it, exactly when every size but the least has a row of positive weight. */
  lemma CdfIsProperIff(q: Query, rows: seq<Row>, spec: Spec)
    requires q.bytesPerPkt > 0 && NonNegativeRows(q, rows) && IsSpecOf(q, rows, spec)
    ensures RowsUpTo(q, rows, MAX_PKTS) > 0.0
    ensures (exists entries :: Describes(q, rows, spec, entries)) <==> WeightsAboveLeast(q, rows)
  {
    hide RowsUpTo, IsSpecOf, NonNegativeRows, HasSize, HasWeight, Describes;
    SpecTotal(q, rows, spec);
    if WeightsAboveLeast(q, rows) {
      var entries := ProperCdf(q, rows, spec);
    }
    if entries :| Describes(q, rows, spec, entries) {
      forall size, less | HasSize(q, rows, size) && HasSize(q, rows, less) && less < size
        ensures HasWeight(q, rows, size)
      {
        WeightIsNeeded(q, rows, spec, entries, size, less);
      }
    }
  }

  lemma MergedTotals(q: Query, rows: seq<Row>, pct: map<nat, real>, total: real)
    requires q.bytesPerPkt > 0 && Merged(q, rows, pct, total)
    ensures InBounds(pct) && total == UpTo(pct, MAX_PKTS) == RowsUpTo(q, rows, MAX_PKTS)
    ensures Moment(pct, MAX_PKTS) == RowsMoment(q, rows)
  {
  }

  lemma EntriesRise(pct: map<nat, real>, total: real, k: nat, e: seq<(real, nat)>)
    requires total > 0.0 && SharesOk(pct, total, k, e)
    ensures Rising(e)
  {
  }

  lemma KeepLast(e: seq<(real, nat)>, largest: nat)
    requires e != [] && e[|e| - 1] == (1.0, largest)
    ensures Stored(e)[1.0 := largest] == Stored(e)
  {
  }

  lemma RowShares(q: Query, rows: seq<Row>, pct: map<nat, real>, total: real, entries: seq<(real, nat)>)
    requires q.bytesPerPkt > 0 && Merged(q, rows, pct, total) && total == RowsUpTo(q, rows, MAX_PKTS) > 0.0
    requires SharesOk(pct, total, MAX_PKTS, entries) && Covers(pct, MAX_PKTS, entries)
    ensures SharesOfRows(q, rows, entries) && AccountsForRows(q, rows, entries)
  {
    hide Share, UpTo, RowsUpTo, Moment, RowsMoment, SizeInPkts, Selected, Rising;
    forall i | 0 <= i < |entries|
      ensures entries[i].0 == Share(RowsUpTo(q, rows, entries[i].1), RowsUpTo(q, rows, MAX_PKTS))
    {
      assert UpTo(pct, entries[i].1) == RowsUpTo(q, rows, entries[i].1);
    }
    forall i | 0 <= i < |rows| && Selected(q, rows[i])
      ensures exists j :: 0 <= j < |entries| && entries[j].1 == SizeInPkts(q, rows[i])
    {
      assert SizeInPkts(q, rows[i]) in pct;
    }
  }

  /** For instance, one row of all the weight and a larger message of none. */
  lemma WeightlessRowOnTop(load: real, spec: Spec)
    requires var q := Query("w", "t", load, 1000);
      IsSpecOf(q, [Row("t", load, "w", 1, 1.0), Row("t", load, "w", 2000, 0.0)], spec)
    ensures var q := Query("w", "t", load, 1000);
      var rows := [Row("t", load, "w", 1, 1.0), Row("t", load, "w", 2000, 0.0)];
      RowsUpTo(q, rows, MAX_PKTS) > 0.0 && forall entries :: !Describes(q, rows, spec, entries)
  {
    hide Describes, IsSpecOf, RowsUpTo;
    var q := Query("w", "t", load, 1000);
    var rows := [Row("t", load, "w", 1, 1.0), Row("t", load, "w", 2000, 0.0)];
    CdfIsProperIff(q, rows, spec);
    assert Selected(q, rows[0]) && SizeInPkts(q, rows[0]) == 1;
    assert Selected(q, rows[1]) && SizeInPkts(q, rows[1]) == 2;
    assert HasSize(q, rows, 1) && HasSize(q, rows, 2) && !HasWeight(q, rows, 2);
  }
}
