/** The mean of the stored distribution against the mean that is reported with it. */
module WorkloadMean {
  import opened Workload
  import opened WorkloadCdf

  /** The stored entries, ascending: of equal probabilities the largest size is kept. */
  ghost function Thin(pct: map<nat, real>, total: real, k: nat): seq<(real, nat)>
    requires total > 0.0
  {
    if k == 0 then [] else
      var e := Thin(pct, total, k - 1);
      var p := AtMostOne(Share(UpTo(pct, k), total));
      if k !in pct then e
      else if e != [] && e[|e| - 1].0 == p then e[..|e| - 1] + [(p, k)]
      else e + [(p, k)]
  }

  /** No size up to k without weight lies above weight. */
  ghost predicate NoneAbove(pct: map<nat, real>, k: nat) {
    forall z :: z in pct && 0 < z <= k && pct[z] == 0.0 ==> UpTo(pct, z - 1) == 0.0
  }

  ghost predicate ThinOk(pct: map<nat, real>, total: real, k: nat, e: seq<(real, nat)>)
    requires total > 0.0
  {
    && Rising(e) && Before(e) == Share(UpTo(pct, k), total)
    && (forall i :: 0 <= i < |e| ==> 0.0 <= e[i].0 && e[i].1 <= k)
    && (forall j :: j in pct && 1 <= j <= k ==> e != [] && j <= e[|e| - 1].1)
    && (e == [] ==> UpTo(pct, k) == 0.0) && (e != [] ==> e[|e| - 1].1 in pct)
  }

  ghost predicate MeanOk(pct: map<nat, real>, total: real, k: nat, mean: real)
    requires total > 0.0
  {
    && mean >= Share(Moment(pct, k), total)
    && (mean == Share(Moment(pct, k), total) <==> NoneAbove(pct, k))
  }

  lemma AppendThin(pct: map<nat, real>, total: real, k: nat, e: seq<(real, nat)>, p: real)
    requires total > 0.0 && k > 0 && k in pct && ThinOk(pct, total, k - 1, e)
    requires p == Share(UpTo(pct, k), total) >= 0.0 && (e == [] || Before(e) < p)
    ensures ThinOk(pct, total, k, e + [(p, k)])
  {
    hide Share, UpTo;
    var f := e + [(p, k)];
    assert forall i :: 0 <= i < |e| ==> f[i] == e[i];
    if e != [] {
      RisingLast(e);
    }
    forall i, j | 0 <= i < j < |f| ensures f[i].0 < f[j].0 && f[i].1 < f[j].1 {
      assert j < |e| ==> f[j] == e[j];
    }
  }

  lemma ReplaceThin(pct: map<nat, real>, total: real, k: nat, e: seq<(real, nat)>)
    requires total > 0.0 && k > 0 && k in pct && ThinOk(pct, total, k - 1, e) && e != []
    requires UpTo(pct, k) == UpTo(pct, k - 1)
    ensures ThinOk(pct, total, k, e[..|e| - 1] + [(Before(e), k)])
  {
    hide Share, UpTo;
    var last := |e| - 1;
    var f := e[..last] + [(Before(e), k)];
    assert forall i :: 0 <= i < last ==> f[i] == e[i];
    RisingLast(e);
    forall i, j | 0 <= i < j < |f| ensures f[i].0 < f[j].0 && f[i].1 < f[j].1 {
      assert j < last ==> f[j] == e[j];
      assert e[i].0 < e[j].0;
    }
  }

  lemma ScaledMore(less: nat, more: nat, step: real)
    requires less < more && step >= 0.0
    ensures Scaled(more, step) >= Scaled(less, step)
    ensures Scaled(more, step) == Scaled(less, step) <==> step == 0.0
  {
    assert Scaled(more, step) == Scaled(less, step) + (more - less) as real * step;
  }

  /** The larger size takes the smaller one's step. */
  lemma ReplacedMean(e: seq<(real, nat)>, k: nat)
    requires Rising(e) && e != [] && e[|e| - 1].1 < k && forall i :: 0 <= i < |e| ==> 0.0 <= e[i].0
    ensures var f := e[..|e| - 1] + [(Before(e), k)];
      StepMean(f) >= StepMean(e) && (StepMean(f) == StepMean(e) <==> Before(e) == 0.0)
  {
    hide Scaled;
    var last := |e| - 1;
    var front, step := e[..last], e[last].0 - Before(e[..last]);
    AppendMean(front, e[last].0, k, step);
    AppendMean(front, e[last].0, e[last].1, step);
    assert e == front + [e[last]];
    ScaledMore(e[last].1, k, step);
  }

  lemma ThinStart(pct: map<nat, real>, total: real)
    requires total > 0.0
    ensures ThinOk(pct, total, 0, Thin(pct, total, 0)) && MeanOk(pct, total, 0, StepMean(Thin(pct, total, 0)))
    ensures Stored(Entries(pct, total, 0)) == Stored(Thin(pct, total, 0))
  {
  }

  lemma NoneAboveNext(pct: map<nat, real>, k: nat)
    requires k > 0
    ensures NoneAbove(pct, k) <==>
            NoneAbove(pct, k - 1) && (k in pct && pct[k] == 0.0 ==> UpTo(pct, k - 1) == 0.0)
  {
  }

  lemma UpToNext(pct: map<nat, real>, k: nat)
    requires k > 0
    ensures UpTo(pct, k) == UpTo(pct, k - 1) + WeightAt(pct, k)
  {
  }

  ghost predicate ThinInv(pct: map<nat, real>, total: real, k: nat)
    requires total > 0.0
  {
    var e := Thin(pct, total, k);
    ThinOk(pct, total, k, e) && MeanOk(pct, total, k, StepMean(e)) && Stored(Entries(pct, total, k)) == Stored(e)
  }

  lemma ShareOfZero(x: real, total: real)
    requires total > 0.0 && x >= 0.0
    ensures Share(x, total) == 0.0 <==> x == 0.0
    ensures Share(x, total) >= 0.0
  {
    ShareIsMonotone(0.0, x, total);
  }

  lemma ThinAppends(pct: map<nat, real>, total: real, k: nat)
    requires total > 0.0 && k > 0 && NonNegative(pct) && UpTo(pct, k) <= total && ThinInv(pct, total, k - 1)
    requires k in pct && (pct[k] > 0.0 || Thin(pct, total, k - 1) == [])
    ensures var e, p := Thin(pct, total, k - 1), Share(UpTo(pct, k), total);
      && p >= 0.0 && (e == [] || Before(e) < p)
      && Thin(pct, total, k) == e + [(p, k)] && p - Before(e) == Share(pct[k], total)
  {
    hide Share, StepMean, UpTo, Moment, Entries, Stored, NonNegative, NoneAbove, Rising;
    UpToGrows(pct, k - 1, k);
    UpToNext(pct, k);
    NextEntry(pct, total, k);
    ShareIsMonotone(UpTo(pct, k), total, total);
    ShareOfZero(UpTo(pct, k), total);
  }

  lemma StoredAppends(pct: map<nat, real>, total: real, k: nat, e: seq<(real, nat)>)
    requires total > 0.0 && k > 0 && k in pct && UpTo(pct, k) <= total
    requires Stored(Entries(pct, total, k - 1)) == Stored(e)
    ensures Stored(Entries(pct, total, k)) == Stored(e + [(Share(UpTo(pct, k), total), k)])
  {
    hide Share, UpTo, Moment, Entries, Stored;
    var p := Share(UpTo(pct, k), total);
    DistributionStep(pct, total, k);
    ShareIsMonotone(UpTo(pct, k), total, total);
    StoredLast(e + [(p, k)]);
    assert (e + [(p, k)])[..|e|] == e;
  }

  lemma NoWeightYet(pct: map<nat, real>, total: real, k: nat)
    requires total > 0.0 && k > 0 && k in pct && ThinInv(pct, total, k - 1)
    requires pct[k] > 0.0 || Thin(pct, total, k - 1) == []
    ensures NoneAbove(pct, k) <==> NoneAbove(pct, k - 1)
  {
    hide Share, StepMean, UpTo, Moment, Entries, Stored, NoneAbove, Rising;
    NoneAboveNext(pct, k);
  }

  lemma ThinNextWeight(pct: map<nat, real>, total: real, k: nat)
    requires total > 0.0 && k > 0 && NonNegative(pct) && UpTo(pct, k) <= total && ThinInv(pct, total, k - 1)
    requires k in pct && (pct[k] > 0.0 || Thin(pct, total, k - 1) == [])
    ensures ThinInv(pct, total, k)
  {
    hide Share, Scaled, StepMean, UpTo, Moment, Entries, Stored, NonNegative, NoneAbove, ThinOk, Thin, Before;
    var e := Thin(pct, total, k - 1);
    var p := Share(UpTo(pct, k), total);
    ThinAppends(pct, total, k);
    NextEntry(pct, total, k);
    AppendThin(pct, total, k, e, p);
    AppendMean(e, p, k, Share(pct[k], total));
    NoWeightYet(pct, total, k);
    StoredAppends(pct, total, k, e);
  }

  lemma ThinReplaces(pct: map<nat, real>, total: real, k: nat)
    requires total > 0.0 && k > 0 && NonNegative(pct) && UpTo(pct, k) <= total && ThinInv(pct, total, k - 1)
    requires k in pct && pct[k] == 0.0 && Thin(pct, total, k - 1) != []
    ensures var e := Thin(pct, total, k - 1);
      && Thin(pct, total, k) == e[..|e| - 1] + [(Before(e), k)] && UpTo(pct, k) == UpTo(pct, k - 1)
      && Before(e) == Share(UpTo(pct, k), total)
      && Rising(e) && e[|e| - 1].1 < k && (forall i :: 0 <= i < |e| ==> 0.0 <= e[i].0)
      && (Before(e) == 0.0 <==> UpTo(pct, k - 1) == 0.0)
  {
    hide Share, StepMean, UpTo, Moment, Entries, Stored, NonNegative, NoneAbove;
    UpToGrows(pct, k - 1, k);
    UpToNext(pct, k);
    ShareIsMonotone(UpTo(pct, k), total, total);
    ShareOfZero(UpTo(pct, k - 1), total);
  }

  lemma StoredReplaces(pct: map<nat, real>, total: real, k: nat, e: seq<(real, nat)>)
    requires total > 0.0 && k > 0 && k in pct && UpTo(pct, k) <= total && e != []
    requires Before(e) == Share(UpTo(pct, k), total) && Stored(Entries(pct, total, k - 1)) == Stored(e)
    ensures Stored(Entries(pct, total, k)) == Stored(e[..|e| - 1] + [(Before(e), k)])
  {
    hide Share, UpTo, Moment, Entries, Stored;
    var last := |e| - 1;
    var f := e[..last] + [(Before(e), k)];
    DistributionStep(pct, total, k);
    ShareIsMonotone(UpTo(pct, k), total, total);
    StoredLast(f);
    StoredLast(e);
    assert f[..last] == e[..last];
  }

  lemma ThinNextNone(pct: map<nat, real>, total: real, k: nat)
    requires total > 0.0 && k > 0 && NonNegative(pct) && UpTo(pct, k) <= total && ThinInv(pct, total, k - 1)
    requires k in pct && pct[k] == 0.0 && Thin(pct, total, k - 1) != []
    ensures ThinInv(pct, total, k)
  {
    hide Share, StepMean, UpTo, Moment, Entries, Stored, NonNegative, NoneAbove, Thin, Before, ThinOk;
    var e := Thin(pct, total, k - 1);
    ThinReplaces(pct, total, k);
    WeightlessMoment(pct, k);
    ReplaceThin(pct, total, k, e);
    ReplacedMean(e, k);
    NoneAboveNext(pct, k);
    StoredReplaces(pct, total, k, e);
  }

  lemma WeightlessMoment(pct: map<nat, real>, k: nat)
    requires k > 0 && k in pct && pct[k] == 0.0
    ensures Moment(pct, k) == Moment(pct, k - 1)
  {
    assert k as real * 0.0 == 0.0;
  }

  lemma ThinNextOut(pct: map<nat, real>, total: real, k: nat)
    requires total > 0.0 && k > 0 && ThinInv(pct, total, k - 1) && k !in pct
    ensures ThinInv(pct, total, k)
  {
    hide Share, StepMean, UpTo, Moment, Entries, Stored, Rising, NoneAbove;
    NoneAboveNext(pct, k);
    DistributionStep(pct, total, k);
  }

  lemma {:induction false} ThinHolds(pct: map<nat, real>, total: real, k: nat)
    requires total > 0.0 && NonNegative(pct) && UpTo(pct, k) <= total
    ensures ThinInv(pct, total, k)
    decreases k
  {
    hide ThinInv, UpTo, NonNegative;
    if k == 0 {
      ThinHoldsAtStart(pct, total);
    } else {
      UpToGrows(pct, k - 1, k);
      ThinHolds(pct, total, k - 1);
      if k !in pct {
        ThinNextOut(pct, total, k);
      } else {
        NotNegative(pct, k);
        if pct[k] > 0.0 || Thin(pct, total, k - 1) == [] {
          ThinNextWeight(pct, total, k);
        } else {
          ThinNextNone(pct, total, k);
        }
      }
    }
  }

  lemma NotNegative(pct: map<nat, real>, k: nat)
    requires NonNegative(pct) && k in pct
    ensures pct[k] >= 0.0
  {
  }

  lemma ThinHoldsAtStart(pct: map<nat, real>, total: real)
    requires total > 0.0
    ensures ThinInv(pct, total, 0)
  {
    ThinStart(pct, total);
  }

  // ----- in terms of the rows -----

  /** A size that only rows without weight have, above a size with weight. */
  ghost predicate HasWeightlessAbove(q: Query, rows: seq<Row>)
    requires q.bytesPerPkt > 0
  {
    exists size: nat, less: nat ::
      HasSize(q, rows, size) && !HasWeight(q, rows, size) && HasWeight(q, rows, less) && less < size
  }

  lemma {:induction false} NoRowsUpToZero(q: Query, rows: seq<Row>)
    requires q.bytesPerPkt > 0
    ensures RowsUpTo(q, rows, 0) == 0.0
    decreases |rows|
  {
    if rows == [] {
    } else {
      NoRowsUpToZero(q, rows[..|rows| - 1]);
    }
  }

  lemma WeightBelow(q: Query, rows: seq<Row>, k: nat)
    requires q.bytesPerPkt > 0 && NonNegativeRows(q, rows)
    ensures RowsUpTo(q, rows, k) == 0.0 <==> forall less: nat :: less <= k ==> !HasWeight(q, rows, less)
  {
    hide SizeInPkts, Selected, RowsUpTo;
    NoRowsUpToZero(q, rows);
    RowsGrow(q, rows, 0, k);
    if less: nat :| less <= k && HasWeight(q, rows, less) {
      PositiveSize(q, rows, less);
    } else {
      forall i | 0 <= i < |rows| && Selected(q, rows[i]) && 0 < SizeInPkts(q, rows[i]) <= k
        ensures rows[i].percent == 0.0
      {
        assert !HasWeight(q, rows, SizeInPkts(q, rows[i]));
      }
      RowsStand(q, rows, 0, k);
    }
  }

  lemma PositiveSize(q: Query, rows: seq<Row>, size: nat)
    requires q.bytesPerPkt > 0 && HasWeight(q, rows, size)
    ensures size > 0
  {
  }

  lemma WeightlessSize(q: Query, rows: seq<Row>, pct: map<nat, real>, total: real, k: nat)
    requires q.bytesPerPkt > 0 && NonNegativeRows(q, rows) && Merged(q, rows, pct, total) && k in pct
    ensures HasSize(q, rows, k) && 1 <= k <= MAX_PKTS && (pct[k] == 0.0 <==> !HasWeight(q, rows, k))
  {
    hide SizeInPkts, Selected, RowsUpTo;
    MergedWeight(q, rows, pct, total, k);
    assert UpTo(pct, k) == RowsUpTo(q, rows, k) && UpTo(pct, k - 1) == RowsUpTo(q, rows, k - 1);
    if !HasWeight(q, rows, k) {
      RowsStand(q, rows, k - 1, k);
    }
  }

  lemma SizeIsMerged(q: Query, rows: seq<Row>, pct: map<nat, real>, total: real, size: nat)
    requires q.bytesPerPkt > 0 && Merged(q, rows, pct, total) && HasSize(q, rows, size)
    ensures size in pct
  {
    hide SizeInPkts, Selected, UpTo, RowsUpTo;
  }

  lemma NoneAboveInRows(q: Query, rows: seq<Row>, pct: map<nat, real>, total: real)
    requires q.bytesPerPkt > 0 && NonNegativeRows(q, rows) && Merged(q, rows, pct, total)
    ensures NoneAbove(pct, MAX_PKTS) <==> !HasWeightlessAbove(q, rows)
  {
    hide Merged, UpTo, RowsUpTo, HasSize, HasWeight, NonNegativeRows;
    forall z | z in pct && 0 < z <= MAX_PKTS && pct[z] == 0.0
      ensures HasSize(q, rows, z) && !HasWeight(q, rows, z)
      ensures UpTo(pct, z - 1) == 0.0 <==> forall less: nat :: less < z ==> !HasWeight(q, rows, less)
    {
      WeightlessSize(q, rows, pct, total, z);
      UpToIsRows(q, rows, pct, total, z - 1);
      WeightBelow(q, rows, z - 1);
    }
    if size: nat, less: nat :|
      HasSize(q, rows, size) && !HasWeight(q, rows, size) && HasWeight(q, rows, less) && less < size {
      SizeIsMerged(q, rows, pct, total, size);
      WeightlessSize(q, rows, pct, total, size);
      assert size in pct && pct[size] == 0.0 && UpTo(pct, size - 1) != 0.0;
    }
  }

  lemma UpToIsRows(q: Query, rows: seq<Row>, pct: map<nat, real>, total: real, k: nat)
    requires q.bytesPerPkt > 0 && Merged(q, rows, pct, total)
    ensures UpTo(pct, k) == RowsUpTo(q, rows, k)
  {
  }

  /** The stored distribution never has a smaller mean than the one reported with it, and has the same
      mean exactly when no size that only weightless rows have lies above a size with weight. */
  lemma StoredMeanIff(q: Query, rows: seq<Row>, spec: Spec) returns (entries: seq<(real, nat)>)
    requires q.bytesPerPkt > 0 && NonNegativeRows(q, rows) && IsSpecOf(q, rows, spec)
    ensures Rising(entries) && entries != [] && entries[|entries| - 1].0 == 1.0 && IsMapOf(spec.cdf, entries)
    ensures StepMean(entries) >= spec.mean
    ensures StepMean(entries) == spec.mean <==> !HasWeightlessAbove(q, rows)
  {
    hide Merged, UpTo, RowsUpTo, Moment, RowsMoment, Entries, Stored, StepMean, Thin, Share, NonNegative,
         NonNegativeRows, HasWeightlessAbove, NoneAbove, IsMapOf, PositiveAboveLeast;
    var pct: map<nat, real>, total: real, largest: nat :| SpecFrom(q, rows, pct, total, largest, spec);
    MergedTotals(q, rows, pct, total);
    WeightsMerge(q, rows, pct, total);
    ThinHolds(pct, total, MAX_PKTS);
    NoneAboveInRows(q, rows, pct, total);
    ShareIsMonotone(total, total, total);
    entries := Thin(pct, total, MAX_PKTS);
    assert entries[|entries| - 1] == (1.0, largest);
    KeepLast(entries, largest);
    StoredKeepsAll(entries);
  }
}
