/** What the reader of raw rows stores for any rows, whatever the sign of their weights
    (scratch/sim1.cc). */
module WorkloadEntries {
  import opened Wrappers
  import opened Workload
  import opened WorkloadCdf

  /** The share of the rows with at most k packets, but at most one. */
  ghost function CappedShare(q: Query, rows: seq<Row>, k: nat): real
    requires q.bytesPerPkt > 0 && RowsUpTo(q, rows, MAX_PKTS) > 0.0
  {
    var share := RowsUpTo(q, rows, k) / RowsUpTo(q, rows, MAX_PKTS);
    if share < 1.0 then share else 1.0
  }

  /** The stored shares of the sizes up to k; of sizes with the same share the greatest is kept. */
  ghost predicate HoldsUpTo(pct: map<nat, real>, total: real, k: nat, m: map<real, nat>)
    requires total > 0.0
  {
    && (forall p :: p in m ==> m[p] in pct && 1 <= m[p] <= k && p == AtMostOne(Share(UpTo(pct, m[p]), total)))
    && (forall j :: j in pct && 1 <= j <= k ==>
                      && AtMostOne(Share(UpTo(pct, j), total)) in m
                      && m[AtMostOne(Share(UpTo(pct, j), total))] >= j)
  }

  lemma {:induction false} StoredHoldsAll(pct: map<nat, real>, total: real, k: nat)
    requires total > 0.0
    ensures HoldsUpTo(pct, total, k, Stored(Entries(pct, total, k)))
    decreases k
  {
    if k == 0 {
    } else {
      hide Share, UpTo, AtMostOne, Stored, Entries;
      StoredHoldsAll(pct, total, k - 1);
      DistributionStep(pct, total, k);
    }
  }

  /** The sizes are those of the selected rows. Each has its capped share as key, and the size stored there is
      the greatest with that share; at one stands the greatest size of all. The mean is the reported one. */
  lemma StoredByShare(q: Query, rows: seq<Row>, spec: Spec)
    requires q.bytesPerPkt > 0 && IsSpecOf(q, rows, spec)
    ensures RowsUpTo(q, rows, MAX_PKTS) > 0.0
    ensures spec.mean == RowsMoment(q, rows) / RowsUpTo(q, rows, MAX_PKTS)
    ensures forall p :: p in spec.cdf ==> p <= 1.0 && HasSize(q, rows, spec.cdf[p])
    ensures forall p :: p in spec.cdf && p < 1.0 ==> p == CappedShare(q, rows, spec.cdf[p])
    ensures forall k :: HasSize(q, rows, k) ==>
                          && CappedShare(q, rows, k) in spec.cdf && spec.cdf[CappedShare(q, rows, k)] >= k
                          && 1.0 in spec.cdf && spec.cdf[1.0] >= k
  {
    hide Merged, Share, UpTo, Moment, Stored, Entries, RowsUpTo, RowsMoment, AtMostOne, SizeInPkts;
    var pct, total, largest :| SpecFrom(q, rows, pct, total, largest, spec);
    MergedTotals(q, rows, pct, total);
    StoredHoldsAll(pct, total, MAX_PKTS);
    SharesAreOfRows(q, rows, pct, total);
  }

  lemma SharesAreOfRows(q: Query, rows: seq<Row>, pct: map<nat, real>, total: real)
    requires q.bytesPerPkt > 0 && Merged(q, rows, pct, total) && total == RowsUpTo(q, rows, MAX_PKTS) > 0.0
    ensures forall k :: k in pct ==> AtMostOne(Share(UpTo(pct, k), total)) == CappedShare(q, rows, k) <= 1.0
    ensures forall k :: k in pct <==> HasSize(q, rows, k)
    ensures Share(RowsMoment(q, rows), total) == RowsMoment(q, rows) / RowsUpTo(q, rows, MAX_PKTS)
  {
    hide SizeInPkts, Selected, RowsUpTo, RowsMoment, UpTo;
    forall k | k in pct ensures AtMostOne(Share(UpTo(pct, k), total)) == CappedShare(q, rows, k) <= 1.0 {
      assert UpTo(pct, k) == RowsUpTo(q, rows, k);
    }
  }
}
