/** The message-size distribution read from raw rows (scratch/sim1.cc, ReadPaperRawWorkload), over
    exact reals. */
module Workload {
  import opened Wrappers

  const MAX_PKTS: nat := 0xffff

  datatype Row = Row(transport: string, load: real, workload: string, bytes: nat, percent: real)

  datatype Query = Query(workload: string, transport: string, load: real, bytesPerPkt: nat)

  datatype Spec = Spec(mean: real, cdf: map<real, nat>)

  datatype Error = NoWorkloadName | NoPacketSize | NoRows | NoProbability

  function CanonicalWorkload(workload: string): string {
    if workload == "google_rpc" then "GOOGLE_ALL_RPC"
    else if workload == "facebook_hadoop" then "FACEBOOK_HADOOP_ALL"
    else if workload == "web_search" then "DCTCP"
    else workload
  }

  predicate Selected(q: Query, row: Row) {
    && row.transport == q.transport && row.workload == CanonicalWorkload(q.workload)
    && -0.000000001 <= row.load - q.load <= 0.000000001
  }

  /** Packets of a message, in 64-bit arithmetic. */
  function SizeInPkts(q: Query, row: Row): (pkts: nat)
    requires q.bytesPerPkt > 0
    ensures 1 <= pkts <= MAX_PKTS
  {
    var pkts := ((row.bytes + q.bytesPerPkt - 1) % 0x1_0000_0000_0000_0000) / q.bytesPerPkt;
    if pkts < 1 then 1 else if pkts > MAX_PKTS then MAX_PKTS else pkts
  }

  /** The least number of packets that holds the bytes, but at least one and at most the clamp. */
  ghost predicate IsClampedCover(pkts: nat, bytes: nat, perPkt: nat) {
    && 1 <= pkts <= 0xffff
    && (pkts < 0xffff ==> bytes <= pkts * perPkt)
    && (pkts > 1 ==> (pkts - 1) * perPkt < bytes)
  }

  /** The size is that number exactly when rounding up does not wrap around. */
  lemma SizeIsLeastIff(q: Query, row: Row)
    requires 0 < q.bytesPerPkt < 0x1_0000_0000 && row.bytes < 0x1_0000_0000_0000_0000
    ensures IsClampedCover(SizeInPkts(q, row), row.bytes, q.bytesPerPkt) <==>
            row.bytes + q.bytesPerPkt <= 0x1_0000_0000_0000_0000
  {
    var n, b, k := row.bytes + q.bytesPerPkt - 1, q.bytesPerPkt, SizeInPkts(q, row);
    if row.bytes + b <= 0x1_0000_0000_0000_0000 {
      assert n == (n / b) * b + n % b;
      if k > 1 {
        Times(k, n / b, b);
      }
      if k < MAX_PKTS {
        Times(n / b, k, b);
      }
    } else {
      Wraps(n, b);
    }
  }

  lemma Wraps(n: nat, b: nat)
    requires 0x1_0000_0000_0000_0000 <= n < 0x1_0000_0000_0000_0000 + b - 1 && b < 0x1_0000_0000
    ensures (n % 0x1_0000_0000_0000_0000) / b == 0
  {
    assert n % 0x1_0000_0000_0000_0000 == n - 0x1_0000_0000_0000_0000;
  }

  lemma Times(i: nat, j: nat, b: nat)
    requires i <= j
    ensures i * b <= j * b
    ensures (i - 1) * b == i * b - b
  {
  }

  // ----- what the rows say -----

  /** The weight of the selected rows with at most k packets. */
  ghost function RowsUpTo(q: Query, rows: seq<Row>, k: nat): real
    requires q.bytesPerPkt > 0
  {
    if rows == [] then 0.0 else
      var row := rows[|rows| - 1];
      RowsUpTo(q, rows[..|rows| - 1], k) + if Selected(q, row) && SizeInPkts(q, row) <= k then row.percent else 0.0
  }

  /** Packets times weight, over the selected rows. */
  ghost function RowsMoment(q: Query, rows: seq<Row>): real
    requires q.bytesPerPkt > 0
  {
    if rows == [] then 0.0 else
      var row := rows[|rows| - 1];
      RowsMoment(q, rows[..|rows| - 1]) + if Selected(q, row) then SizeInPkts(q, row) as real * row.percent else 0.0
  }

  // ----- the merged weights -----

  ghost predicate InBounds(pct: map<nat, real>) {
    forall k :: k in pct ==> 1 <= k <= MAX_PKTS
  }

  function WeightAt(pct: map<nat, real>, k: nat): real {
    if k in pct then pct[k] else 0.0
  }

  ghost function UpTo(pct: map<nat, real>, k: nat): real {
    if k == 0 then 0.0 else UpTo(pct, k - 1) + WeightAt(pct, k)
  }

  ghost function Moment(pct: map<nat, real>, k: nat): real {
    if k == 0 then 0.0 else Moment(pct, k - 1) + k as real * WeightAt(pct, k)
  }

  lemma {:induction false} UpToAdds(pct: map<nat, real>, size: nat, w: real, k: nat)
    requires size >= 1
    ensures UpTo(pct[size := WeightAt(pct, size) + w], k) == UpTo(pct, k) + if size <= k then w else 0.0
    decreases k
  {
    if k == 0 {
    } else {
      UpToAdds(pct, size, w, k - 1);
    }
  }

  lemma {:induction false} MomentAdds(pct: map<nat, real>, size: nat, w: real, k: nat)
    requires size >= 1
    ensures Moment(pct[size := WeightAt(pct, size) + w], k)
         == Moment(pct, k) + if size <= k then size as real * w else 0.0
    decreases k
  {
    if k == 0 {
    } else {
      MomentAdds(pct, size, w, k - 1);
      if k == size {
        assert size as real * (WeightAt(pct, size) + w) == size as real * WeightAt(pct, size) + size as real * w;
      }
    }
  }

  /** pct and total hold what the rows say, size by size. */
  ghost predicate Merged(q: Query, rows: seq<Row>, pct: map<nat, real>, total: real)
    requires q.bytesPerPkt > 0
  {
    && InBounds(pct)
    && (forall k: nat {:trigger UpTo(pct, k)} :: UpTo(pct, k) == RowsUpTo(q, rows, k))
    && Moment(pct, MAX_PKTS) == RowsMoment(q, rows)
    && total == UpTo(pct, MAX_PKTS)
    && (forall k :: k in pct <==> exists i :: 0 <= i < |rows| && Selected(q, rows[i]) && SizeInPkts(q, rows[i]) == k)
  }

  lemma RowAdds(q: Query, rows: seq<Row>, row: Row, k: nat)
    requires q.bytesPerPkt > 0 && Selected(q, row)
    ensures RowsUpTo(q, rows + [row], k) == RowsUpTo(q, rows, k) + if SizeInPkts(q, row) <= k then row.percent else 0.0
    ensures RowsMoment(q, rows + [row]) == RowsMoment(q, rows) + SizeInPkts(q, row) as real * row.percent
  {
    hide SizeInPkts, Selected;
    assert (rows + [row])[..|rows|] == rows;
  }

  lemma MergeOne(q: Query, rows: seq<Row>, row: Row, pct: map<nat, real>, total: real)
    requires q.bytesPerPkt > 0 && Merged(q, rows, pct, total) && Selected(q, row)
    ensures var size := SizeInPkts(q, row);
      Merged(q, rows + [row], pct[size := WeightAt(pct, size) + row.percent], total + row.percent)
  {
    hide SizeInPkts, Selected, UpTo, Moment, RowsUpTo, RowsMoment;
    var size := SizeInPkts(q, row);
    var next := pct[size := WeightAt(pct, size) + row.percent];
    var all := rows + [row];
    forall k: nat ensures UpTo(next, k) == RowsUpTo(q, all, k) {
      UpToAdds(pct, size, row.percent, k);
      RowAdds(q, rows, row, k);
    }
    RowAdds(q, rows, row, MAX_PKTS);
    MomentAdds(pct, size, row.percent, MAX_PKTS);
    UpToAdds(pct, size, row.percent, MAX_PKTS);
    SizesWith(q, rows, row, pct, next);
  }

  lemma SizesWith(q: Query, rows: seq<Row>, row: Row, pct: map<nat, real>, next: map<nat, real>)
    requires q.bytesPerPkt > 0 && Selected(q, row) && next.Keys == pct.Keys + {SizeInPkts(q, row)}
    requires forall k :: k in pct <==>
      exists i :: 0 <= i < |rows| && Selected(q, rows[i]) && SizeInPkts(q, rows[i]) == k
    ensures forall k :: k in next <==>
      exists i :: 0 <= i < |rows + [row]| && Selected(q, (rows + [row])[i]) && SizeInPkts(q, (rows + [row])[i]) == k
  {
    hide SizeInPkts, Selected;
    var all := rows + [row];
    forall k ensures k in next <==> exists i :: 0 <= i < |all| && Selected(q, all[i]) && SizeInPkts(q, all[i]) == k {
      if k in pct {
        var i :| 0 <= i < |rows| && Selected(q, rows[i]) && SizeInPkts(q, rows[i]) == k;
        assert all[i] == rows[i];
      }
      if k == SizeInPkts(q, row) {
        assert all[|rows|] == row;
      }
      if i :| 0 <= i < |all| && Selected(q, all[i]) && SizeInPkts(q, all[i]) == k {
        assert i < |rows| ==> all[i] == rows[i];
      }
    }
  }

  lemma SkipOne(q: Query, rows: seq<Row>, row: Row, pct: map<nat, real>, total: real)
    requires q.bytesPerPkt > 0 && Merged(q, rows, pct, total) && !Selected(q, row)
    ensures Merged(q, rows + [row], pct, total)
  {
    hide SizeInPkts, Selected;
    var all := rows + [row];
    assert all[..|rows|] == rows && all[|rows|] == row;
    forall k ensures k in pct <==> exists i :: 0 <= i < |all| && Selected(q, all[i]) && SizeInPkts(q, all[i]) == k {
      if k in pct {
        var i :| 0 <= i < |rows| && Selected(q, rows[i]) && SizeInPkts(q, rows[i]) == k;
        assert all[i] == rows[i];
      }
      if i :| 0 <= i < |all| && Selected(q, all[i]) && SizeInPkts(q, all[i]) == k {
        assert i < |rows| && all[i] == rows[i];
      }
    }
  }

  // ----- the distribution -----

  function Share(x: real, total: real): real
    requires total > 0.0
  {
    x / total
  }

  function AtMostOne(x: real): real {
    if x < 1.0 then x else 1.0
  }

  /** The entries in the order in which they are stored: sizes ascending. */
  ghost function Entries(pct: map<nat, real>, total: real, k: nat): seq<(real, nat)>
    requires total > 0.0
  {
    if k == 0 then [] else
      Entries(pct, total, k - 1) + if k in pct then [(AtMostOne(Share(UpTo(pct, k), total)), k)] else []
  }

  ghost function Stored(entries: seq<(real, nat)>): map<real, nat> {
    if entries == [] then map[] else
      Stored(entries[..|entries| - 1])[entries[|entries| - 1].0 := entries[|entries| - 1].1]
  }

  lemma SharesAdd(x: real, y: real, total: real)
    requires total > 0.0
    ensures Share(x + y, total) == Share(x, total) + Share(y, total)
  {
  }

  lemma ScaledShare(x: real, y: real, total: real)
    requires total > 0.0
    ensures Share(x * y, total) == x * Share(y, total)
  {
  }

  method MergeRows(q: Query, rows: seq<Row>) returns (pct: map<nat, real>, total: real)
    requires q.bytesPerPkt > 0
    ensures Merged(q, rows, pct, total)
  {
    hide Merged, Selected, SizeInPkts;
    pct, total := map[], 0.0;
    MergedNone(q);
    for i := 0 to |rows|
      invariant Merged(q, rows[..i], pct, total)
    {
      assert rows[..i + 1] == rows[..i] + [rows[i]];
      if Selected(q, rows[i]) {
        MergeOne(q, rows[..i], rows[i], pct, total);
        var size := SizeInPkts(q, rows[i]);
        pct := pct[size := WeightAt(pct, size) + rows[i].percent];
        total := total + rows[i].percent;
      } else {
        SkipOne(q, rows[..i], rows[i], pct, total);
      }
    }
    assert rows[..|rows|] == rows;
  }

  lemma {:induction false} NothingUpTo(k: nat)
    ensures UpTo(map[], k) == 0.0 == Moment(map[], k)
    decreases k
  {
    if k == 0 {
    } else {
      NothingUpTo(k - 1);
    }
  }

  lemma MergedNone(q: Query)
    requires q.bytesPerPkt > 0
    ensures Merged(q, [], map[], 0.0)
  {
    forall k: nat ensures UpTo(map[], k) == RowsUpTo(q, [], k) {
      NothingUpTo(k);
    }
    NothingUpTo(MAX_PKTS);
  }

  lemma MomentStep(pct: map<nat, real>, total: real, k: nat)
    requires total > 0.0 && k > 0 && k in pct
    ensures Share(Moment(pct, k), total) == Share(Moment(pct, k - 1), total) + k as real * Share(pct[k], total)
  {
    hide Share;
    var size, weight := k as real, pct[k];
    assert Moment(pct, k) == Moment(pct, k - 1) + size * weight;
    SharesAdd(Moment(pct, k - 1), size * weight, total);
    ScaledShare(size, weight, total);
  }

  lemma DistributionStep(pct: map<nat, real>, total: real, k: nat)
    requires total > 0.0 && k > 0
    ensures k in pct ==>
      && Share(UpTo(pct, k), total) == Share(UpTo(pct, k - 1), total) + Share(pct[k], total)
      && Share(Moment(pct, k), total) == Share(Moment(pct, k - 1), total) + k as real * Share(pct[k], total)
      && Entries(pct, total, k) == Entries(pct, total, k - 1) + [(AtMostOne(Share(UpTo(pct, k), total)), k)]
      && Stored(Entries(pct, total, k)) ==
         Stored(Entries(pct, total, k - 1))[AtMostOne(Share(UpTo(pct, k), total)) := k]
    ensures k !in pct ==>
      && UpTo(pct, k) == UpTo(pct, k - 1) && Moment(pct, k) == Moment(pct, k - 1)
      && Entries(pct, total, k) == Entries(pct, total, k - 1)
  {
    hide Share;
    if k in pct {
      SharesAdd(UpTo(pct, k - 1), pct[k], total);
      MomentStep(pct, total, k);
      assert Entries(pct, total, k)[..|Entries(pct, total, k - 1)|] == Entries(pct, total, k - 1);
    } else {
      assert k as real * 0.0 == 0.0;
    }
  }

  /** The loop over the merged sizes, smallest first. */
  method Distribute(pct: map<nat, real>, total: real) returns (spec: Spec, largest: nat)
    requires total > 0.0 && InBounds(pct) && pct != map[]
    ensures spec.mean == Share(Moment(pct, MAX_PKTS), total)
    ensures spec.cdf == Stored(Entries(pct, total, MAX_PKTS))
    ensures largest in pct && forall k :: k in pct ==> k <= largest
  {
    hide Stored, Entries, UpTo, Moment, Share;
    var mean, cumulative, cdf: map<real, nat> := 0.0, 0.0, map[];
    largest := 0;
    Nothing(pct, total);
    for size := 1 to MAX_PKTS + 1
      invariant cumulative == Share(UpTo(pct, size - 1), total)
      invariant mean == Share(Moment(pct, size - 1), total)
      invariant cdf == Stored(Entries(pct, total, size - 1))
      invariant if largest == 0 then forall k :: k in pct ==> k >= size
                else largest in pct && largest < size && forall k :: k in pct && k < size ==> k <= largest
    {
      DistributionStep(pct, total, size);
      if size in pct {
        var probability := Share(pct[size], total);
        mean := mean + size as real * probability;
        cumulative := cumulative + probability;
        cdf := cdf[AtMostOne(cumulative) := size];
        largest := size;
      }
    }
    spec := Spec(mean, cdf);
    var k :| k in pct;
    assert largest != 0;
  }

  lemma Nothing(pct: map<nat, real>, total: real)
    requires total > 0.0
    ensures Share(UpTo(pct, 0), total) == 0.0 == Share(Moment(pct, 0), total)
    ensures Stored(Entries(pct, total, 0)) == map[]
  {
  }

  /** What the reader returns, in terms of the rows. */
  ghost predicate IsSpecOf(q: Query, rows: seq<Row>, spec: Spec)
    requires q.bytesPerPkt > 0
  {
    exists pct: map<nat, real>, total: real, largest: nat {:trigger SpecFrom(q, rows, pct, total, largest, spec)} ::
      SpecFrom(q, rows, pct, total, largest, spec)
  }

  ghost predicate SpecFrom(q: Query, rows: seq<Row>, pct: map<nat, real>, total: real, largest: nat, spec: Spec)
    requires q.bytesPerPkt > 0
  {
    && Merged(q, rows, pct, total) && total > 0.0
    && largest in pct && (forall k :: k in pct ==> k <= largest)
    && spec.mean == Share(Moment(pct, MAX_PKTS), total)
    && spec.cdf == Stored(Entries(pct, total, MAX_PKTS))[1.0 := largest]
  }

  ghost predicate SomeSelected(q: Query, rows: seq<Row>) {
    exists i :: 0 <= i < |rows| && Selected(q, rows[i])
  }

  method ReadRawWorkload(q: Query, rows: seq<Row>) returns (r: Result<Spec, Error>)
    ensures q.workload == "" ==> r == Failure(NoWorkloadName)
    ensures q.workload != "" && q.bytesPerPkt == 0 ==> r == Failure(NoPacketSize)
    ensures q.workload != "" && q.bytesPerPkt > 0 && !SomeSelected(q, rows) ==> r == Failure(NoRows)
    ensures q.workload != "" && q.bytesPerPkt > 0 && SomeSelected(q, rows) ==>
      if RowsUpTo(q, rows, MAX_PKTS) <= 0.0 then r == Failure(NoProbability)
      else r.Success? && IsSpecOf(q, rows, r.value)
  {
    hide Stored, Entries, UpTo, Moment, Share, RowsUpTo, RowsMoment, SizeInPkts;
    if q.workload == "" {
      return Failure(NoWorkloadName);
    }
    if q.bytesPerPkt == 0 {
      return Failure(NoPacketSize);
    }
    var pct, total := MergeRows(q, rows);
    if pct == map[] {
      NoneMerged(q, rows, pct, total);
      return Failure(NoRows);
    }
    SomeMerged(q, rows, pct, total);
    if total <= 0.0 {
      return Failure(NoProbability);
    }
    var spec, largest := Distribute(pct, total);
    spec := spec.(cdf := spec.cdf[1.0 := largest]);
    assert SpecFrom(q, rows, pct, total, largest, spec);
    return Success(spec);
  }

  /** The names that stand for others. */
  const SHORT_NAMES: map<string, string> :=
    map["google_rpc" := "GOOGLE_ALL_RPC", "facebook_hadoop" := "FACEBOOK_HADOOP_ALL", "web_search" := "DCTCP"]

  /** A row counts, with its weight, exactly if it is of the transport and of the workload asked for, under its
      long name where there is one, and its load is within a billionth of the load asked for. */
  lemma RowCounts(q: Query, rows: seq<Row>, row: Row)
    requires q.bytesPerPkt > 0
    ensures RowsUpTo(q, rows + [row], MAX_PKTS) - RowsUpTo(q, rows, MAX_PKTS) ==
      if row.transport == q.transport
         && row.workload == (if q.workload in SHORT_NAMES then SHORT_NAMES[q.workload] else q.workload)
         && row.load <= q.load + 0.000000001 && q.load <= row.load + 0.000000001
      then row.percent else 0.0
  {
    assert (rows + [row])[..|rows|] == rows;
    assert SizeInPkts(q, row) <= 0xffff;
    LongName(q.workload);
  }

  lemma LongName(workload: string)
    ensures CanonicalWorkload(workload) == if workload in SHORT_NAMES then SHORT_NAMES[workload] else workload
  {
    var a, b, c := "google_rpc", "facebook_hadoop", "web_search";
    assert |a| == 10 && |b| == 15 && |c| == 10 && a[0] != c[0];
  }

  lemma NoneMerged(q: Query, rows: seq<Row>, pct: map<nat, real>, total: real)
    requires q.bytesPerPkt > 0 && Merged(q, rows, pct, total) && pct == map[]
    ensures !SomeSelected(q, rows)
  {
    hide SizeInPkts, Selected;
    forall i | 0 <= i < |rows| ensures !Selected(q, rows[i]) {
      assert SizeInPkts(q, rows[i]) !in pct;
    }
  }

  lemma SomeMerged(q: Query, rows: seq<Row>, pct: map<nat, real>, total: real)
    requires q.bytesPerPkt > 0 && Merged(q, rows, pct, total) && pct != map[]
    ensures SomeSelected(q, rows) && total == RowsUpTo(q, rows, MAX_PKTS)
  {
    hide SizeInPkts, Selected;
    var k :| k in pct;
    assert UpTo(pct, MAX_PKTS) == RowsUpTo(q, rows, MAX_PKTS);
  }
}
