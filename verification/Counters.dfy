/** Python's Counter, as far as scripts/lab2_plot.py uses it: counting, and the most common keys. */
module Counters {
  import opened Graphs
  import opened MapSums

  /** order lists the keys as they were first counted. */
  datatype Counter<T(==)> = Counter(order: seq<T>, counts: map<T, nat>)

  function CountOne<T(==)>(c: Counter<T>, x: T): Counter<T> {
    Counter(if x in c.counts then c.order else c.order + [x], c.counts[x := ValueAt(c.counts, x) + 1])
  }

  ghost function CountAll<T>(items: seq<T>): Counter<T> {
    if items == [] then Counter([], map[]) else CountOne(CountAll(items[..|items| - 1]), items[|items| - 1])
  }

  /** x goes behind the keys that are counted as often. */
  function RankOne<T(==)>(ranked: seq<T>, counts: map<T, nat>, x: T): seq<T> {
    if ranked == [] || ValueAt(counts, ranked[|ranked| - 1]) >= ValueAt(counts, x) then ranked + [x]
    else RankOne(ranked[..|ranked| - 1], counts, x) + [ranked[|ranked| - 1]]
  }

  function RankAll<T(==)>(order: seq<T>, counts: map<T, nat>): seq<T> {
    if order == [] then [] else RankOne(RankAll(order[..|order| - 1], counts), counts, order[|order| - 1])
  }

  function MostCommon<T(==)>(c: Counter<T>, n: nat): seq<T> {
    var ranked := RankAll(c.order, c.counts);
    if n < |ranked| then ranked[..n] else ranked
  }

  // ----- what is counted -----

  lemma {:induction false} Counted<T(!new)>(items: seq<T>, x: T)
    ensures ValueAt(CountAll(items).counts, x) == multiset(items)[x]
    ensures x in CountAll(items).counts <==> x in items
    decreases |items|
  {
    if items == [] {
    } else {
      var last := |items| - 1;
      Counted(items[..last], x);
      assert items == items[..last] + [items[last]];
    }
  }

  ghost predicate SameKeys<T(!new)>(s: seq<T>, t: seq<T>) {
    forall x :: x in s <==> x in t
  }

  lemma PushDistinct<T>(s: seq<T>, x: T)
    requires Distinct(s) && x !in s
    ensures Distinct(s + [x])
  {
  }

  lemma {:induction false} FirstSeen<T(!new)>(items: seq<T>)
    ensures Distinct(CountAll(items).order) && SameKeys(CountAll(items).order, items)
    decreases |items|
  {
    if items == [] {
    } else {
      var last := |items| - 1;
      FirstSeen(items[..last]);
      Counted(items[..last], items[last]);
      assert items == items[..last] + [items[last]];
      if items[last] !in items[..last] {
        PushDistinct(CountAll(items[..last]).order, items[last]);
      }
    }
  }

  // ----- what is ranked -----

  /** The first of several comes first. */
  ghost predicate SeenBefore<T(!new)>(items: seq<T>, x: T, y: T) {
    exists i :: 0 <= i < |items| && items[i] == x && forall j :: 0 <= j <= i ==> items[j] != y
  }

  lemma SeenBeforeMore<T(!new)>(items: seq<T>, z: T, x: T, y: T)
    requires SeenBefore(items, x, y)
    ensures SeenBefore(items + [z], x, y)
  {
    var i :| 0 <= i < |items| && items[i] == x && forall j :: 0 <= j <= i ==> items[j] != y;
    assert (items + [z])[i] == x;
  }

  lemma NewIsSeenLast<T(!new)>(items: seq<T>, x: T, y: T)
    requires x in items && y !in items
    ensures SeenBefore(items + [y], x, y)
  {
    var i :| 0 <= i < |items| && items[i] == x;
    assert (items + [y])[i] == x;
  }

  lemma SeenInFront<T(!new)>(items: seq<T>, z: T, x: T, y: T)
    requires SeenBefore(items + [z], x, y)
    ensures SeenBefore(items, x, y) || (x == z && y != z && y !in items)
  {
    var more := items + [z];
    assert forall j :: 0 <= j < |items| ==> items[j] == more[j];
    var i :| 0 <= i < |more| && more[i] == x && forall j :: 0 <= j <= i ==> more[j] != y;
    if i < |items| {
      assert items[i] == x;
    }
  }

  /** The keys are in the order in which the items are first seen. */
  lemma {:induction false} OrderOfKeys<T(!new)>(items: seq<T>, x: T, y: T)
    requires SeenBefore(CountAll(items).order, x, y)
    ensures SeenBefore(items, x, y)
    decreases |items|
  {
    var last := |items| - 1;
    var before, order := items[..last], CountAll(items[..last]).order;
    assert items == before + [items[last]];
    FirstSeen(before);
    Counted(before, items[last]);
    hide CountAll;
    if SeenBefore(order, x, y) {
      OrderOfKeys(before, x, y);
      SeenBeforeMore(before, items[last], x, y);
    } else {
      SeenInFront(order, items[last], x, y);
      assert y !in order && y !in before && y != items[last];
      assert items[last] == x;
    }
  }

  /** By falling count, and among equals in the given order. */
  ghost predicate IsRanked<T(!new)>(ranked: seq<T>, counts: map<T, nat>, order: seq<T>) {
    forall i, j :: 0 <= i < j < |ranked| ==> RanksBefore(counts, order, ranked[i], ranked[j])
  }

  ghost predicate RanksBefore<T(!new)>(counts: map<T, nat>, order: seq<T>, x: T, y: T) {
    ValueAt(counts, x) > ValueAt(counts, y) || (ValueAt(counts, x) == ValueAt(counts, y) && SeenBefore(order, x, y))
  }

  lemma {:induction false} OneIsRanked<T(!new)>(ranked: seq<T>, counts: map<T, nat>, order: seq<T>, x: T)
    requires IsRanked(ranked, counts, order) && Distinct(ranked) && x !in ranked
    requires forall y :: y in ranked ==> SeenBefore(order, y, x)
    ensures IsRanked(RankOne(ranked, counts, x), counts, order) && Distinct(RankOne(ranked, counts, x))
    ensures forall y :: y in RankOne(ranked, counts, x) <==> y in ranked || y == x
    decreases |ranked|
  {
    hide SeenBefore;
    if ranked == [] {
      PushDistinct(ranked, x);
    } else {
      var last := |ranked| - 1;
      assert ranked == ranked[..last] + [ranked[last]];
      if ValueAt(counts, ranked[last]) >= ValueAt(counts, x) {
        PushDistinct(ranked, x);
        forall y | y in ranked ensures RanksBefore(counts, order, y, x) {
          var i :| 0 <= i < |ranked| && ranked[i] == y;
          assert i < last ==> RanksBefore(counts, order, ranked[i], ranked[last]);
        }
        PushRanked(ranked, counts, order, x);
      } else {
        OneIsRanked(ranked[..last], counts, order, x);
        PushDistinct(RankOne(ranked[..last], counts, x), ranked[last]);
        forall y | y in RankOne(ranked[..last], counts, x) ensures RanksBefore(counts, order, y, ranked[last]) {
          if y != x {
            var i :| 0 <= i < last && ranked[..last][i] == y;
            assert RanksBefore(counts, order, ranked[i], ranked[last]);
          }
        }
        PushRanked(RankOne(ranked[..last], counts, x), counts, order, ranked[last]);
      }
    }
  }

  lemma PushRanked<T(!new)>(ranked: seq<T>, counts: map<T, nat>, order: seq<T>, x: T)
    requires IsRanked(ranked, counts, order) && forall y :: y in ranked ==> RanksBefore(counts, order, y, x)
    ensures IsRanked(ranked + [x], counts, order)
  {
    hide RanksBefore;
    forall i, j | 0 <= i < j < |ranked + [x]|
      ensures RanksBefore(counts, order, (ranked + [x])[i], (ranked + [x])[j])
    {
      assert (ranked + [x])[i] in ranked;
    }
  }

  lemma {:induction false} AllAreRanked<T(!new)>(order: seq<T>, counts: map<T, nat>)
    requires Distinct(order)
    ensures IsRanked(RankAll(order, counts), counts, order) && Distinct(RankAll(order, counts))
    ensures SameKeys(RankAll(order, counts), order)
    decreases |order|
  {
    if order == [] {
    } else {
      hide SeenBefore;
      var last := |order| - 1;
      AllAreRanked(order[..last], counts);
      assert order == order[..last] + [order[last]];
      assert order[last] !in order[..last];
      var ranked := RankAll(order[..last], counts);
      forall i, j | 0 <= i < j < |ranked| ensures RanksBefore(counts, order, ranked[i], ranked[j]) {
        assert RanksBefore(counts, order[..last], ranked[i], ranked[j]);
        if SeenBefore(order[..last], ranked[i], ranked[j]) {
          SeenBeforeMore(order[..last], order[last], ranked[i], ranked[j]);
        }
      }
      forall y | y in ranked ensures SeenBefore(order, y, order[last]) {
        NewIsSeenLast(order[..last], y, order[last]);
      }
      OneIsRanked(ranked, counts, order, order[last]);
    }
  }

  /** x is counted more often than y, or as often and seen first. */
  ghost predicate Leads<T(!new)>(items: seq<T>, x: T, y: T) {
    || multiset(items)[x] > multiset(items)[y]
    || (multiset(items)[x] == multiset(items)[y] && SeenBefore(items, x, y))
  }

  /** The n most common items, without repetition: each leads those behind it and all that are left out, and
      unless all items are inside there are n of them. */
  lemma MostCommonAreMost<T(!new)>(items: seq<T>, n: nat)
    ensures var top := MostCommon(CountAll(items), n);
      && Distinct(top) && |top| <= n
      && (forall x :: x in top ==> x in items)
      && (forall i, j :: 0 <= i < j < |top| ==> Leads(items, top[i], top[j]))
      && (forall x, y :: x in top && y in items && y !in top ==> Leads(items, x, y))
      && (|top| < n ==> SameKeys(top, items))
  {
    hide RankAll, CountAll, Leads, RanksBefore;
    var c := CountAll(items);
    var ranked := RankAll(c.order, c.counts);
    FirstSeen(items);
    AllAreRanked(c.order, c.counts);
    var top := MostCommon(c, n);
    forall i, j | 0 <= i < j < |ranked| ensures Leads(items, ranked[i], ranked[j]) {
      RankedLeads(items, ranked[i], ranked[j]);
    }
    forall x, y | x in top && y in items && y !in top ensures Leads(items, x, y) {
      assert y in ranked;
      var i :| 0 <= i < |top| && top[i] == x;
      var rest := ranked[|top|..];
      assert ranked == top + rest;
      var j :| 0 <= j < |rest| && rest[j] == y;
      assert ranked[i] == x && ranked[|top| + j] == y;
    }
    forall x | x in top ensures x in items {
      assert x in ranked;
    }
  }

  lemma RankedLeads<T(!new)>(items: seq<T>, x: T, y: T)
    requires RanksBefore(CountAll(items).counts, CountAll(items).order, x, y)
    ensures Leads(items, x, y)
  {
    hide CountAll, SeenBefore;
    Counted(items, x);
    Counted(items, y);
    if SeenBefore(CountAll(items).order, x, y) {
      OrderOfKeys(items, x, y);
    }
  }
}
