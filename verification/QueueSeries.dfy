/** Thinning a queue-length series without changing its step function
    (scripts/plot_2t2_traces.py, simplify_queue_series). */
module QueueSeries {

  datatype Point = Point(t: real, v: real)

  // ----- sorting by time, equal times in their old order -----

  function Insert(s: seq<Point>, p: Point): seq<Point> {
    if s == [] || s[|s| - 1].t <= p.t then s + [p]
    else Insert(s[..|s| - 1], p) + [s[|s| - 1]]
  }

  function SortByTime(s: seq<Point>): seq<Point> {
    if s == [] then [] else Insert(SortByTime(s[..|s| - 1]), s[|s| - 1])
  }

  ghost predicate Ascending(s: seq<Point>) {
    forall i, j :: 0 <= i < j < |s| ==> s[i].t <= s[j].t
  }

  ghost predicate StrictlyAscending(s: seq<Point>) {
    forall i, j :: 0 <= i < j < |s| ==> s[i].t < s[j].t
  }

  // ----- step functions -----

  /** The point in force at time t: the latest one at or before it, the last of equals. */
  function InForce(s: seq<Point>, t: real): Point
    requires s != []
  {
    if |s| == 1 || s[|s| - 1].t <= t then s[|s| - 1] else InForce(s[..|s| - 1], t)
  }

  /** The same for a series in any order: of the points at or before t the one with the greatest
      time, the last of equals. None if there is no such point. */
  function LatestOf(s: seq<Point>, t: real): (best: seq<Point>)
    ensures |best| <= 1
  {
    if s == [] then [] else Better(LatestOf(s[..|s| - 1], t), s[|s| - 1], t)
  }

  function Better(best: seq<Point>, p: Point, t: real): (b: seq<Point>)
    ensures |best| <= 1 ==> |b| <= 1
  {
    if p.t <= t && (best == [] || best[0].t <= p.t) then [p] else best
  }

  ghost predicate Started(s: seq<Point>, t: real) {
    s != [] && s[0].t <= t
  }

  lemma {:induction false} LatestOfAscending(s: seq<Point>, t: real)
    requires Ascending(s)
    ensures LatestOf(s, t) == if Started(s, t) then [InForce(s, t)] else []
    decreases |s|
  {
    if s == [] {
    } else {
      var n := |s| - 1;
      LatestOfAscending(s[..n], t);
      if n > 0 {
        InForceIsEarlier(s[..n], t);
      }
    }
  }

  lemma {:induction false} InForceIsEarlier(s: seq<Point>, t: real)
    requires s != []
    ensures InForce(s, t) in s
    decreases |s|
  {
    if |s| > 1 && s[|s| - 1].t > t {
      InForceIsEarlier(s[..|s| - 1], t);
    }
  }

  lemma {:induction false} InsertKeeps(s: seq<Point>, p: Point)
    requires Ascending(s)
    ensures Ascending(Insert(s, p)) && |Insert(s, p)| == |s| + 1
    ensures Insert(s, p)[|s|].t == if s == [] || s[|s| - 1].t <= p.t then p.t else s[|s| - 1].t
    decreases |s|
  {
    if s == [] || s[|s| - 1].t <= p.t {
    } else {
      var n := |s| - 1;
      InsertKeeps(s[..n], p);
      AppendAscending(Insert(s[..n], p), s[n]);
    }
  }

  lemma AppendAscending(s: seq<Point>, p: Point)
    requires Ascending(s) && (s != [] ==> s[|s| - 1].t <= p.t)
    ensures Ascending(s + [p])
  {
  }

  lemma LatestOfAppend(s: seq<Point>, p: Point, t: real)
    ensures LatestOf(s + [p], t) == Better(LatestOf(s, t), p, t)
  {
    assert (s + [p])[..|s|] == s;
  }

  lemma LatestOfPrefix(s: seq<Point>, t: real)
    requires s != [] && Ascending(s)
    ensures var best := LatestOf(s[..|s| - 1], t); best != [] ==> best[0].t <= s[|s| - 1].t
  {
    var n := |s| - 1;
    LatestOfAscending(s[..n], t);
    if n > 0 {
      InForceIsEarlier(s[..n], t);
    }
  }

  lemma {:induction false} InsertedLatest(s: seq<Point>, p: Point, t: real)
    requires Ascending(s)
    ensures LatestOf(Insert(s, p), t) == LatestOf(s + [p], t)
    decreases |s|
  {
    hide LatestOf, Ascending;
    if s == [] || s[|s| - 1].t <= p.t {
    } else {
      var n := |s| - 1;
      PrefixAscending(s, n);
      InsertedLatest(s[..n], p, t);
      LatestOfAppend(Insert(s[..n], p), s[n], t);
      LatestOfAppend(s[..n], p, t);
      LatestOfAppend(s[..n], s[n], t);
      assert s[..n] + [s[n]] == s;
      LatestOfAppend(s, p, t);
      LatestOfPrefix(s, t);
    }
  }

  lemma PrefixAscending(s: seq<Point>, n: nat)
    requires n <= |s| && Ascending(s)
    ensures Ascending(s[..n])
  {
  }

  lemma {:induction false} SortedIsAscending(s: seq<Point>)
    ensures Ascending(SortByTime(s)) && |SortByTime(s)| == |s|
    decreases |s|
  {
    hide Insert;
    if s == [] {
    } else {
      var n := |s| - 1;
      SortedIsAscending(s[..n]);
      InsertKeeps(SortByTime(s[..n]), s[n]);
    }
  }

  lemma {:induction false} SortedLatest(s: seq<Point>, t: real)
    ensures LatestOf(SortByTime(s), t) == LatestOf(s, t)
    decreases |s|
  {
    if s == [] {
    } else {
      var n := |s| - 1;
      var sorted := SortByTime(s[..n]);
      SortedLatest(s[..n], t);
      SortedIsAscending(s[..n]);
      InsertedLatest(sorted, s[n], t);
      LatestOfAppend(sorted, s[n], t);
    }
  }

  // ----- one point per time -----

  /** The last point of each run of equal times. */
  function Dedup(s: seq<Point>): (d: seq<Point>)
    ensures s == [] <==> d == []
    ensures s != [] ==> d[|d| - 1] == s[|s| - 1]
  {
    if s == [] then [] else
      var n := |s| - 1;
      var d := Dedup(s[..n]);
      if n > 0 && s[n].t == s[n - 1].t then d[..|d| - 1] + [s[n]] else d + [s[n]]
  }

  lemma {:induction false} DedupAscends(s: seq<Point>)
    requires Ascending(s)
    ensures StrictlyAscending(Dedup(s)) && (s != [] ==> Dedup(s)[0].t == s[0].t)
    decreases |s|
  {
    if |s| <= 1 {
      DedupOfFew(s);
    } else {
      hide StrictlyAscending, Dedup;
      var n := |s| - 1;
      var d := Dedup(s[..n]);
      DedupAscends(s[..n]);
      PrefixAscends(d);
      DedupNext(s);
      if s[n].t == s[n - 1].t {
        AppendAscends(d[..|d| - 1], s[n]);
      } else {
        AppendAscends(d, s[n]);
      }
    }
  }

  lemma DedupOfFew(s: seq<Point>)
    requires |s| <= 1
    ensures Dedup(s) == s
  {
  }

  lemma DedupNext(s: seq<Point>)
    requires |s| > 1
    ensures var n := |s| - 1;
            var d := Dedup(s[..n]);
            && d != [] && d[|d| - 1] == s[n - 1]
            && Dedup(s) == (if s[n].t == s[n - 1].t then d[..|d| - 1] else d) + [s[n]]
  {
  }

  lemma PrefixAscends(d: seq<Point>)
    requires StrictlyAscending(d) && d != []
    ensures StrictlyAscending(d[..|d| - 1]) && (|d| > 1 ==> d[|d| - 2].t < d[|d| - 1].t)
  {
  }

  lemma AppendAscends(d: seq<Point>, p: Point)
    requires StrictlyAscending(d) && (d != [] ==> d[|d| - 1].t < p.t)
    ensures StrictlyAscending(d + [p])
  {
  }

  lemma InForceSkips(s: seq<Point>, t: real)
    requires |s| > 1
    ensures s[|s| - 1].t > t ==> InForce(s, t) == InForce(s[..|s| - 1], t)
    ensures s[|s| - 1].t <= t ==> InForce(s, t) == s[|s| - 1]
  {
  }

  lemma {:induction false} DedupKeepsForce(s: seq<Point>, t: real)
    requires Ascending(s) && Started(s, t)
    ensures InForce(Dedup(s), t) == InForce(s, t)
    decreases |s|
  {
    hide InForce, StrictlyAscending, Dedup;
    if |s| == 1 {
      DedupOfFew(s);
    } else {
      var n := |s| - 1;
      var d := Dedup(s[..n]);
      PrefixAscending(s, n);
      DedupAscends(s[..n]);
      DedupNext(s);
      EndsAfterAll(d);
      DedupKeepsForce(s[..n], t);
      InForceSkips(s, t);
      if s[n].t == s[n - 1].t {
        var e := d[..|d| - 1] + [s[n]];
        assert Dedup(s) == e && e[..|d| - 1] == d[..|d| - 1] && d[|d| - 1] == s[n - 1];
        if |d| > 1 {
          InForceSkips(e, t);
          InForceSkips(d, t);
        } else {
          InForceOfOne(s[n], t);
        }
      } else {
        assert Dedup(s) == d + [s[n]] && (d + [s[n]])[..|d|] == d;
        InForceSkips(d + [s[n]], t);
      }
    }
  }

  lemma EndsAfterAll(d: seq<Point>)
    requires d != [] && StrictlyAscending(d)
    ensures |d| > 1 ==> d[|d| - 2].t < d[|d| - 1].t && d[..|d| - 1] != []
  {
  }

  lemma InForceOfOne(p: Point, t: real)
    ensures InForce([p], t) == p
  {
  }

  lemma DedupKeepsSteps(s: seq<Point>)
    requires Ascending(s)
    ensures StrictlyAscending(Dedup(s)) && (s != [] ==> Dedup(s)[0].t == s[0].t)
    ensures forall t :: Started(s, t) ==> InForce(Dedup(s), t) == InForce(s, t)
  {
    hide Dedup, InForce, StrictlyAscending;
    DedupAscends(s);
    forall t | Started(s, t)
      ensures InForce(Dedup(s), t) == InForce(s, t)
    {
      DedupKeepsForce(s, t);
    }
  }

  // ----- dropping points that change nothing -----

  /** The points that differ in value from the last one kept or lie at least minDt after it. */
  function Keep(d: seq<Point>, minDt: real): (k: seq<Point>)
    requires d != []
    ensures k != []
  {
    var n := |d| - 1;
    if n == 0 then d else
      var k := Keep(d[..n], minDt);
      var last := k[|k| - 1];
      if d[n].v != last.v || d[n].t - last.t >= minDt then k + [d[n]] else k
  }

  /** What the function returns for one series that is not empty. */
  function Simplify(pts: seq<Point>, minDt: real): seq<Point>
    requires pts != []
  {
    var d := Dedup(Sorted(pts));
    if minDt <= 0.0 || |d| <= 2 then d else Keep(d[..|d| - 1], minDt) + [d[|d| - 1]]
  }

  function Sorted(pts: seq<Point>): (s: seq<Point>)
    ensures pts != [] ==> s != []
  {
    SortedIsAscending(pts);
    SortByTime(pts)
  }

  lemma {:induction false} KeepKeepsSteps(d: seq<Point>, minDt: real)
    requires d != [] && StrictlyAscending(d)
    ensures StrictlyAscending(Keep(d, minDt)) && Keep(d, minDt)[0] == d[0]
    ensures Keep(d, minDt)[|Keep(d, minDt)| - 1].v == d[|d| - 1].v
    ensures Keep(d, minDt)[|Keep(d, minDt)| - 1].t <= d[|d| - 1].t
    ensures forall t :: Started(d, t) ==> InForce(Keep(d, minDt), t).v == InForce(d, t).v
    decreases |d|
  {
    var n := |d| - 1;
    if n > 0 {
      var k := Keep(d[..n], minDt);
      KeepKeepsSteps(d[..n], minDt);
      forall t | Started(d, t)
        ensures InForce(Keep(d, minDt), t).v == InForce(d, t).v
      {
        if d[n].t > t {
          assert (k + [d[n]])[..|k|] == k;
        }
        AfterTheEnd(k, t);
      }
    }
  }

  lemma AfterTheEnd(s: seq<Point>, t: real)
    ensures s != [] && s[|s| - 1].t <= t ==> InForce(s, t) == s[|s| - 1]
  {
  }

  lemma AppendLast(s: seq<Point>, k: seq<Point>, p: Point, t: real)
    requires s != [] && k != [] && InForce(k, t).v == InForce(s, t).v
    ensures InForce(k + [p], t).v == InForce(s + [p], t).v
  {
    assert (k + [p])[..|k|] == k && (s + [p])[..|s|] == s;
  }

  /** From the sorted series to the kept points. */
  lemma ThinningKeepsSteps(s: seq<Point>, minDt: real, t: real)
    requires s != [] && Ascending(s)
    ensures var d := Dedup(s);
            var out := if minDt <= 0.0 || |d| <= 2 then d else Keep(d[..|d| - 1], minDt) + [d[|d| - 1]];
            && StrictlyAscending(out) && out != [] && out[0].t == s[0].t
            && (Started(s, t) ==> InForce(out, t).v == InForce(s, t).v)
  {
    hide Dedup, Keep;
    var d := Dedup(s);
    var n := |d| - 1;
    DedupKeepsSteps(s);
    if minDt > 0.0 && |d| > 2 {
      var k := Keep(d[..n], minDt);
      KeepKeepsSteps(d[..n], minDt);
      assert d[..n] + [d[n]] == d;
      assert Started(s, t) ==> InForce(k, t).v == InForce(d[..n], t).v;
      if Started(s, t) {
        AppendLast(d[..n], k, d[n], t);
      }
    }
  }

  /** At every time from the first point on, the kept points and the original series, whatever its
      order, are at the same value; and the kept times strictly increase. */
  lemma SimplifyKeepsSteps(pts: seq<Point>, minDt: real, t: real)
    requires pts != []
    ensures StrictlyAscending(Simplify(pts, minDt)) && Simplify(pts, minDt) != []
    ensures LatestOf(pts, t) != [] <==> Started(Simplify(pts, minDt), t)
    ensures LatestOf(pts, t) != [] ==> InForce(Simplify(pts, minDt), t).v == LatestOf(pts, t)[0].v
  {
    hide LatestOf, InForce, Dedup, Keep, SortByTime, Ascending, StrictlyAscending;
    var s := Sorted(pts);
    SortedIsAscending(pts);
    SortedLatest(pts, t);
    LatestOfAscending(s, t);
    ThinningKeepsSteps(s, minDt, t);
  }

  // ----- simplifying twice -----

  lemma {:induction false} SortOfAscending(s: seq<Point>)
    requires Ascending(s)
    ensures SortByTime(s) == s
    decreases |s|
  {
    if s == [] {
    } else {
      SortOfAscending(s[..|s| - 1]);
    }
  }

  lemma {:induction false} DedupOfStrict(s: seq<Point>)
    requires StrictlyAscending(s)
    ensures Dedup(s) == s
    decreases |s|
  {
    if s == [] {
    } else {
      DedupOfStrict(s[..|s| - 1]);
    }
  }

  lemma {:induction false} KeepOfKept(d: seq<Point>, minDt: real)
    requires d != []
    ensures Keep(Keep(d, minDt), minDt) == Keep(d, minDt)
    decreases |d|
  {
    var n := |d| - 1;
    if n > 0 {
      var k := Keep(d[..n], minDt);
      KeepOfKept(d[..n], minDt);
      assert (k + [d[n]])[..|k|] == k;
    }
  }

  /** A second application changes nothing. */
  lemma SimplifyIsIdempotent(pts: seq<Point>, minDt: real)
    requires pts != []
    ensures Simplify(pts, minDt) != [] && Simplify(Simplify(pts, minDt), minDt) == Simplify(pts, minDt)
  {
    hide InForce, Dedup, Keep, SortByTime, LatestOf;
    var d := Dedup(SortByTime(pts));
    var n := |d| - 1;
    var out := Simplify(pts, minDt);
    SimplifyKeepsSteps(pts, minDt, 0.0);
    SortOfAscending(out);
    DedupOfStrict(out);
    if minDt > 0.0 && |d| > 2 {
      KeepOfKept(d[..n], minDt);
      assert out[..|out| - 1] == Keep(d[..n], minDt);
    }
  }

  // ----- which points stay -----

  /** The last of the points at its time. */
  ghost predicate IsFinal(pts: seq<Point>, p: Point) {
    p in pts && LatestOf(pts, p.t) == [p]
  }

  lemma {:induction false} InsertedMembers(s: seq<Point>, p: Point, x: Point)
    ensures x in Insert(s, p) <==> x in s || x == p
    decreases |s|
  {
    if s == [] || s[|s| - 1].t <= p.t {
    } else {
      InsertedMembers(s[..|s| - 1], p, x);
      assert s == s[..|s| - 1] + [s[|s| - 1]];
    }
  }

  lemma {:induction false} SortedMembers(s: seq<Point>, x: Point)
    ensures x in SortByTime(s) <==> x in s
    decreases |s|
  {
    if s == [] {
    } else {
      SortedMembers(s[..|s| - 1], x);
      InsertedMembers(SortByTime(s[..|s| - 1]), s[|s| - 1], x);
      assert s == s[..|s| - 1] + [s[|s| - 1]];
    }
  }

  lemma LatestIsNotLater(s: seq<Point>, p: Point, t: real)
    requires Ascending(s + [p])
    ensures LatestOf(s + [p], t) == if p.t <= t then [p] else LatestOf(s, t)
  {
    LatestOfAppend(s, p, t);
    LatestOfPrefix(s + [p], t);
    assert (s + [p])[..|s|] == s;
  }

  lemma FinalNext(s: seq<Point>, x: Point)
    requires s != [] && Ascending(s)
    ensures var n := |s| - 1; IsFinal(s, x) <==> x == s[n] || (x.t < s[n].t && IsFinal(s[..n], x))
  {
    hide LatestOf;
    var n := |s| - 1;
    assert s == s[..n] + [s[n]];
    LatestIsNotLater(s[..n], s[n], x.t);
    assert x in s ==> x.t <= s[n].t;
  }

  lemma FinalOfOne(p: Point, x: Point)
    ensures IsFinal([p], x) <==> x == p
  {
    FinalNext([p], x);
  }

  lemma {:induction false} DedupMembers(s: seq<Point>, x: Point)
    requires Ascending(s)
    ensures x in Dedup(s) <==> IsFinal(s, x)
    decreases |s|
  {
    if |s| <= 1 {
      DedupOfFew(s);
      if s != [] {
        FinalOfOne(s[0], x);
        assert s == [s[0]];
      }
    } else {
      hide LatestOf, Dedup, StrictlyAscending;
      var n := |s| - 1;
      PrefixAscending(s, n);
      DedupMembers(s[..n], x);
      DedupAscends(s[..n]);
      DedupNext(s);
      FinalNext(s, x);
      InAscending(Dedup(s[..n]), x);
      assert x in s[..n] ==> x.t <= s[n - 1].t;
    }
  }

  lemma InAscending(d: seq<Point>, x: Point)
    requires d != [] && StrictlyAscending(d)
    ensures x in d[..|d| - 1] <==> x in d && x.t < d[|d| - 1].t
  {
    assert d == d[..|d| - 1] + [d[|d| - 1]];
  }

  /** What may be left out after point a: a point of the same value, too soon. */
  predicate AddsNothing(a: Point, p: Point, minDt: real) {
    p.v == a.v && p.t - a.t < minDt
  }

  ghost predicate IsThinned(d: seq<Point>, k: seq<Point>, minDt: real) {
    && (forall x :: x in k ==> x in d)
    && (forall i :: 0 < i < |k| ==> !AddsNothing(k[i - 1], k[i], minDt))
    && (k != [] ==> forall x :: x in d && x !in k ==> AddsNothing(InForce(k, x.t), x, minDt))
  }

  lemma ThinnedAndKept(d: seq<Point>, k: seq<Point>, p: Point, minDt: real)
    requires k != [] && IsThinned(d, k, minDt) && !AddsNothing(k[|k| - 1], p, minDt)
    requires forall x :: x in d ==> x.t < p.t
    ensures IsThinned(d + [p], k + [p], minDt)
  {
    hide InForce, AddsNothing;
    forall x | x in d + [p] && x !in k + [p] ensures AddsNothing(InForce(k + [p], x.t), x, minDt) {
      assert p in k + [p];
      InForceOfMore(k, p, x.t);
    }
  }

  lemma ThinnedAndDropped(d: seq<Point>, k: seq<Point>, p: Point, minDt: real)
    requires k != [] && IsThinned(d, k, minDt) && AddsNothing(k[|k| - 1], p, minDt) && k[|k| - 1].t <= p.t
    ensures IsThinned(d + [p], k, minDt)
  {
    hide InForce, AddsNothing;
    AfterTheEnd(k, p.t);
  }

  lemma KeepNext(d: seq<Point>, minDt: real)
    requires |d| > 1
    ensures var n := |d| - 1;
      var k := Keep(d[..n], minDt);
      Keep(d, minDt) == if AddsNothing(k[|k| - 1], d[n], minDt) then k else k + [d[n]]
  {
  }

  lemma ThinnedOne(d: seq<Point>, minDt: real)
    requires |d| == 1
    ensures IsThinned(d, Keep(d, minDt), minDt)
  {
  }

  lemma AscendsToLast(d: seq<Point>)
    requires d != [] && StrictlyAscending(d)
    ensures forall x :: x in d[..|d| - 1] ==> x.t < d[|d| - 1].t
  {
  }

  lemma {:induction false} KeepIsThinned(d: seq<Point>, minDt: real)
    requires d != [] && StrictlyAscending(d)
    ensures IsThinned(d, Keep(d, minDt), minDt)
    decreases |d|
  {
    hide Keep, InForce, AddsNothing, IsThinned, StrictlyAscending;
    var n := |d| - 1;
    if n == 0 {
      ThinnedOne(d, minDt);
    } else {
      PrefixAscends(d);
      AscendsToLast(d);
      var k := Keep(d[..n], minDt);
      KeepIsThinned(d[..n], minDt);
      KeepKeepsSteps(d[..n], minDt);
      KeepNext(d, minDt);
      assert d == d[..n] + [d[n]];
      if AddsNothing(k[|k| - 1], d[n], minDt) {
        ThinnedAndDropped(d[..n], k, d[n], minDt);
      } else {
        ThinnedAndKept(d[..n], k, d[n], minDt);
      }
    }
  }

  lemma InForceOfMore(k: seq<Point>, p: Point, t: real)
    requires k != [] && t < p.t
    ensures InForce(k + [p], t) == InForce(k, t)
  {
    assert (k + [p])[..|k|] == k;
  }

  /** The points kept are final points of the series; of the others each has the value of the last point kept
      before it and lies less than minDt after it; no two neighbours kept are so, but the last point is kept
      in any case. */
  lemma SimplifyKeepsChanges(pts: seq<Point>, minDt: real)
    requires pts != []
    ensures var out := Simplify(pts, minDt);
      && out != []
      && (forall p :: p in out ==> IsFinal(pts, p))
      && (forall p :: IsFinal(pts, p) && p !in out ==>
                        minDt > 0.0 && AddsNothing(InForce(out, p.t), p, minDt) && p.t < out[|out| - 1].t)
      && (minDt > 0.0 ==> forall i :: 0 < i < |out| - 1 ==> !AddsNothing(out[i - 1], out[i], minDt))
      && (forall p :: p in pts ==> out[0].t <= p.t <= out[|out| - 1].t)
  {
    hide LatestOf, InForce, Dedup, Keep, SortByTime, IsThinned, AddsNothing;
    var s := Sorted(pts);
    var d, out := Dedup(s), Simplify(pts, minDt);
    SortedIsAscending(pts);
    forall p ensures IsFinal(pts, p) <==> p in d {
      SortedLatest(pts, p.t);
      SortedMembers(pts, p);
      DedupMembers(s, p);
    }
    DedupAscends(s);
    forall p | p in pts ensures s[0].t <= p.t <= s[|s| - 1].t {
      SortedMembers(pts, p);
    }
    var n := |d| - 1;
    if minDt > 0.0 && |d| > 2 {
      PrefixAscends(d);
      KeepIsThinned(d[..n], minDt);
      KeepKeepsSteps(d[..n], minDt);
      ThinnedAndLast(d, Keep(d[..n], minDt), minDt);
    }
  }

  lemma ThinnedAndLast(d: seq<Point>, k: seq<Point>, minDt: real)
    requires |d| > 1 && StrictlyAscending(d) && k != [] && IsThinned(d[..|d| - 1], k, minDt)
    ensures var out := k + [d[|d| - 1]];
      && (forall p :: p in out ==> p in d)
      && (forall p :: p in d && p !in out ==> AddsNothing(InForce(out, p.t), p, minDt) && p.t < out[|out| - 1].t)
      && (forall i :: 0 < i < |out| - 1 ==> !AddsNothing(out[i - 1], out[i], minDt))
  {
    hide InForce, AddsNothing;
    var last := d[|d| - 1];
    var out := k + [last];
    assert d == d[..|d| - 1] + [last];
    forall p | p in d && p !in out ensures AddsNothing(InForce(out, p.t), p, minDt) && p.t < out[|out| - 1].t {
      assert last in out;
      InForceOfMore(k, last, p.t);
    }
  }

  // ----- the loops -----

  method DedupTimes(ordered: seq<Point>) returns (dedup: seq<Point>)
    requires ordered != []
    ensures dedup == Dedup(ordered)
  {
    dedup := [];
    var cur := ordered[0];
    assert ordered[..1] == [cur];
    for i := 1 to |ordered|
      invariant dedup + [cur] == Dedup(ordered[..i])
    {
      assert ordered[..i + 1][..i] == ordered[..i];
      if ordered[i].t == cur.t {
        cur := Point(cur.t, ordered[i].v);
      } else {
        dedup := dedup + [cur];
        cur := ordered[i];
      }
    }
    assert ordered[..|ordered|] == ordered;
    dedup := dedup + [cur];
  }

  method KeepChanges(dedup: seq<Point>, minDt: real) returns (sampled: seq<Point>)
    requires dedup != []
    ensures sampled == Keep(dedup, minDt)
  {
    sampled := [dedup[0]];
    var lastKeep := dedup[0];
    assert dedup[..1] == [dedup[0]];
    for i := 1 to |dedup|
      invariant sampled == Keep(dedup[..i], minDt) && lastKeep == sampled[|sampled| - 1]
    {
      assert dedup[..i + 1][..i] == dedup[..i];
      if dedup[i].v != lastKeep.v || dedup[i].t - lastKeep.t >= minDt {
        sampled := sampled + [dedup[i]];
        lastKeep := dedup[i];
      }
    }
    assert dedup[..|dedup|] == dedup;
  }

  /** A queue without points gets no entry. */
  method SimplifyQueueSeries(series: map<string, seq<Point>>, minDt: real) returns (simplified: map<string, seq<Point>>)
    ensures forall q :: q in simplified <==> q in series && series[q] != []
    ensures forall q :: q in simplified ==> simplified[q] == Simplify(series[q], minDt)
  {
    hide Simplify, Dedup, Keep, Sorted;
    simplified := map[];
    var rest := series.Keys;
    while rest != {}
      invariant rest <= series.Keys
      invariant forall q :: q in simplified <==> q in series && q !in rest && series[q] != []
      invariant forall q :: q in simplified ==> simplified[q] == Simplify(series[q], minDt)
    {
      var qname :| qname in rest;
      rest := rest - {qname};
      var pts := series[qname];
      if pts == [] {
        continue;
      }
      var dedup := DedupTimes(Sorted(pts));
      SimplifyIs(pts, minDt);
      if minDt <= 0.0 || |dedup| <= 2 {
        simplified := simplified[qname := dedup];
        continue;
      }
      var sampled := KeepChanges(dedup[..|dedup| - 1], minDt);
      if dedup[|dedup| - 1] != sampled[|sampled| - 1] {
        sampled := sampled + [dedup[|dedup| - 1]];
      }
      simplified := simplified[qname := sampled];
    }
  }

  lemma SimplifyIs(pts: seq<Point>, minDt: real)
    requires pts != []
    ensures var d := Dedup(Sorted(pts));
            && (minDt <= 0.0 || |d| <= 2 ==> Simplify(pts, minDt) == d)
            && (minDt > 0.0 && |d| > 2 ==>
                  var k := Keep(d[..|d| - 1], minDt);
                  k[|k| - 1] != d[|d| - 1] && Simplify(pts, minDt) == k + [d[|d| - 1]])
  {
    LastIsNew(pts, minDt);
  }

  /** The final point is later than every point kept before it, so it is always appended. */
  lemma LastIsNew(pts: seq<Point>, minDt: real)
    requires pts != []
    ensures var d := Dedup(Sorted(pts));
            |d| > 1 ==> var k := Keep(d[..|d| - 1], minDt); k[|k| - 1] != d[|d| - 1]
  {
    SortedIsAscending(pts);
    var d := Dedup(Sorted(pts));
    DedupKeepsSteps(Sorted(pts));
    if |d| > 1 {
      KeepKeepsSteps(d[..|d| - 1], minDt);
    }
  }
}
