/** The three quantile functions, over exact reals (bindings/python/rad_util.py, quantile;
    scripts/lab1_plot.py and scripts/plot_2t2_traces.py, percentile). */
module Quantiles {
  import opened RealOrder
  import opened Wrappers

  datatype Error = IndexError

  function Insert(s: seq<real>, x: real): seq<real> {
    if s == [] || s[|s| - 1] <= x then s + [x] else Insert(s[..|s| - 1], x) + [s[|s| - 1]]
  }

  function Sort(s: seq<real>): seq<real> {
    if s == [] then [] else Insert(Sort(s[..|s| - 1]), s[|s| - 1])
  }

  /** Python's indexing: negative positions count from the end. */
  function At(s: seq<real>, k: int): Result<real, Error> {
    if 0 <= k < |s| then Success(s[k])
    else if -|s| <= k < 0 then Success(s[|s| + k])
    else Failure(IndexError)
  }

  function Blend(a: real, b: real, f: real): real {
    (1.0 - f) * a + f * b
  }

  /** The place of the fraction p in a list of length n, counted from zero. */
  function Place(n: int, p: real): real {
    (n - 1) as real * p
  }

  function Between(s: seq<real>, i: int, j: int, f: real): Result<real, Error> {
    if At(s, i).Success? && At(s, j).Success?
    then Success(Blend(At(s, i).value, At(s, j).value, f)) else Failure(IndexError)
  }

  /** int(x) drops the fraction, toward zero. */
  function Truncate(x: real): int {
    if x >= 0.0 then x.Floor else -((-x).Floor)
  }

  function Ceiling(x: real): int {
    -((-x).Floor)
  }

  /** Positions count from one. */
  function Quantile(l: seq<real>, p: real): Result<real, Error> {
    var r := 1.0 + Place(|l|, p);
    var i := Truncate(r);
    if i < |l| then Between(Sort(l), i - 1, i, r - i as real) else At(Sort(l), i - 1)
  }

  /** Positions count from zero; no values give no result. */
  function FromZero(values: seq<real>, pos: real): Result<real, Error> {
    var low, high := pos.Floor, Ceiling(pos);
    if low == high then At(Sort(values), low) else Between(Sort(values), low, high, pos - low as real)
  }

  /** lab1_plot.py, with a percentage. */
  function PercentileOfHundred(values: seq<real>, pct: real): Option<Result<real, Error>> {
    if values == [] then None
    else if |values| == 1 then Some(At(Sort(values), 0))
    else Some(FromZero(values, Place(|values|, pct) / 100.0))
  }

  /** plot_2t2_traces.py, with a fraction. */
  function Percentile(values: seq<real>, q: real): Option<Result<real, Error>> {
    if values == [] then None
    else if |values| == 1 then Some(Success(values[0]))
    else Some(FromZero(values, Place(|values|, q)))
  }

  // ----- sorting -----

  ghost predicate Ascending(s: seq<real>) {
    forall i, j :: 0 <= i < j < |s| ==> s[i] <= s[j]
  }

  lemma {:induction false} InsertedElements(s: seq<real>, x: real)
    ensures multiset(Insert(s, x)) == multiset(s) + multiset{x}
    decreases |s|
  {
    if s != [] && s[|s| - 1] > x {
      InsertedElements(s[..|s| - 1], x);
      assert s == s[..|s| - 1] + [s[|s| - 1]];
    }
  }

  lemma InsertedBelow(s: seq<real>, x: real, bound: real)
    requires x <= bound && forall i :: 0 <= i < |s| ==> s[i] <= bound
    ensures forall i :: 0 <= i < |Insert(s, x)| ==> Insert(s, x)[i] <= bound
  {
    hide Insert;
    InsertedElements(s, x);
    forall i | 0 <= i < |Insert(s, x)| ensures Insert(s, x)[i] <= bound {
      assert Insert(s, x)[i] in multiset(Insert(s, x));
    }
  }

  lemma {:induction false} InsertedAscending(s: seq<real>, x: real)
    requires Ascending(s)
    ensures Ascending(Insert(s, x))
    decreases |s|
  {
    if s != [] && s[|s| - 1] > x {
      InsertedAscending(s[..|s| - 1], x);
      InsertedBelow(s[..|s| - 1], x, s[|s| - 1]);
    }
  }

  lemma {:induction false} Sorted(s: seq<real>)
    ensures Ascending(Sort(s)) && multiset(Sort(s)) == multiset(s)
    decreases |s|
  {
    if s == [] {
    } else {
      Sorted(s[..|s| - 1]);
      InsertedElements(Sort(s[..|s| - 1]), s[|s| - 1]);
      InsertedAscending(Sort(s[..|s| - 1]), s[|s| - 1]);
      assert s == s[..|s| - 1] + [s[|s| - 1]];
    }
  }

  lemma SortedLength(s: seq<real>)
    ensures |Sort(s)| == |s|
  {
    Sorted(s);
    assert |Sort(s)| == |multiset(Sort(s))| == |multiset(s)| == |s|;
  }

  // ----- interpolation -----

  /** The broken line through the points (k, s[k]). */
  ghost function Line(s: seq<real>, x: real): real
    requires s != [] && 0.0 <= x <= (|s| - 1) as real
  {
    var k := x.Floor;
    if k == |s| - 1 then s[k] else Blend(s[k], s[k + 1], x - k as real)
  }

  lemma BlendGrows(a: real, b: real, f: real, g: real)
    requires a <= b && 0.0 <= f <= g <= 1.0
    ensures a <= Blend(a, b, f) <= Blend(a, b, g) <= b
  {
    var d := b - a;
    assert Blend(a, b, f) == a + f * d;
    assert Blend(a, b, g) == a + g * d;
    MulLe(0.0, f, d);
    MulLe(f, g, d);
    MulLe(g, 1.0, d);
  }

  lemma LineStaysBetween(s: seq<real>, x: real)
    requires Ascending(s) && s != [] && 0.0 <= x <= (|s| - 1) as real
    ensures s[x.Floor] <= Line(s, x)
    ensures x.Floor < |s| - 1 ==> Line(s, x) <= s[x.Floor + 1]
  {
    hide Blend;
    var k := x.Floor;
    if k < |s| - 1 {
      BlendGrows(s[k], s[k + 1], x - k as real, 1.0);
    }
  }

  lemma LineRises(s: seq<real>, x: real, y: real)
    requires Ascending(s) && s != [] && 0.0 <= x <= y <= (|s| - 1) as real
    ensures Line(s, x) <= Line(s, y)
  {
    hide Blend;
    LineStaysBetween(s, x);
    LineStaysBetween(s, y);
    var k := x.Floor;
    if k == y.Floor {
      if k < |s| - 1 {
        BlendGrows(s[k], s[k + 1], x - k as real, y - k as real);
      }
    } else {
      assert s[k + 1] <= s[y.Floor];
    }
  }

  lemma PlaceRises(n: nat, p: real, q: real)
    requires n >= 1 && 0.0 <= p <= q <= 1.0
    ensures 0.0 <= Place(n, p) <= Place(n, q) <= (n - 1) as real
    ensures Place(n, 0.0) == 0.0 && Place(n, 1.0) == (n - 1) as real
  {
    var last := (n - 1) as real;
    MulLe(0.0, p, last);
    MulLe(p, q, last);
    MulLe(q, 1.0, last);
  }

  lemma QuantileIsOnLine(l: seq<real>, p: real)
    requires l != [] && 0.0 <= p <= 1.0
    ensures |Sort(l)| == |l| && 0.0 <= Place(|l|, p) <= (|l| - 1) as real
    ensures Quantile(l, p) == Success(Line(Sort(l), Place(|l|, p)))
  {
    hide Sort, Blend, Place;
    PlaceRises(|l|, p, p);
    SortedLength(l);
    var x := Place(|l|, p);
    assert (1.0 + x).Floor == x.Floor + 1;
  }

  lemma FromZeroIsOnLine(l: seq<real>, x: real)
    requires l != [] && 0.0 <= x <= (|l| - 1) as real
    ensures |Sort(l)| == |l| && FromZero(l, x) == Success(Line(Sort(l), x))
  {
    hide Sort;
    SortedLength(l);
    var k := x.Floor;
    assert Ceiling(x) == if x == k as real then k else k + 1;
    if x == k as real && k < |l| - 1 {
      assert x - k as real == 0.0;
      assert Blend(Sort(l)[k], Sort(l)[k + 1], 0.0) == Sort(l)[k];
    }
  }

  /** Counting from zero there is a value exactly if the places on both sides are in the list, counted from
      its front or from its end; at the negative whole places it is the value counted from the end. */
  lemma FromZeroFailsIff(l: seq<real>, pos: real)
    ensures FromZero(l, pos).Success? <==> -(|l| as real) <= pos <= (|l| - 1) as real
    ensures |Sort(l)| == |l|
    ensures forall k :: 0 <= k < |l| && pos == (k - |l|) as real ==> FromZero(l, pos) == Success(Sort(l)[k])
  {
    hide Sort, Blend;
    SortedLength(l);
    var low, high := pos.Floor, Ceiling(pos);
    assert low as real <= pos <= high as real && high <= low + 1;
  }

  /** Counting from one: int() drops the fraction toward zero, so between the first place and two before it
      the first and last values are mixed, and there is a value down to one whole list before. */
  lemma QuantileFailsIff(l: seq<real>, p: real)
    ensures Quantile(l, p).Success? <==>
            l != [] && -(|l| as real) < 1.0 + Place(|l|, p) < (|l| + 1) as real
  {
    hide Sort, Blend, Place;
    SortedLength(l);
  }

  // ----- the promises -----

  /** The fraction f of the way from a to b. */
  function PartWay(a: real, b: real, f: real): real {
    a + f * (b - a)
  }

  /** In the sorted values: the value at the place below and, of the step to the next one, the fraction that the
      place is beyond it. */
  lemma QuantileInterpolates(l: seq<real>, p: real, x: real)
    requires l != [] && 0.0 <= p <= 1.0 && x == (|l| - 1) as real * p
    ensures |Sort(l)| == |l| && Ascending(Sort(l)) && multiset(Sort(l)) == multiset(l)
    ensures 0.0 <= x <= (|l| - 1) as real
    ensures var s, k := Sort(l), x.Floor;
      var next := if k + 1 < |l| then s[k + 1] else s[k];
      Quantile(l, p) == Success(PartWay(s[k], next, x - k as real))
  {
    hide Sort, Quantile, Line, Place, PartWay;
    PlaceRises(|l|, p, p);
    QuantileIsOnLine(l, p);
    Sorted(l);
    assert x == Place(|l|, p) by {
      PlaceIs(|l|, p);
    }
    LineIsStep(Sort(l), x);
  }

  lemma PlaceIs(n: nat, p: real)
    ensures Place(n, p) == (n - 1) as real * p
  {
  }

  lemma LineIsStep(s: seq<real>, x: real)
    requires s != [] && 0.0 <= x <= (|s| - 1) as real
    ensures var k := x.Floor;
      var next := if k + 1 < |s| then s[k + 1] else s[k];
      Line(s, x) == PartWay(s[k], next, x - k as real)
  {
  }

  /** Counting from one or from zero, as a fraction or a percentage: the same number. */
  lemma AllAgree(l: seq<real>, p: real)
    requires l != [] && 0.0 <= p <= 1.0
    ensures Quantile(l, p).Success?
    ensures Percentile(l, p) == Some(Quantile(l, p)) == PercentileOfHundred(l, 100.0 * p)
  {
    hide FromZero, Line, Quantile, Blend, Place;
    QuantileIsOnLine(l, p);
    PlaceRises(|l|, p, p);
    if |l| == 1 {
      SortOfOne(l);
      LineStaysAt(l, Place(1, p));
    } else {
      FromZeroIsOnLine(l, Place(|l|, p));
      Hundredth(|l|, p);
    }
  }

  lemma SortOfOne(l: seq<real>)
    requires |l| == 1
    ensures Sort(l) == l
  {
    assert l[..0] == [] && Sort([]) == [];
    assert Sort(l) == Insert([], l[0]) == [l[0]] == l;
  }

  lemma LineStaysAt(l: seq<real>, x: real)
    requires |l| == 1 && x == 0.0
    ensures Line(l, x) == l[0]
  {
  }

  lemma Hundredth(n: nat, p: real)
    ensures Place(n, 100.0 * p) / 100.0 == Place(n, p)
  {
    var last := (n - 1) as real;
    assert last * (100.0 * p) == 100.0 * (last * p);
  }

  ghost predicate IsLeast(l: seq<real>, x: real) {
    x in l && forall y :: y in l ==> x <= y
  }

  ghost predicate IsGreatest(l: seq<real>, x: real) {
    x in l && forall y :: y in l ==> y <= x
  }

  lemma Ends(l: seq<real>)
    requires l != []
    ensures |Sort(l)| == |l| && IsLeast(l, Sort(l)[0]) && IsGreatest(l, Sort(l)[|l| - 1])
  {
    hide Sort;
    Sorted(l);
    SortedLength(l);
    var s := Sort(l);
    assert s[0] in multiset(l) && s[|l| - 1] in multiset(l);
    forall y | y in l ensures s[0] <= y <= s[|l| - 1] {
      assert y in multiset(s);
      var k :| 0 <= k < |s| && s[k] == y;
    }
  }

  /** From the least value at zero to the greatest at one, never falling in between. */
  lemma QuantileRises(l: seq<real>, p: real, q: real)
    requires l != [] && 0.0 <= p <= q <= 1.0
    ensures Quantile(l, p).Success? && Quantile(l, q).Success? && Quantile(l, p).value <= Quantile(l, q).value
    ensures Quantile(l, 0.0).Success? && IsLeast(l, Quantile(l, 0.0).value)
    ensures Quantile(l, 1.0).Success? && IsGreatest(l, Quantile(l, 1.0).value)
  {
    hide Sort, Quantile, Line, Place, Blend;
    Sorted(l);
    Ends(l);
    QuantileIsOnLine(l, p);
    QuantileIsOnLine(l, q);
    QuantileIsOnLine(l, 0.0);
    QuantileIsOnLine(l, 1.0);
    PlaceRises(|l|, p, q);
    LineRises(Sort(l), Place(|l|, p), Place(|l|, q));
    LineEnds(Sort(l));
  }

  lemma LineEnds(s: seq<real>)
    requires s != []
    ensures Line(s, 0.0) == s[0] && Line(s, (|s| - 1) as real) == s[|s| - 1]
  {
  }

  // ----- beyond one -----

  /** Between the last position and the next the one-based quantile still finds the last value. */
  lemma QuantileBeyond(l: seq<real>, p: real)
    requires |l| > 1 && p > 1.0
    ensures Place(|l|, p) > (|l| - 1) as real && |Sort(l)| == |l|
    ensures Quantile(l, p) == if Place(|l|, p) < |l| as real then Success(Sort(l)[|l| - 1]) else Failure(IndexError)
  {
    hide Sort, Blend, Place, Truncate;
    SortedLength(l);
    PlaceBeyond(|l|, p);
    FloorBeyond(Place(|l|, p), |l|);
    var i := Truncate(1.0 + Place(|l|, p));
    assert i >= |l|;
    assert Quantile(l, p) == At(Sort(l), i - 1);
  }

  lemma FloorBeyond(x: real, n: nat)
    requires n > 0 && x > (n - 1) as real
    ensures Truncate(1.0 + x) >= n && (x < n as real <==> Truncate(1.0 + x) == n)
  {
  }

  lemma PlaceBeyond(n: nat, p: real)
    requires n > 1 && p > 1.0
    ensures Place(n, p) > (n - 1) as real
  {
    var last, more := (n - 1) as real, p - 1.0;
    assert Place(n, p) == last + last * more;
    assert last * more > 0.0;
  }

  lemma PercentileBeyond(l: seq<real>, p: real)
    requires |l| > 1 && p > 1.0
    ensures Percentile(l, p) == Some(Failure(IndexError))
  {
    hide Sort, Blend, Place;
    SortedLength(l);
    PlaceBeyond(|l|, p);
    var x := Place(|l|, p);
    assert Ceiling(x) as real >= x;
  }

  lemma HundredAgrees(l: seq<real>, p: real)
    requires l != []
    ensures PercentileOfHundred(l, 100.0 * p) == Percentile(l, p)
  {
    hide FromZero, Place;
    if |l| == 1 {
      SortOfOne(l);
    } else {
      Hundredth(|l|, p);
    }
  }

  lemma OfOneAgree(l: seq<real>, p: real)
    requires |l| == 1
    ensures Quantile(l, p) == Success(l[0]) && Percentile(l, p) == Some(Success(l[0]))
  {
    SortOfOne(l);
    assert 0.0 * p == 0.0;
  }

  /** From zero on, the zero-based percentiles and the one-based quantile agree exactly up to one, on
      a single value, and where both run off the end. */
  lemma AgreeIff(l: seq<real>, p: real)
    requires l != [] && p >= 0.0
    ensures PercentileOfHundred(l, 100.0 * p) == Percentile(l, p)
    ensures Percentile(l, p) == Some(Quantile(l, p)) <==> p <= 1.0 || |l| == 1 || Place(|l|, p) >= |l| as real
  {
    hide Quantile, Percentile, PercentileOfHundred, Sort, Place;
    HundredAgrees(l, p);
    if p <= 1.0 {
      AllAgree(l, p);
    } else if |l| == 1 {
      OfOneAgree(l, p);
    } else {
      QuantileBeyond(l, p);
      PercentileBeyond(l, p);
    }
  }
}
