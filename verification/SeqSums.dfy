/** Sums of a weight over the elements of a sequence. */
module SeqSums {

  ghost function Total<T>(q: seq<T>, f: T -> nat): nat {
    if q == [] then 0 else Total(q[..|q| - 1], f) + f(q[|q| - 1])
  }

  lemma TotalPush<T>(q: seq<T>, x: T, f: T -> nat)
    ensures Total(q + [x], f) == Total(q, f) + f(x)
  {
    assert (q + [x])[..|q|] == q;
  }

  lemma {:induction false} TotalPop<T>(q: seq<T>, f: T -> nat)
    requires q != []
    ensures Total(q, f) == f(q[0]) + Total(q[1..], f)
    decreases |q|
  {
    var last := |q| - 1;
    if last > 0 {
      TotalPop(q[..last], f);
      assert q[1..][..last - 1] == q[..last][1..];
    }
  }

  lemma {:induction false} TotalUpdate<T>(q: seq<T>, i: nat, x: T, f: T -> nat)
    requires i < |q|
    ensures Total(q[i := x], f) == Total(q, f) - f(q[i]) + f(x)
    ensures f(q[i]) <= Total(q, f)
    decreases |q|
  {
    var last := |q| - 1;
    if i == last {
      assert q[i := x][..last] == q[..last];
    } else {
      assert q[i := x][..last] == q[..last][i := x];
      TotalUpdate(q[..last], i, x, f);
    }
  }

  lemma {:induction false} TotalZero<T>(q: seq<T>, f: T -> nat)
    requires forall i :: 0 <= i < |q| ==> f(q[i]) == 0
    ensures Total(q, f) == 0
    decreases |q|
  {
    if q == [] {
    } else {
      TotalZero(q[..|q| - 1], f);
    }
  }

  lemma {:induction false} TotalOnes<T>(q: seq<T>, f: T -> nat)
    requires forall i :: 0 <= i < |q| ==> f(q[i]) == 1
    ensures Total(q, f) == |q|
    decreases |q|
  {
    if q == [] {
    } else {
      TotalOnes(q[..|q| - 1], f);
    }
  }

  lemma {:induction false} PartOfTotal<T>(q: seq<T>, i: nat, f: T -> nat)
    requires i < |q|
    ensures f(q[i]) <= Total(q, f)
    decreases |q|
  {
    if i < |q| - 1 {
      PartOfTotal(q[..|q| - 1], i, f);
    }
  }

  lemma {:induction false} SomePositive<T>(q: seq<T>, f: T -> nat) returns (i: nat)
    requires Total(q, f) > 0
    ensures i < |q| && f(q[i]) > 0
    decreases |q|
  {
    if f(q[|q| - 1]) > 0 {
      i := |q| - 1;
    } else {
      i := SomePositive(q[..|q| - 1], f);
    }
  }

  lemma {:induction false} TotalDominates<T>(q: seq<T>, f: T -> nat, g: T -> nat)
    requires forall i :: 0 <= i < |q| ==> f(q[i]) <= g(q[i])
    ensures Total(q, f) <= Total(q, g)
    decreases |q|
  {
    if q == [] {
    } else {
      TotalDominates(q[..|q| - 1], f, g);
    }
  }
}
