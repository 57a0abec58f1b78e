/** All rearrangements of a list (bindings/python/rad_util.py, permutations). */
module Permutations {
  import opened Graphs

  function InsertAt<T>(l: seq<T>, i: nat, x: T): seq<T>
    requires i <= |l|
  {
    l[..i] + [x] + l[i..]
  }

  /** x inserted at each of the places 0 to n - 1. */
  function Insertions<T>(l: seq<T>, x: T, n: nat): seq<seq<T>>
    requires n <= |l| + 1
  {
    if n == 0 then [] else Insertions(l, x, n - 1) + [InsertAt(l, n - 1, x)]
  }

  ghost predicate AllOfLength<T>(ls: seq<seq<T>>, n: nat) {
    forall k :: 0 <= k < |ls| ==> |ls[k]| == n
  }

  ghost function Spread<T>(ls: seq<seq<T>>, x: T, n: nat): seq<seq<T>>
    requires AllOfLength(ls, n)
  {
    if ls == [] then [] else Spread(ls[..|ls| - 1], x, n) + Insertions(ls[|ls| - 1], x, n + 1)
  }

  /** The lists in the order in which they are built. */
  ghost function PermutationsOf<T>(s: seq<T>): (r: seq<seq<T>>)
    ensures AllOfLength(r, |s|)
  {
    if |s| <= 1 then [s] else
      var r := Spread(PermutationsOf(s[1..]), s[0], |s| - 1);
      SpreadLength(PermutationsOf(s[1..]), s[0], |s| - 1);
      r
  }

  lemma {:induction false} InsertionsAt<T>(l: seq<T>, x: T, n: nat)
    requires n <= |l| + 1
    ensures |Insertions(l, x, n)| == n
    ensures forall i :: 0 <= i < n ==> Insertions(l, x, n)[i] == InsertAt(l, i, x)
  {
    hide InsertAt;
    if n == 0 {
    } else {
      var front := Insertions(l, x, n - 1);
      InsertionsAt(l, x, n - 1);
      assert Insertions(l, x, n) == front + [InsertAt(l, n - 1, x)];
    }
  }

  lemma OneMoreTime(k: nat, n: nat)
    ensures k * n + n == (k + 1) * n
  {
  }

  lemma {:induction false} SpreadLength<T>(ls: seq<seq<T>>, x: T, n: nat)
    requires AllOfLength(ls, n)
    ensures AllOfLength(Spread(ls, x, n), n + 1) && |Spread(ls, x, n)| == |ls| * (n + 1)
    decreases |ls|
  {
    if ls == [] {
    } else {
      hide InsertAt, Insertions;
      var last := |ls| - 1;
      SpreadLength(ls[..last], x, n);
      InsertionsAt(ls[last], x, n + 1);
      OneMoreTime(last, n + 1);
    }
  }

  lemma Unfold<T>(s: seq<T>)
    ensures |s| <= 1 ==> PermutationsOf(s) == [s]
    ensures |s| > 1 ==> PermutationsOf(s) == Spread(PermutationsOf(s[1..]), s[0], |s| - 1)
  {
  }

  lemma EmptySpread<T>(x: T, n: nat)
    ensures Spread([], x, n) == []
  {
  }

  lemma SpreadStep<T>(ls: seq<seq<T>>, k: nat, x: T, n: nat)
    requires AllOfLength(ls, n) && k < |ls|
    ensures Spread(ls[..k + 1], x, n) == Spread(ls[..k], x, n) + Insertions(ls[k], x, n + 1)
  {
    assert ls[..k + 1][..k] == ls[..k];
  }

  method Permute<T>(s: seq<T>) returns (r: seq<seq<T>>)
    ensures r == PermutationsOf(s)
    decreases |s|
  {
    hide InsertAt, Spread, PermutationsOf;
    Unfold(s);
    if |s| > 1 {
      var subLists := Permute(s[1..]);
      r := [];
      EmptySpread(s[0], |s| - 1);
      for k := 0 to |subLists|
        invariant r == Spread(subLists[..k], s[0], |s| - 1)
      {
        ghost var before := r;
        for i := 0 to |s|
          invariant r == before + Insertions(subLists[k], s[0], i)
        {
          r := r + [InsertAt(subLists[k], i, s[0])];
        }
        SpreadStep(subLists, k, s[0], |s| - 1);
      }
      assert subLists[..|subLists|] == subLists;
    } else {
      r := [s];
    }
  }

  lemma {:induction false} SpreadAt<T>(ls: seq<seq<T>>, x: T, n: nat, k: nat, i: nat)
    requires AllOfLength(ls, n) && k < |ls| && i <= n
    ensures k * (n + 1) + i < |Spread(ls, x, n)| && Spread(ls, x, n)[k * (n + 1) + i] == InsertAt(ls[k], i, x)
    decreases |ls|
  {
    hide InsertAt;
    var last := |ls| - 1;
    SpreadLength(ls, x, n);
    SpreadLength(ls[..last], x, n);
    InsertionsAt(ls[last], x, n + 1);
    OneMoreTime(last, n + 1);
    if k < last {
      SpreadAt(ls[..last], x, n, k, i);
    }
  }

  /** The order of the lists: for each rearrangement of the rest in turn, the first item at each place from the
      front to the back. */
  lemma PermutationAt<T>(s: seq<T>, k: nat, i: nat)
    requires |s| > 1 && k < |PermutationsOf(s[1..])| && i < |s|
    ensures var l := PermutationsOf(s[1..])[k];
      && |l| == |s| - 1 && k * |s| + i < |PermutationsOf(s)|
      && PermutationsOf(s)[k * |s| + i] == l[..i] + [s[0]] + l[i..]
  {
    hide PermutationsOf, Spread;
    Unfold(s);
    SpreadAt(PermutationsOf(s[1..]), s[0], |s| - 1, k, i);
  }

  // ----- what is in the list -----

  lemma {:induction false} SpreadHas<T>(ls: seq<seq<T>>, x: T, n: nat, k: nat, i: nat)
    requires AllOfLength(ls, n) && k < |ls| && i <= n
    ensures InsertAt(ls[k], i, x) in Spread(ls, x, n)
    decreases |ls|
  {
    var last := |ls| - 1;
    if k == last {
      InsertionsAt(ls[last], x, n + 1);
      assert Insertions(ls[last], x, n + 1)[i] in Insertions(ls[last], x, n + 1);
    } else {
      SpreadHas(ls[..last], x, n, k, i);
    }
  }

  lemma {:induction false} SpreadComesFrom<T>(ls: seq<seq<T>>, x: T, n: nat, p: seq<T>) returns (k: nat, i: nat)
    requires AllOfLength(ls, n) && p in Spread(ls, x, n)
    ensures k < |ls| && i <= n && p == InsertAt(ls[k], i, x)
    decreases |ls|
  {
    var last := |ls| - 1;
    if p in Spread(ls[..last], x, n) {
      k, i := SpreadComesFrom(ls[..last], x, n, p);
    } else {
      InsertionsAt(ls[last], x, n + 1);
      var j :| 0 <= j < n + 1 && Insertions(ls[last], x, n + 1)[j] == p;
      k, i := last, j;
    }
  }

  lemma InsertedElements<T>(l: seq<T>, i: nat, x: T)
    requires i <= |l|
    ensures multiset(InsertAt(l, i, x)) == multiset(l) + multiset{x}
  {
    assert l == l[..i] + l[i..];
  }

  /** Taking x out of a list and inserting it again. */
  lemma TakeOut<T>(p: seq<T>, x: T) returns (q: seq<T>, i: nat)
    requires x in p
    ensures i <= |q| && p == InsertAt(q, i, x)
  {
    i :| i < |p| && p[i] == x;
    q := p[..i] + p[i + 1..];
  }

  lemma FirstApart<T>(s: seq<T>)
    requires s != []
    ensures multiset(s) == multiset(s[1..]) + multiset{s[0]} && s[0] in multiset(s)
  {
    assert s == [s[0]] + s[1..];
  }

  lemma {:induction false} Rearranged<T(!new)>(s: seq<T>, p: seq<T>)
    requires p in PermutationsOf(s)
    ensures multiset(p) == multiset(s)
    decreases |s|
  {
    if |s| > 1 {
      var k, i := SpreadComesFrom(PermutationsOf(s[1..]), s[0], |s| - 1, p);
      var l := PermutationsOf(s[1..])[k];
      Rearranged(s[1..], l);
      InsertedElements(l, i, s[0]);
      FirstApart(s);
    }
  }

  lemma {:induction false} NoneMissing<T(!new)>(s: seq<T>, p: seq<T>)
    requires multiset(p) == multiset(s)
    ensures p in PermutationsOf(s)
    decreases |s|
  {
    hide PermutationsOf, InsertAt, Spread;
    Unfold(s);
    if |s| <= 1 {
      ShortRearrangement(s, p);
    } else {
      FirstApart(s);
      assert s[0] in multiset(p);
      var q, i := TakeOut(p, s[0]);
      InsertedElements(q, i, s[0]);
      SameLength(s, p);
      OneLess(multiset(q), multiset(s[1..]), s[0]);
      NoneMissing(s[1..], q);
      var k :| 0 <= k < |PermutationsOf(s[1..])| && PermutationsOf(s[1..])[k] == q;
      SpreadHas(PermutationsOf(s[1..]), s[0], |s| - 1, k, i);
    }
  }

  lemma SameLength<T>(s: seq<T>, p: seq<T>)
    requires multiset(p) == multiset(s)
    ensures |p| == |s|
  {
    assert |p| == |multiset(p)| == |multiset(s)| == |s|;
  }

  lemma OneLess<T>(m: multiset<T>, n: multiset<T>, x: T)
    requires m + multiset{x} == n + multiset{x}
    ensures m == n
  {
    assert m + multiset{x} - multiset{x} == m;
    assert n + multiset{x} - multiset{x} == n;
  }

  /** The list holds exactly the rearrangements of s. */
  lemma EveryRearrangement<T(!new)>(s: seq<T>, p: seq<T>)
    ensures p in PermutationsOf(s) <==> multiset(p) == multiset(s)
  {
    if p in PermutationsOf(s) {
      Rearranged(s, p);
    }
    if multiset(p) == multiset(s) {
      NoneMissing(s, p);
    }
  }

  lemma ShortRearrangement<T(!new)>(s: seq<T>, p: seq<T>)
    requires |s| <= 1
    ensures p == s <==> multiset(p) == multiset(s)
  {
    if multiset(p) == multiset(s) {
      assert |p| == |multiset(p)| == |multiset(s)| == |s|;
      if |s| == 1 {
        assert s[0] in multiset(s) && p[0] in multiset(p);
        assert s == [s[0]] && p == [p[0]];
      }
    }
  }

  // ----- how many there are -----

  ghost function Factorial(n: nat): nat {
    if n == 0 then 1 else n * Factorial(n - 1)
  }

  lemma {:induction false} HowMany<T>(s: seq<T>)
    ensures |PermutationsOf(s)| == Factorial(|s|)
    decreases |s|
  {
    if |s| > 1 {
      HowMany(s[1..]);
      SpreadLength(PermutationsOf(s[1..]), s[0], |s| - 1);
      assert Factorial(|s|) == |s| * Factorial(|s| - 1);
    } else {
      assert Factorial(0) == 1;
    }
  }

  // ----- repetitions -----

  lemma InsertionIsInjective<T>(l: seq<T>, i: nat, m: seq<T>, j: nat, x: T)
    requires i <= |l| && j <= |m| && x !in l && x !in m && InsertAt(l, i, x) == InsertAt(m, j, x)
    ensures l == m && i == j
  {
    PlaceIsUnique(l, i, x);
    PlaceIsUnique(m, j, x);
    var p := InsertAt(l, i, x);
    assert p[i] == x;
    assert l == p[..i] + p[i + 1..] && m == p[..j] + p[j + 1..];
  }

  lemma PlaceIsUnique<T>(l: seq<T>, i: nat, x: T)
    requires i <= |l| && x !in l
    ensures forall k :: 0 <= k <= |l| ==> (InsertAt(l, i, x)[k] == x <==> k == i)
  {
    forall k | 0 <= k <= |l| ensures InsertAt(l, i, x)[k] == x <==> k == i {
      assert InsertAt(l, i, x)[k] == if k < i then l[k] else if k == i then x else l[k - 1];
    }
  }

  lemma DistinctParts<T>(s: seq<T>, t: seq<T>)
    requires Distinct(s + t)
    ensures Distinct(s) && Distinct(t) && forall x :: x in s ==> x !in t
  {
    var r := s + t;
    assert forall i :: 0 <= i < |s| ==> s[i] == r[i];
    assert forall j :: 0 <= j < |t| ==> t[j] == r[|s| + j];
  }

  lemma DistinctConcat<T>(s: seq<T>, t: seq<T>)
    ensures Distinct(s + t) <==> Distinct(s) && Distinct(t) && forall x :: x in s ==> x !in t
  {
    var r := s + t;
    if Distinct(r) {
      DistinctParts(s, t);
    } else {
      var i, j :| 0 <= i < j < |r| && r[i] == r[j];
      if j < |s| {
        assert s[i] == s[j];
      } else if i < |s| {
        assert s[i] in s && t[j - |s|] in t && s[i] == t[j - |s|];
      } else {
        assert t[i - |s|] == t[j - |s|];
      }
    }
  }

  lemma {:induction false} SpreadIsDistinct<T>(ls: seq<seq<T>>, x: T, n: nat)
    requires AllOfLength(ls, n) && Distinct(ls) && forall k :: 0 <= k < |ls| ==> x !in ls[k]
    ensures Distinct(Spread(ls, x, n))
    decreases |ls|
  {
    if ls == [] {
    } else {
      var last := |ls| - 1;
      var front, back := Spread(ls[..last], x, n), Insertions(ls[last], x, n + 1);
      SpreadIsDistinct(ls[..last], x, n);
      InsertionsAt(ls[last], x, n + 1);
      forall i, j | 0 <= i < j < |back| ensures back[i] != back[j] {
        if back[i] == back[j] {
          InsertionIsInjective(ls[last], i, ls[last], j, x);
        }
      }
      forall p | p in front ensures p !in back {
        var k, i := SpreadComesFrom(ls[..last], x, n, p);
        if p in back {
          var j :| 0 <= j < |back| && back[j] == p;
          InsertionIsInjective(ls[k], i, ls[last], j, x);
        }
      }
      DistinctConcat(front, back);
    }
  }

  /** A repeated list to insert into, or an item that is already in one, gives a repeated list. */
  lemma {:induction false} SpreadRepeats<T>(ls: seq<seq<T>>, x: T, n: nat, k: nat)
    requires AllOfLength(ls, n)
    requires !Distinct(ls) || (k < |ls| && x in ls[k])
    ensures !Distinct(Spread(ls, x, n))
    decreases |ls|
  {
    var last := |ls| - 1;
    var front, back := Spread(ls[..last], x, n), Insertions(ls[last], x, n + 1);
    DistinctConcat(front, back);
    if !Distinct(ls[..last]) || (k < last && x in ls[k]) {
      SpreadRepeats(ls[..last], x, n, k);
    } else if !Distinct(ls) {
      RepeatedLast(ls);
      var i :| 0 <= i < last && ls[i] == ls[last];
      SpreadHas(ls[..last], x, n, i, 0);
      InsertionsAt(ls[last], x, n + 1);
      assert back[0] in back && back[0] == InsertAt(ls[last], 0, x);
    } else {
      InsertionsRepeat(ls[last], x);
    }
  }

  lemma RepeatedLast<T>(ls: seq<T>)
    requires !Distinct(ls) && ls != [] && Distinct(ls[..|ls| - 1])
    ensures exists i :: 0 <= i < |ls| - 1 && ls[i] == ls[|ls| - 1]
  {
    var front := ls[..|ls| - 1];
    assert ls == front + [ls[|ls| - 1]];
    DistinctConcat(front, [ls[|ls| - 1]]);
    var i :| 0 <= i < |front| && front[i] == ls[|ls| - 1];
  }

  lemma BeforeOrAfter<T>(l: seq<T>, j: nat, x: T)
    requires j < |l| && l[j] == x
    ensures InsertAt(l, j, x) == InsertAt(l, j + 1, x)
  {
    assert l[j..] == [x] + l[j + 1..] && l[..j + 1] == l[..j] + [x];
  }

  /** Inserting x just before and just after an x gives the same list. */
  lemma InsertionsRepeat<T>(l: seq<T>, x: T)
    requires x in l
    ensures !Distinct(Insertions(l, x, |l| + 1))
  {
    hide InsertAt;
    var j :| 0 <= j < |l| && l[j] == x;
    var back := Insertions(l, x, |l| + 1);
    InsertionsAt(l, x, |l| + 1);
    BeforeOrAfter(l, j, x);
    assert back[j] == back[j + 1];
  }

  lemma DistinctHead<T>(s: seq<T>)
    requires s != []
    ensures Distinct(s) <==> Distinct(s[1..]) && s[0] !in s[1..]
  {
    assert s == [s[0]] + s[1..];
    DistinctConcat([s[0]], s[1..]);
  }

  lemma NotAmong<T(!new)>(s: seq<T>, x: T)
    requires x !in s
    ensures forall k :: 0 <= k < |PermutationsOf(s)| ==> x !in PermutationsOf(s)[k]
  {
    hide PermutationsOf;
    forall k | 0 <= k < |PermutationsOf(s)| ensures x !in PermutationsOf(s)[k] {
      Rearranged(s, PermutationsOf(s)[k]);
      assert x !in multiset(s);
    }
  }

  lemma ItselfAmong<T(!new)>(s: seq<T>) returns (k: nat)
    ensures k < |PermutationsOf(s)| && PermutationsOf(s)[k] == s
  {
    hide PermutationsOf;
    NoneMissing(s, s);
    k :| k < |PermutationsOf(s)| && PermutationsOf(s)[k] == s;
  }

  /** No list is returned twice exactly when no item is in the input twice. */
  lemma {:induction false} NoneTwice<T(!new)>(s: seq<T>)
    ensures Distinct(PermutationsOf(s)) <==> Distinct(s)
    decreases |s|
  {
    hide PermutationsOf, InsertAt, Spread;
    Unfold(s);
    if |s| > 1 {
      var ls := PermutationsOf(s[1..]);
      NoneTwice(s[1..]);
      DistinctHead(s);
      if Distinct(s) {
        NotAmong(s[1..], s[0]);
        SpreadIsDistinct(ls, s[0], |s| - 1);
      } else {
        var k := ItselfAmong(s[1..]);
        SpreadRepeats(ls, s[0], |s| - 1, k);
      }
    }
  }
}
