/** Rotations of a sequence, and the test for them in bindings/python/rad_util.py. */
module Rotation {
  import opened Wrappers

  function Rotate<N>(s: seq<N>, k: nat): (t: seq<N>)
    requires k <= |s|
    ensures |t| == |s|
  {
    s[k..] + s[..k]
  }

  ghost predicate IsRotation<N>(s: seq<N>, t: seq<N>) {
    exists k: nat :: k <= |s| && t == Rotate(s, k)
  }

  lemma RotationIsReflexive<N>(s: seq<N>)
    ensures IsRotation(s, s)
  {
    assert s == Rotate(s, 0);
  }

  lemma RotationIsSymmetric<N>(s: seq<N>, t: seq<N>)
    requires IsRotation(s, t)
    ensures IsRotation(t, s)
  {
    var k: nat :| k <= |s| && t == Rotate(s, k);
    assert t[|s| - k..] == s[..k] && t[..|s| - k] == s[k..];
    assert s == Rotate(t, |s| - k);
  }

  lemma RotateSplit<N>(a: seq<N>, b: seq<N>)
    ensures Rotate(a + b, |a|) == b + a
  {
    assert (a + b)[|a|..] == b && (a + b)[..|a|] == a;
  }

  /** Rotating twice is rotating by the sum, less one turn if that is too much. */
  lemma RotateTwice<N>(s: seq<N>, j: nat, k: nat)
    requires j <= |s| && k <= |s|
    ensures Rotate(Rotate(s, j), k) == Rotate(s, if j + k <= |s| then j + k else j + k - |s|)
  {
    var m := if j + k <= |s| then j + k else j + k - |s|;
    var first, second := if m >= j then j else m, if m >= j then m else j;
    var a, b, c := s[..first], s[first..second], s[second..];
    assert s == a + b + c;
    assert a + b + c == a + (b + c);
    RotateSplit(a, b + c);
    RotateSplit(a + b, c);
    if j + k <= |s| {
      assert Rotate(s, j) == b + (c + a);
      RotateSplit(b, c + a);
      assert (c + a) + b == c + (a + b);
    } else {
      assert Rotate(s, j) == (c + a) + b;
      RotateSplit(c + a, b);
      assert b + (c + a) == (b + c) + a;
    }
  }

  lemma RotationIsTransitive<N>(s: seq<N>, t: seq<N>, u: seq<N>)
    requires IsRotation(s, t) && IsRotation(t, u)
    ensures IsRotation(s, u)
  {
    hide Rotate;
    var j: nat :| j <= |s| && t == Rotate(s, j);
    var k: nat :| k <= |t| && u == Rotate(t, k);
    RotateTwice(s, j, k);
  }

  /** The window of seq1 + seq1 that starts at k is the rotation by k. */
  lemma WindowIsRotation<N>(s: seq<N>, k: nat)
    requires k <= |s|
    ensures (s + s)[k..k + |s|] == Rotate(s, k)
  {
  }

  /** A rotation is found among the positions that hold its head. */
  lemma RotationsStartAtTheHead<N>(s: seq<N>, t: seq<N>, starts: seq<nat>)
    requires |s| == |t| > 0
    requires forall i :: i in starts <==> 0 <= i < |s| && s[i] == t[0]
    ensures IsRotation(s, t) ==> exists n :: 0 <= n < |starts| && starts[n] <= |s| && Rotate(s, starts[n]) == t
  {
    if k: nat :| k <= |s| && t == Rotate(s, k) {
      var start := if k == |s| then 0 else k;
      assert Rotate(s, |s|) == Rotate(s, 0);
      assert Rotate(s, start)[0] == s[start];
      assert start in starts;
    }
  }

  /** Reading the head of seq2 raises an IndexError when both sequences are empty. */
  method IsRotated<N(==)>(seq1: seq<N>, seq2: seq<N>) returns (r: Option<bool>)
    ensures r == None <==> seq1 == [] && seq2 == []
    ensures r.Some? ==> (r.value <==> IsRotation(seq1, seq2))
  {
    if |seq1| != |seq2| {
      return Some(false);
    }
    if seq2 == [] {
      return None;
    }
    var startIndexes: seq<nat> := [];
    for index1 := 0 to |seq1|
      invariant forall i :: i in startIndexes <==> 0 <= i < index1 && seq1[i] == seq2[0]
    {
      if seq1[index1] == seq2[0] {
        startIndexes := startIndexes + [index1];
      }
    }
    var doubleSeq1 := seq1 + seq1;
    for n := 0 to |startIndexes|
      invariant forall i :: 0 <= i < n ==> startIndexes[i] < |seq1| && Rotate(seq1, startIndexes[i]) != seq2
    {
      var index1 := startIndexes[n];
      assert index1 in startIndexes;
      WindowIsRotation(seq1, index1);
      if doubleSeq1[index1..index1 + |seq1|] == seq2 {
        return Some(true);
      }
    }
    RotationsStartAtTheHead(seq1, seq2, startIndexes);
    return Some(false);
  }
}
