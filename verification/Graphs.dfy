/** Finite directed graphs given by their edge set: walks, elementary cycles, and the
    rounds in which a dependency sort can release the nodes. */
module Graphs {

  type Edges<!N(==)> = set<(N, N)>

  ghost predicate Distinct<N>(s: seq<N>) {
    forall i, j :: 0 <= i < j < |s| ==> s[i] != s[j]
  }

  ghost predicate IsWalk<N>(edges: Edges<N>, w: seq<N>) {
    forall i :: 0 <= i < |w| - 1 ==> (w[i], w[i + 1]) in edges
  }

  /** The last node of a closed walk is a parent of its first. */
  ghost predicate IsClosedWalk<N>(edges: Edges<N>, c: seq<N>) {
    |c| > 0 && IsWalk(edges, c) && (c[|c| - 1], c[0]) in edges
  }

  ghost predicate IsElementaryCycle<N>(edges: Edges<N>, c: seq<N>) {
    IsClosedWalk(edges, c) && Distinct(c)
  }

  ghost predicate Acyclic<N(!new)>(edges: Edges<N>) {
    forall c: seq<N> :: !IsClosedWalk(edges, c)
  }

  /** Every edge runs between nodes of the graph. */
  ghost predicate WithinNodes<N>(nodes: set<N>, edges: Edges<N>) {
    forall e :: e in edges ==> e.0 in nodes && e.1 in nodes
  }

  ghost predicate ParentsIn<N>(edges: Edges<N>, x: N, s: set<N>) {
    forall e :: e in edges && e.1 == x ==> e.0 in s
  }

  ghost predicate HasParentIn<N>(edges: Edges<N>, x: N, u: set<N>) {
    exists e :: e in edges && e.1 == x && e.0 in u
  }

  /** Every member of u has a parent that is a member too. */
  ghost predicate ClosedUnderParents<N(!new)>(edges: Edges<N>, u: set<N>) {
    forall x {:trigger HasParentIn(edges, x, u)} :: x in u ==> HasParentIn(edges, x, u)
  }

  /** The nodes released after k rounds, where each round releases the nodes whose parents
      have all been released before it. */
  ghost function Released<N>(nodes: set<N>, edges: Edges<N>, k: nat): set<N> {
    if k == 0 then {} else
      var before := Released(nodes, edges, k - 1);
      set x | x in nodes && ParentsIn(edges, x, before)
  }

  ghost function Level<N>(nodes: set<N>, edges: Edges<N>, k: nat): set<N> {
    Released(nodes, edges, k + 1) - Released(nodes, edges, k)
  }

  /** x is released in round d + 1 and not sooner. */
  ghost predicate HasDepth<N>(nodes: set<N>, edges: Edges<N>, x: N, d: nat) {
    x in Level(nodes, edges, d)
  }

  // ----- sequences without repetition -----

  lemma {:induction false} DistinctFitsIn<N>(s: seq<N>, u: set<N>)
    requires Distinct(s) && forall i :: 0 <= i < |s| ==> s[i] in u
    ensures |s| <= |u|
  {
    if s == [] {
    } else {
      var last := |s| - 1;
      DistinctFitsIn(s[..last], u - {s[last]});
    }
  }

  lemma DistinctMultiset<N>(s: seq<N>, x: N)
    requires Distinct(s)
    ensures multiset(s)[x] == (if x in s then 1 else 0)
  {
    if x in s {
      var i :| 0 <= i < |s| && s[i] == x;
      assert s == s[..i] + [x] + s[i + 1..];
      assert x !in s[..i] && x !in s[i + 1..];
      assert multiset(s) == multiset(s[..i]) + multiset{x} + multiset(s[i + 1..]);
    }
  }

  // ----- rounds -----

  lemma {:induction false} ReleasedGrows<N>(nodes: set<N>, edges: Edges<N>, j: nat, k: nat)
    requires j <= k
    ensures Released(nodes, edges, j) <= Released(nodes, edges, k)
    decreases k
  {
    if j == 0 || j == k {
    } else {
      ReleasedGrows(nodes, edges, j - 1, k - 1);
    }
  }

  /** Two rounds at which nothing more is released bound every later round. */
  lemma {:induction false} ReleasedStops<N>(nodes: set<N>, edges: Edges<N>, stop: nat, k: nat)
    requires Released(nodes, edges, stop) == Released(nodes, edges, stop + 1)
    ensures Released(nodes, edges, k) <= Released(nodes, edges, stop)
    decreases k
  {
    if k <= stop {
      ReleasedGrows(nodes, edges, k, stop);
    } else {
      ReleasedStops(nodes, edges, stop, k - 1);
    }
  }

  lemma {:induction false} ReleasedHasDepth<N>(nodes: set<N>, edges: Edges<N>, x: N, k: nat) returns (d: nat)
    requires x in Released(nodes, edges, k)
    ensures d < k && HasDepth(nodes, edges, x, d)
  {
    if x in Released(nodes, edges, k - 1) {
      d := ReleasedHasDepth(nodes, edges, x, k - 1);
    } else {
      d := k - 1;
    }
  }

  // ----- depth is the length of the longest walk into a node -----

  lemma {:induction false} WalkIsShort<N>(nodes: set<N>, edges: Edges<N>, w: seq<N>, d: nat)
    requires |w| > 0 && IsWalk(edges, w) && w[|w| - 1] in Released(nodes, edges, d + 1)
    ensures |w| - 1 <= d
    decreases |w|
  {
    var n := |w| - 1;
    if n > 0 {
      assert (w[n - 1], w[n]) in edges;
      assert w[n - 1] in Released(nodes, edges, d);
      WalkIsShort(nodes, edges, w[..n], d - 1);
    }
  }

  lemma {:induction false} LongestWalk<N>(nodes: set<N>, edges: Edges<N>, x: N, d: nat) returns (w: seq<N>)
    requires HasDepth(nodes, edges, x, d)
    ensures |w| == d + 1 && IsWalk(edges, w) && w[d] == x
  {
    if d == 0 {
      w := [x];
    } else {
      assert !ParentsIn(edges, x, Released(nodes, edges, d - 1));
      var e :| e in edges && e.1 == x && e.0 !in Released(nodes, edges, d - 1);
      assert ParentsIn(edges, x, Released(nodes, edges, d));
      assert HasDepth(nodes, edges, e.0, d - 1);
      var v := LongestWalk(nodes, edges, e.0, d - 1);
      w := v + [x];
    }
  }

  /** The depth of a released node is the number of edges of the longest walk that ends in it. */
  lemma DepthIsLongestWalk<N(!new)>(nodes: set<N>, edges: Edges<N>, x: N, k: nat, d: nat)
    requires x in Released(nodes, edges, k)
    ensures HasDepth(nodes, edges, x, d) <==>
            && (exists w :: |w| == d + 1 && IsWalk(edges, w) && w[d] == x)
            && (forall w :: |w| > 0 && IsWalk(edges, w) && w[|w| - 1] == x ==> |w| - 1 <= d)
  {
    var depth := ReleasedHasDepth(nodes, edges, x, k);
    var v := LongestWalk(nodes, edges, x, depth);
    forall w | |w| > 0 && IsWalk(edges, w) && w[|w| - 1] == x
      ensures |w| - 1 <= depth
    {
      WalkIsShort(nodes, edges, w, depth);
    }
    if HasDepth(nodes, edges, x, d) {
      DepthIsUnique(nodes, edges, x, d, depth);
    }
  }

  lemma DepthIsUnique<N>(nodes: set<N>, edges: Edges<N>, x: N, d: nat, d': nat)
    requires HasDepth(nodes, edges, x, d) && HasDepth(nodes, edges, x, d')
    ensures d == d'
  {
    if d < d' {
      ReleasedGrows(nodes, edges, d + 1, d');
    } else if d' < d {
      ReleasedGrows(nodes, edges, d' + 1, d);
    }
  }

  // ----- cycles and release -----

  /** No node on a closed walk is ever released. */
  lemma {:induction false} CyclesAreNeverReleased<N>(nodes: set<N>, edges: Edges<N>, c: seq<N>, i: nat, k: nat)
    requires IsClosedWalk(edges, c) && i < |c|
    ensures c[i] !in Released(nodes, edges, k)
    decreases k
  {
    if k == 0 {
    } else {
      var before := if i == 0 then |c| - 1 else i - 1;
      CyclesAreNeverReleased(nodes, edges, c, before, k - 1);
      assert (c[before], c[i]) in edges;
    }
  }

  /** Walking backwards inside a set in which every node has a parent must close a cycle. */
  lemma {:induction false} WalkBack<N(!new)>(edges: Edges<N>, u: set<N>, w: seq<N>) returns (c: seq<N>)
    requires |w| > 0 && Distinct(w) && IsWalk(edges, w) && forall i :: 0 <= i < |w| ==> w[i] in u
    requires ClosedUnderParents(edges, u)
    ensures IsElementaryCycle(edges, c) && forall i :: 0 <= i < |c| ==> c[i] in u
    decreases |u| - |w|
  {
    DistinctFitsIn(w, u);
    assert HasParentIn(edges, w[0], u);
    var e :| e in edges && e.1 == w[0] && e.0 in u;
    if e.0 in w {
      var i :| 0 <= i < |w| && w[i] == e.0;
      c := w[..i + 1];
      assert (c[i], c[0]) == e;
    } else {
      var longer := [e.0] + w;
      DistinctFitsIn(longer, u);
      assert forall i :: 0 <= i < |longer| - 1 ==>
                           (longer[i], longer[i + 1]) == (if i == 0 then e else (w[i - 1], w[i]));
      c := WalkBack(edges, u, longer);
    }
  }

  /** Once the rounds have stopped, every node left over has a parent left over. */
  lemma LeftOverHaveParents<N(!new)>(nodes: set<N>, edges: Edges<N>, stop: nat)
    requires WithinNodes(nodes, edges)
    requires Released(nodes, edges, stop) == Released(nodes, edges, stop + 1)
    ensures ClosedUnderParents(edges, nodes - Released(nodes, edges, stop))
  {
    var done := Released(nodes, edges, stop);
    forall x | x in nodes - done
      ensures HasParentIn(edges, x, nodes - done)
    {
      assert x !in Released(nodes, edges, stop + 1);
      assert !ParentsIn(edges, x, done);
    }
  }

  /** Once the rounds have stopped, a node is left over exactly when the graph has a cycle. */
  lemma LeftOverIffCyclic<N(!new)>(nodes: set<N>, edges: Edges<N>, stop: nat)
    requires WithinNodes(nodes, edges)
    requires Released(nodes, edges, stop) == Released(nodes, edges, stop + 1)
    ensures Released(nodes, edges, stop) == nodes <==> Acyclic(edges)
  {
    var u := nodes - Released(nodes, edges, stop);
    if !Acyclic(edges) {
      var c :| IsClosedWalk(edges, c);
      CyclesAreNeverReleased(nodes, edges, c, 0, stop);
      assert (c[|c| - 1], c[0]) in edges;
      assert c[0] in u;
    }
    LeftOverHaveParents(nodes, edges, stop);
    if x :| x in u {
      var c := WalkBack(edges, u, [x]);
    } else {
      ReleasedAreNodes(nodes, edges, stop);
      assert nodes == u + Released(nodes, edges, stop);
    }
  }

  lemma ReleasedAreNodes<N>(nodes: set<N>, edges: Edges<N>, k: nat)
    ensures Released(nodes, edges, k) <= nodes
  {
  }

  /** A graph with any closed walk has an elementary one. */
  lemma AcyclicIffNoElementaryCycle<N(!new)>(edges: Edges<N>)
    ensures Acyclic(edges) <==> forall c: seq<N> :: !IsElementaryCycle(edges, c)
  {
    if c: seq<N> :| IsClosedWalk(edges, c) {
      var u := set i | 0 <= i < |c| :: c[i];
      forall x | x in u
        ensures exists e :: e in edges && e.1 == x && e.0 in u
      {
        var i :| 0 <= i < |c| && c[i] == x;
        var before := if i == 0 then |c| - 1 else i - 1;
        assert (c[before], c[i]) in edges;
      }
      var d := WalkBack(edges, u, [c[0]]);
    }
  }
}
