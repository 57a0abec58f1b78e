/** What the children dictionary of a CycleError is worth: handed to the cycle enumerator it
    shows every cycle of the whole pair list and nothing else. */
module CycleReport {
  import opened Graphs
  import opened Rotation
  import opened Topsort
  import opened FindCycles

  /** The leftover edges are the edges whose parent was never released. */
  lemma LeftOverEdges<N(!new)>(pairs: Pairs<N>, done: set<N>, children: map<N, seq<N>>, p: N, x: N)
    requires ChildrenOutside(pairs, done, children)
    ensures (p, x) in EdgesIn(children) <==> (p, x) in EdgesOf(pairs) && p !in done
  {
    ChildrenAreEdges(pairs, p, x);
    if (p, x) in EdgesOf(pairs) && p !in done {
      assert p in children && x in children[p];
      var i :| 0 <= i < |children[p]| && children[p][i] == x;
      assert (p, children[p][i]) in EdgesIn(children);
    }
  }

  lemma LeftOverKeepsCycles<N(!new)>(pairs: Pairs<N>, r: SortResult<N>, c: seq<N>)
    requires IsSortOf(pairs, r) && r.CycleError?
    ensures IsElementaryCycle(EdgesIn(r.children), c) <==> IsElementaryCycle(EdgesOf(pairs), c)
  {
    hide EdgesIn, EdgesOf, Elements, Distinct, InDepthOrder, ParentsFirst, ClosedUnderParents, Released, Waiting,
         ChildrenOutside;
    var nodes, edges, kept, done := Elements(pairs), EdgesOf(pairs), EdgesIn(r.children), ToSet(r.answer);
    forall p, x
      ensures (p, x) in kept <==> (p, x) in edges && p !in done
    {
      LeftOverEdges(pairs, done, r.children, p, x);
    }
    if IsClosedWalk(edges, c) {
      forall i | 0 <= i < |c|
        ensures c[i] !in done
      {
        NeverReleased(nodes, edges, c, i);
        assert c[i] !in r.answer;
      }
    }
  }

  lemma NeverReleased<N>(nodes: set<N>, edges: Edges<N>, c: seq<N>, i: nat)
    requires IsClosedWalk(edges, c) && i < |c|
    ensures !IsReleasable(nodes, edges, c[i])
  {
    forall k: nat
      ensures c[i] !in Released(nodes, edges, k)
    {
      CyclesAreNeverReleased(nodes, edges, c, i, k);
    }
  }

  /** What find_cycles yields on the leftover children explains the failure: there is something
      to show, it is all genuine, and no cycle of the pair list is missing. */
  lemma CycleErrorIsExplained<N(!new)>(pairs: Pairs<N>, r: SortResult<N>, cycles: seq<seq<N>>)
    requires IsSortOf(pairs, r) && r.CycleError?
    requires AreCycles(EdgesIn(r.children), cycles)
    requires forall c :: IsElementaryCycle(EdgesIn(r.children), c) ==> Recorded(cycles, c)
    ensures cycles != [] && AreCycles(EdgesOf(pairs), cycles)
    ensures forall c :: IsElementaryCycle(EdgesOf(pairs), c) ==> Recorded(cycles, c)
  {
    AcyclicIffNoElementaryCycle(EdgesOf(pairs));
    hide IsElementaryCycle, IsRotation, EdgesIn, EdgesOf, LeftOver, InDepthOrder, ParentsFirst, IsReleasable,
         Distinct, Elements;
    forall c
      ensures IsElementaryCycle(EdgesIn(r.children), c) <==> IsElementaryCycle(EdgesOf(pairs), c)
    {
      LeftOverKeepsCycles(pairs, r, c);
    }
    var c: seq<N> :| IsElementaryCycle(EdgesOf(pairs), c);
    assert Recorded(cycles, c);
  }
}
