/** The cycle enumerator of bindings/python/topsort.py: a stack of simple paths, extended from
    every root that no earlier path has visited, with rotations of known cycles dropped. */
module FindCycles {
  import opened Graphs
  import opened Rotation

  type Children<!N(==)> = map<N, seq<N>>

  ghost function EdgesIn<N>(children: Children<N>): Edges<N> {
    set p, i | p in children && 0 <= i < |children[p]| :: (p, children[p][i])
  }

  ghost function NodesIn<N>(children: Children<N>): set<N> {
    children.Keys + set p, i | p in children && 0 <= i < |children[p]| :: children[p][i]
  }

  ghost predicate IsSimplePath<N>(edges: Edges<N>, root: N, p: seq<N>) {
    |p| > 0 && p[0] == root && IsWalk(edges, p) && Distinct(p)
  }

  ghost predicate Recorded<N>(cycles: seq<seq<N>>, c: seq<N>) {
    exists i :: 0 <= i < |cycles| && IsRotation(cycles[i], c)
  }

  /** Elementary cycles, no two of them rotations of each other. */
  ghost predicate AreCycles<N>(edges: Edges<N>, cycles: seq<seq<N>>) {
    && (forall i :: 0 <= i < |cycles| ==> IsElementaryCycle(edges, cycles[i]))
    && (forall i, j :: 0 <= i < j < |cycles| ==> !IsRotation(cycles[i], cycles[j]))
  }

  function IndexOf<N(==)>(p: seq<N>, x: N): (i: nat)
    requires x in p
    ensures i < |p| && p[i] == x && x !in p[..i]
  {
    if p[0] == x then 0 else 1 + IndexOf(p[1..], x)
  }

  /** What the search owes to the edge from the end of p to child. */
  ghost predicate Handled<N>(cycles: seq<seq<N>>, known: set<seq<N>>, p: seq<N>, child: N) {
    if child in p then Recorded(cycles, p[IndexOf(p, child)..]) else p + [child] in known
  }

  ghost predicate Expanded<N(!new)>(edges: Edges<N>, cycles: seq<seq<N>>, known: set<seq<N>>, p: seq<N>) {
    |p| > 0 &&
    forall child {:trigger (p[|p| - 1], child) in edges} ::
      (p[|p| - 1], child) in edges ==> Handled(cycles, known, p, child)
  }

  ghost function Members<N>(stack: seq<seq<N>>): set<seq<N>> {
    set i | 0 <= i < |stack| :: stack[i]
  }

  /** The search from root: every path taken off the stack has been expanded, into cycles
      recorded and paths that are on the stack or have been taken off it. */
  ghost predicate Searching<N(!new)>(edges: Edges<N>, root: N, done: set<seq<N>>, stack: seq<seq<N>>,
                                     cycles: seq<seq<N>>) {
    && AreCycles(edges, cycles)
    && (forall p :: p in done + Members(stack) ==> IsSimplePath(edges, root, p))
    && [root] in done + Members(stack)
    && (forall p :: p in done ==> Expanded(edges, cycles, done + Members(stack), p))
  }

  // ----- a finished search has found every cycle it can reach -----

  lemma {:induction false} EveryPathIsDone<N(!new)>(edges: Edges<N>, root: N, done: set<seq<N>>, cycles: seq<seq<N>>,
                                                    p: seq<N>)
    requires Searching(edges, root, done, [], cycles) && IsSimplePath(edges, root, p)
    ensures p in done
    decreases |p|
  {
    hide AreCycles, Recorded;
    assert done + Members<N>([]) == done;
    if |p| == 1 {
      assert p == [root];
    } else {
      var q, child := p[..|p| - 1], p[|p| - 1];
      EveryPathIsDone(edges, root, done, cycles, q);
      assert p == q + [child] && child !in q;
      assert (q[|q| - 1], child) in edges;
      assert Expanded(edges, cycles, done + Members([]), q);
      assert Handled(cycles, done + Members([]), q, child);
    }
  }

  lemma ClosingEdgeIsRecorded<N(!new)>(edges: Edges<N>, root: N, done: set<seq<N>>, cycles: seq<seq<N>>, p: seq<N>,
                                       i: nat)
    requires Searching(edges, root, done, [], cycles) && IsSimplePath(edges, root, p)
    requires i < |p| && (p[|p| - 1], p[i]) in edges
    ensures Recorded(cycles, p[i..])
  {
    EveryPathIsDone(edges, root, done, cycles, p);
    assert Handled(cycles, done + Members([]), p, p[i]);
    assert IndexOf(p, p[i]) == i;
  }

  ghost predicate Reaches<N(!new)>(edges: Edges<N>, from: N, x: N) {
    exists w :: IsWalkBetween(edges, from, x, w)
  }

  ghost predicate IsWalkBetween<N>(edges: Edges<N>, from: N, x: N, w: seq<N>) {
    |w| > 0 && IsWalk(edges, w) && w[0] == from && w[|w| - 1] == x
  }

  /** A walk to a cycle can be cut down to a simple path that meets the cycle only at its end. */
  lemma {:induction false} FirstMeeting<N>(edges: Edges<N>, root: N, c: seq<N>, w: seq<N>) returns (p: seq<N>)
    requires |w| > 0 && IsWalkBetween(edges, root, w[|w| - 1], w) && w[|w| - 1] in c
    ensures IsSimplePath(edges, root, p) && p[|p| - 1] in c
    ensures forall i :: 0 <= i < |p| - 1 ==> p[i] !in c
    decreases |w|
  {
    if i :| 0 <= i < |w| - 1 && w[i] in c {
      p := FirstMeeting(edges, root, c, w[..i + 1]);
    } else if i, j :| 0 <= i < j < |w| && w[i] == w[j] {
      var shorter := w[..i] + w[j..];
      assert shorter[|shorter| - 1] == w[|w| - 1];
      forall k | 0 <= k < |shorter| - 1
        ensures (shorter[k], shorter[k + 1]) in edges
      {
        if k < i - 1 {
          assert (w[k], w[k + 1]) in edges;
        } else if k == i - 1 {
          assert (w[k], w[k + 1]) in edges;
        } else {
          assert (w[j + k - i], w[j + k - i + 1]) in edges;
        }
      }
      p := FirstMeeting(edges, root, c, shorter);
    } else {
      p := w;
    }
  }

  lemma {:induction false} RotatedCycle<N>(edges: Edges<N>, c: seq<N>, k: nat)
    requires IsElementaryCycle(edges, c) && k < |c|
    ensures IsElementaryCycle(edges, Rotate(c, k))
  {
    var d := Rotate(c, k);
    forall i | 0 <= i < |d| - 1
      ensures (d[i], d[i + 1]) in edges
    {
      if i + k < |c| - 1 {
        assert (c[i + k], c[i + k + 1]) in edges;
      } else if i + k == |c| - 1 {
        assert (c[|c| - 1], c[0]) in edges;
      } else {
        assert (c[i + k - |c|], c[i + k - |c| + 1]) in edges;
      }
    }
    if k == 0 {
    } else {
      assert (c[k - 1], c[k]) in edges;
    }
  }

  lemma RecordedUpToRotation<N>(cycles: seq<seq<N>>, c: seq<N>, d: seq<N>)
    requires Recorded(cycles, d) && IsRotation(d, c)
    ensures Recorded(cycles, c)
  {
    var i :| 0 <= i < |cycles| && IsRotation(cycles[i], d);
    RotationIsTransitive(cycles[i], d, c);
  }

  /** The path p to the cycle d followed by the rest of d is simple, and d's last edge closes it. */
  lemma PathAroundCycle<N>(edges: Edges<N>, root: N, p: seq<N>, d: seq<N>)
    requires IsSimplePath(edges, root, p) && IsElementaryCycle(edges, d) && p[|p| - 1] == d[0]
    requires forall i :: 0 <= i < |p| - 1 ==> p[i] !in d
    ensures var q := p + d[1..];
            && IsSimplePath(edges, root, q)
            && q[|p| - 1..] == d && (q[|q| - 1], q[|p| - 1]) in edges
  {
    var q := p + d[1..];
    var m := |p| - 1;
    assert forall i :: m <= i < |q| ==> q[i] == d[i - m];
    forall i | 0 <= i < |q| - 1
      ensures (q[i], q[i + 1]) in edges
    {
      if i < m {
        assert (p[i], p[i + 1]) in edges;
      } else {
        assert (d[i - m], d[i - m + 1]) in edges;
      }
    }
    forall i, j | 0 <= i < j < |q|
      ensures q[i] != q[j]
    {
      if j < |p| {
      } else if i < m {
        assert p[i] !in d && q[j] == d[j - m];
      } else {
        assert q[i] == d[i - m] && q[j] == d[j - m];
      }
    }
  }

  /** The cycle rotated to begin where p ends. */
  lemma CycleFrom<N>(edges: Edges<N>, root: N, c: seq<N>, p: seq<N>) returns (d: seq<N>)
    requires IsElementaryCycle(edges, c) && IsSimplePath(edges, root, p) && p[|p| - 1] in c
    requires forall i :: 0 <= i < |p| - 1 ==> p[i] !in c
    ensures IsElementaryCycle(edges, d) && d != [] && d[0] == p[|p| - 1] && IsRotation(d, c)
    ensures |p| > 0 && forall i :: 0 <= i < |p| - 1 ==> p[i] !in d
  {
    hide IsWalk, Distinct;
    var k :| 0 <= k < |c| && c[k] == p[|p| - 1];
    d := Rotate(c, k);
    RotatedCycle(edges, c, k);
    assert IsRotation(c, d);
    RotationIsSymmetric(c, d);
    assert forall x :: x in d ==> x in c;
  }

  /** Whatever root reaches a cycle, the finished search from it has recorded that cycle. */
  lemma ReachableCycleIsRecorded<N(!new)>(edges: Edges<N>, root: N, done: set<seq<N>>, cycles: seq<seq<N>>,
                                          c: seq<N>, i: nat)
    requires Searching(edges, root, done, [], cycles)
    requires IsElementaryCycle(edges, c) && i < |c| && Reaches(edges, root, c[i])
    ensures Recorded(cycles, c)
  {
    hide IsElementaryCycle, Searching, Recorded, IsSimplePath, IsRotation;
    var w :| IsWalkBetween(edges, root, c[i], w);
    var p := FirstMeeting(edges, root, c, w);
    var d := CycleFrom(edges, root, c, p);
    PathAroundCycle(edges, root, p, d);
    ClosingEdgeIsRecorded(edges, root, done, cycles, p + d[1..], |p| - 1);
    RecordedUpToRotation(cycles, c, d);
  }

  // ----- the weight of the stack -----

  function Pow(b: nat, e: nat): nat {
    if e == 0 then 1 else b * Pow(b, e - 1)
  }

  /** A path of length l among n nodes weighs b^(n - l): more than the b - 1 paths it may turn into. */
  ghost function Weight<N>(stack: seq<seq<N>>, b: nat, n: nat): nat {
    if stack == [] then 0 else
      var last := |stack| - 1;
      Weight(stack[..last], b, n) + if |stack[last]| <= n then Pow(b, n - |stack[last]|) else 0
  }

  /** What one extension of a path of length l weighs. */
  ghost function ChildWeight(b: nat, n: nat, l: nat): nat {
    if l < n then Pow(b, n - l - 1) else 0
  }

  lemma {:induction false} PowIsPositive(b: nat, e: nat)
    requires b > 0
    ensures Pow(b, e) > 0
  {
    if e == 0 {
    } else {
      PowIsPositive(b, e - 1);
      assert b * Pow(b, e - 1) >= 1;
    }
  }

  lemma WeightPush<N>(stack: seq<seq<N>>, p: seq<N>, b: nat, n: nat)
    ensures Weight(stack + [p], b, n) == Weight(stack, b, n) + if |p| <= n then Pow(b, n - |p|) else 0
  {
    assert (stack + [p])[..|stack|] == stack;
  }

  /** Replacing a path by fewer than b of its extensions lowers the weight. */
  lemma WeightDrops(b: nat, n: nat, l: nat, kids: nat)
    requires kids < b && l <= n
    ensures kids * ChildWeight(b, n, l) < Pow(b, n - l)
  {
    PowIsPositive(b, n - l);
    if l < n {
      var unit := Pow(b, n - l - 1);
      PowIsPositive(b, n - l - 1);
      assert kids * unit < b * unit;
    }
  }

  lemma {:induction false} KidsAreBounded<N>(children: Children<N>, keys: set<N>) returns (b: nat)
    requires keys <= children.Keys
    ensures forall p :: p in keys ==> |children[p]| < b
    decreases keys
  {
    if keys == {} {
      b := 0;
    } else {
      var p :| p in keys;
      var c := KidsAreBounded(children, keys - {p});
      b := if |children[p]| < c then c else |children[p]| + 1;
    }
  }

  lemma SimplePathsAreShort<N>(children: Children<N>, root: N, p: seq<N>)
    requires root in NodesIn(children) && IsSimplePath(EdgesIn(children), root, p)
    ensures |p| <= |NodesIn(children)|
  {
    forall i | 0 <= i < |p|
      ensures p[i] in NodesIn(children)
    {
      if i > 0 {
        assert (p[i - 1], p[i]) in EdgesIn(children);
      }
    }
    DistinctFitsIn(p, NodesIn(children));
  }

  // ----- expanding one path -----

  /** The first j edges out of path have been handled; path itself is already off the stack. */
  ghost predicate Expanding<N(!new)>(edges: Edges<N>, root: N, done: set<seq<N>>, path: seq<N>, kids: seq<N>, j: nat,
                                     stack: seq<seq<N>>, cycles: seq<seq<N>>)
    requires j <= |kids|
  {
    var known := done + {path} + Members(stack);
    && AreCycles(edges, cycles)
    && (forall p :: p in known ==> IsSimplePath(edges, root, p))
    && [root] in known
    && (forall p :: p in done ==> Expanded(edges, cycles, known, p))
    && (forall i :: 0 <= i < j ==> Handled(cycles, known, path, kids[i]))
  }

  lemma StillHandled<N>(cycles: seq<seq<N>>, more: seq<seq<N>>, known: set<seq<N>>, known': set<seq<N>>, p: seq<N>,
                        child: N)
    requires cycles <= more && known <= known' && Handled(cycles, known, p, child)
    ensures Handled(more, known', p, child)
  {
    if child in p {
      var c := p[IndexOf(p, child)..];
      var i :| 0 <= i < |cycles| && IsRotation(cycles[i], c);
      assert IsRotation(more[i], c);
    }
  }

  lemma StillExpanded<N(!new)>(edges: Edges<N>, cycles: seq<seq<N>>, more: seq<seq<N>>, known: set<seq<N>>,
                               known': set<seq<N>>, p: seq<N>)
    requires cycles <= more && known <= known' && Expanded(edges, cycles, known, p)
    ensures Expanded(edges, more, known', p)
  {
    hide Handled;
    forall child | (p[|p| - 1], child) in edges
      ensures Handled(more, known', p, child)
    {
      StillHandled(cycles, more, known, known', p, child);
    }
  }

  lemma MembersOfPush<N>(stack: seq<seq<N>>, p: seq<N>)
    ensures Members(stack + [p]) == Members(stack) + {p}
  {
    var more := stack + [p];
    assert more[|stack|] == p;
    forall q | q in Members(stack)
      ensures q in Members(more)
    {
      var i :| 0 <= i < |stack| && stack[i] == q;
      assert more[i] == q;
    }
  }

  /** One more edge of path is handled by recording a cycle or pushing a longer path. */
  lemma OneMoreHandled<N(!new)>(edges: Edges<N>, root: N, done: set<seq<N>>, path: seq<N>, kids: seq<N>, j: nat,
                                stack: seq<seq<N>>, cycles: seq<seq<N>>, stack': seq<seq<N>>, cycles': seq<seq<N>>)
    requires j < |kids| && Expanding(edges, root, done, path, kids, j, stack, cycles)
    requires cycles <= cycles' && AreCycles(edges, cycles')
    requires Members(stack) <= Members(stack')
    requires forall p :: p in Members(stack') - Members(stack) ==> IsSimplePath(edges, root, p)
    requires Handled(cycles', done + {path} + Members(stack'), path, kids[j])
    ensures Expanding(edges, root, done, path, kids, j + 1, stack', cycles')
  {
    hide Handled, Expanded, IsSimplePath, AreCycles, Members;
    var known, known' := done + {path} + Members(stack), done + {path} + Members(stack');
    forall p | p in done
      ensures Expanded(edges, cycles', known', p)
    {
      StillExpanded(edges, cycles, cycles', known, known', p);
    }
    forall i | 0 <= i < j
      ensures Handled(cycles', known', path, kids[i])
    {
      StillHandled(cycles, cycles', known, known', path, kids[i]);
    }
    forall p | p in known'
      ensures IsSimplePath(edges, root, p)
    {
      assert p in known || p in Members(stack') - Members(stack);
    }
  }

  /** The suffix of a simple path from the node that its last edge leads back to. */
  lemma ClosedSuffix<N>(edges: Edges<N>, root: N, p: seq<N>, child: N)
    requires IsSimplePath(edges, root, p) && child in p && (p[|p| - 1], child) in edges
    ensures IsElementaryCycle(edges, p[IndexOf(p, child)..])
  {
    var k := IndexOf(p, child);
    var c := p[k..];
    forall i | 0 <= i < |c| - 1
      ensures (c[i], c[i + 1]) in edges
    {
      assert (p[k + i], p[k + i + 1]) in edges;
    }
  }

  lemma ExtendedPath<N>(edges: Edges<N>, root: N, p: seq<N>, child: N)
    requires IsSimplePath(edges, root, p) && child !in p && (p[|p| - 1], child) in edges
    ensures IsSimplePath(edges, root, p + [child])
  {
    var q := p + [child];
    forall i | 0 <= i < |q| - 1
      ensures (q[i], q[i + 1]) in edges
    {
      if i < |p| - 1 {
        assert (p[i], p[i + 1]) in edges;
      }
    }
  }

  lemma NewCycle<N>(edges: Edges<N>, cycles: seq<seq<N>>, cycle: seq<N>)
    requires AreCycles(edges, cycles) && IsElementaryCycle(edges, cycle) && !Recorded(cycles, cycle)
    ensures AreCycles(edges, cycles + [cycle]) && Recorded(cycles + [cycle], cycle)
  {
    hide IsElementaryCycle, IsRotation;
    RotationIsReflexive(cycle);
    assert (cycles + [cycle])[|cycles|] == cycle;
  }

  method IsDuplicate<N(==)>(cycles: seq<seq<N>>, cycle: seq<N>) returns (isDup: bool)
    requires cycle != []
    ensures isDup <==> Recorded(cycles, cycle)
  {
    for i := 0 to |cycles|
      invariant forall k :: 0 <= k < i ==> !IsRotation(cycles[k], cycle)
    {
      var rotated := IsRotated(cycles[i], cycle);
      if rotated.value {
        return true;
      }
    }
    return false;
  }

  lemma StackOfPathsReaches<N(!new)>(edges: Edges<N>, root: N, path: seq<N>, child: N)
    requires IsSimplePath(edges, root, path + [child])
    ensures Reaches(edges, root, child)
  {
    assert IsWalkBetween(edges, root, child, path + [child]);
  }

  /** A path that turns back on itself: its cycle is recorded unless a rotation already is. */
  method CloseCycle<N(==, !new)>(path: seq<N>, child: N, cycles0: seq<seq<N>>, ghost edges: Edges<N>, ghost root: N)
    returns (cycles: seq<seq<N>>)
    requires IsSimplePath(edges, root, path) && child in path && (path[|path| - 1], child) in edges
    requires AreCycles(edges, cycles0)
    ensures cycles0 <= cycles && AreCycles(edges, cycles) && Recorded(cycles, path[IndexOf(path, child)..])
  {
    hide Recorded, AreCycles, IsElementaryCycle;
    var cycle := path[IndexOf(path, child)..];
    ClosedSuffix(edges, root, path, child);
    var isDup := IsDuplicate(cycles0, cycle);
    cycles := cycles0;
    if !isDup {
      NewCycle(edges, cycles, cycle);
      cycles := cycles + [cycle];
    }
  }

  ghost predicate Visited<N(!new)>(edges: Edges<N>, roots: set<N>, visited: set<N>) {
    forall x :: x in visited ==> ReachedFrom(edges, roots, x)
  }

  ghost predicate ReachedFrom<N(!new)>(edges: Edges<N>, roots: set<N>, x: N) {
    exists r :: r in roots && Reaches(edges, r, x)
  }

  lemma VisitOne<N(!new)>(edges: Edges<N>, roots: set<N>, visited: set<N>, root: N, path: seq<N>, child: N)
    requires Visited(edges, roots, visited) && root in roots && IsSimplePath(edges, root, path + [child])
    ensures Visited(edges, roots, visited + {child})
  {
    hide Reaches;
    StackOfPathsReaches(edges, root, path, child);
    assert ReachedFrom(edges, roots, child);
  }

  /** Follows every edge out of one path taken off the stack. */
  method ExpandPath<N(==, !new)>(path: seq<N>, kids: seq<N>, stack0: seq<seq<N>>, cycles0: seq<seq<N>>,
                                 visited0: set<N>,
                                 ghost edges: Edges<N>, ghost root: N, ghost roots: set<N>, ghost done: set<seq<N>>,
                                 ghost b: nat, ghost n: nat)
    returns (stack: seq<seq<N>>, cycles: seq<seq<N>>, visited: set<N>)
    requires Expanding(edges, root, done, path, kids, 0, stack0, cycles0)
    requires IsSimplePath(edges, root, path) && forall child :: child in kids ==> (path[|path| - 1], child) in edges
    requires root in roots && Visited(edges, roots, visited0)
    ensures Expanding(edges, root, done, path, kids, |kids|, stack, cycles)
    ensures cycles0 <= cycles && visited0 <= visited && Visited(edges, roots, visited)
    ensures Weight(stack, b, n) <= Weight(stack0, b, n) + |kids| * ChildWeight(b, n, |path|)
  {
    hide *;
    stack, cycles, visited := stack0, cycles0, visited0;
    for j := 0 to |kids|
      invariant Expanding(edges, root, done, path, kids, j, stack, cycles)
      invariant cycles0 <= cycles && visited0 <= visited && Visited(edges, roots, visited)
      invariant Weight(stack, b, n) <= Weight(stack0, b, n) + j * ChildWeight(b, n, |path|)
    {
      var child := kids[j];
      assert child in kids;
      ghost var oldStack, oldCycles := stack, cycles;
      StillCycles(edges, root, done, path, kids, j, stack, cycles);
      if child in path {
        cycles := CloseCycle(path, child, cycles, edges, root);
        HandledByCycle(cycles, done + {path} + Members(stack), path, child);
      } else {
        stack := stack + [path + [child]];
        ExtendedPath(edges, root, path, child);
        MembersOfPush(oldStack, path + [child]);
        HandledByPath(cycles, done + {path} + Members(stack), path, child);
        WeightPush(oldStack, path + [child], b, n);
        WeightOfChild(b, n, path, child);
        VisitOne(edges, roots, visited, root, path, child);
        visited := visited + {child};
      }
      OneMoreHandled(edges, root, done, path, kids, j, oldStack, oldCycles, stack, cycles);
      assert (j + 1) * ChildWeight(b, n, |path|) == j * ChildWeight(b, n, |path|) + ChildWeight(b, n, |path|);
    }
  }

  lemma StillCycles<N(!new)>(edges: Edges<N>, root: N, done: set<seq<N>>, path: seq<N>, kids: seq<N>, j: nat,
                             stack: seq<seq<N>>, cycles: seq<seq<N>>)
    requires j <= |kids| && Expanding(edges, root, done, path, kids, j, stack, cycles)
    ensures AreCycles(edges, cycles)
  {
  }

  lemma HandledByCycle<N>(cycles: seq<seq<N>>, known: set<seq<N>>, path: seq<N>, child: N)
    requires child in path && Recorded(cycles, path[IndexOf(path, child)..])
    ensures Handled(cycles, known, path, child)
  {
  }

  lemma HandledByPath<N>(cycles: seq<seq<N>>, known: set<seq<N>>, path: seq<N>, child: N)
    requires child !in path && path + [child] in known
    ensures Handled(cycles, known, path, child)
  {
  }

  lemma WeightOfChild<N>(b: nat, n: nat, path: seq<N>, child: N)
    ensures ChildWeight(b, n, |path|) == if |path + [child]| <= n then Pow(b, n - |path + [child]|) else 0
  {
  }

  // ----- searching from one root -----

  lemma StartOfSearch<N(!new)>(edges: Edges<N>, root: N, cycles: seq<seq<N>>)
    requires AreCycles(edges, cycles)
    ensures Searching(edges, root, {}, [[root]], cycles)
  {
    assert [[root]][0] == [root];
    assert forall p :: p in Members([[root]]) ==> p == [root];
  }

  /** Taking the last path off the stack starts its expansion. */
  lemma PopPath<N(!new)>(edges: Edges<N>, root: N, done: set<seq<N>>, stack: seq<seq<N>>, cycles: seq<seq<N>>,
                         kids: seq<N>)
    requires stack != [] && Searching(edges, root, done, stack, cycles)
    ensures var path := stack[|stack| - 1];
            IsSimplePath(edges, root, path) && Expanding(edges, root, done, path, kids, 0, stack[..|stack| - 1], cycles)
  {
    hide Expanded, IsSimplePath, AreCycles, Handled;
    var path, rest := stack[|stack| - 1], stack[..|stack| - 1];
    assert stack == rest + [path];
    MembersOfPush(rest, path);
    assert done + Members(stack) == done + {path} + Members(rest);
  }

  /** A path all of whose edges have been handled counts as expanded. */
  lemma FinishPath<N(!new)>(edges: Edges<N>, root: N, done: set<seq<N>>, path: seq<N>, kids: seq<N>,
                            stack: seq<seq<N>>, cycles: seq<seq<N>>)
    requires IsSimplePath(edges, root, path) && Expanding(edges, root, done, path, kids, |kids|, stack, cycles)
    requires forall child :: (path[|path| - 1], child) in edges ==> child in kids
    ensures Searching(edges, root, done + {path}, stack, cycles)
  {
    hide AreCycles, Handled, IsWalk, Distinct;
    var known := done + {path} + Members(stack);
    forall child | (path[|path| - 1], child) in edges
      ensures Handled(cycles, known, path, child)
    {
      assert child in kids;
      var i :| 0 <= i < |kids| && kids[i] == child;
    }
    assert Expanded(edges, cycles, known, path);
  }

  lemma KidsAreEdges<N(!new)>(children: Children<N>, p: N, kids: seq<N>)
    requires kids == if p in children then children[p] else []
    ensures forall child :: (p, child) in EdgesIn(children) <==> child in kids
  {
    forall child | child in kids
      ensures (p, child) in EdgesIn(children)
    {
      var i :| 0 <= i < |kids| && kids[i] == child;
      assert (p, children[p][i]) in EdgesIn(children);
    }
  }

  /** The cycles that root can reach are all recorded. */
  ghost predicate CompleteFrom<N(!new)>(edges: Edges<N>, root: N, cycles: seq<seq<N>>) {
    forall c: seq<N>, i ::
      IsElementaryCycle(edges, c) && 0 <= i < |c| && Reaches(edges, root, c[i]) ==> Recorded(cycles, c)
  }

  lemma FinishSearch<N(!new)>(edges: Edges<N>, root: N, done: set<seq<N>>, cycles: seq<seq<N>>)
    requires Searching(edges, root, done, [], cycles)
    ensures AreCycles(edges, cycles) && CompleteFrom(edges, root, cycles)
  {
    hide IsElementaryCycle, Reaches, Recorded, Expanded;
    forall c: seq<N>, i | IsElementaryCycle(edges, c) && 0 <= i < |c| && Reaches(edges, root, c[i])
      ensures Recorded(cycles, c)
    {
      ReachableCycleIsRecorded(edges, root, done, cycles, c, i);
    }
  }

  lemma WeightPop<N>(children: Children<N>, root: N, stack: seq<seq<N>>, b: nat, kids: nat)
    requires stack != [] && root in NodesIn(children) && kids < b
    requires IsSimplePath(EdgesIn(children), root, stack[|stack| - 1])
    ensures var n, path, rest := |NodesIn(children)|, stack[|stack| - 1], stack[..|stack| - 1];
            Weight(rest, b, n) + kids * ChildWeight(b, n, |path|) < Weight(stack, b, n)
  {
    var path, rest := stack[|stack| - 1], stack[..|stack| - 1];
    assert stack == rest + [path];
    SimplePathsAreShort(children, root, path);
    WeightPush(rest, path, b, |NodesIn(children)|);
    WeightDrops(b, |NodesIn(children)|, |path|, kids);
  }

  method SearchFrom<N(==, !new)>(children: Children<N>, root: N, cycles0: seq<seq<N>>, visited0: set<N>,
                                 ghost roots: set<N>, ghost b: nat)
    returns (cycles: seq<seq<N>>, visited: set<N>)
    requires root in NodesIn(children) && forall p :: p in children ==> |children[p]| < b
    requires AreCycles(EdgesIn(children), cycles0) && root in roots && Visited(EdgesIn(children), roots, visited0)
    requires b > 0
    ensures cycles0 <= cycles && AreCycles(EdgesIn(children), cycles) && CompleteFrom(EdgesIn(children), root, cycles)
    ensures visited0 <= visited && Visited(EdgesIn(children), roots, visited)
  {
    hide *;
    ghost var edges, n, done := EdgesIn(children), |NodesIn(children)|, {};
    cycles, visited := cycles0, visited0;
    var paths := [[root]];
    StartOfSearch(edges, root, cycles);
    while paths != []
      invariant Searching(edges, root, done, paths, cycles)
      invariant cycles0 <= cycles && visited0 <= visited && Visited(edges, roots, visited)
      decreases Weight(paths, b, n)
    {
      var path := paths[|paths| - 1];
      PathsAreNonempty(edges, root, done, paths, cycles);
      var parent := path[|path| - 1];
      // A parent without an entry has no children: the KeyError is caught and the path dropped.
      var kids := if parent in children then children[parent] else [];
      PopPath(edges, root, done, paths, cycles, kids);
      KidsAreEdges(children, parent, kids);
      WeightPop(children, root, paths, b, |kids|);
      paths := paths[..|paths| - 1];
      paths, cycles, visited := ExpandPath(path, kids, paths, cycles, visited, edges, root, roots, done, b, n);
      FinishPath(edges, root, done, path, kids, paths, cycles);
      done := done + {path};
    }
    FinishSearch(edges, root, done, cycles);
  }

  lemma PathsAreNonempty<N(!new)>(edges: Edges<N>, root: N, done: set<seq<N>>, stack: seq<seq<N>>, cycles: seq<seq<N>>)
    requires stack != [] && Searching(edges, root, done, stack, cycles)
    ensures |stack[|stack| - 1]| > 0
  {
    assert stack[|stack| - 1] in Members(stack);
  }

  // ----- all roots -----

  ghost predicate CompleteFromAll<N(!new)>(edges: Edges<N>, searched: set<N>, cycles: seq<seq<N>>) {
    forall r :: r in searched ==> CompleteFrom(edges, r, cycles)
  }

  lemma StillComplete<N(!new)>(edges: Edges<N>, searched: set<N>, root: N, cycles: seq<seq<N>>, more: seq<seq<N>>)
    requires CompleteFromAll(edges, searched, cycles) && cycles <= more && CompleteFrom(edges, root, more)
    ensures CompleteFromAll(edges, searched + {root}, more)
  {
    hide IsElementaryCycle, Reaches;
    forall r, c: seq<N>, i | r in searched && IsElementaryCycle(edges, c) && 0 <= i < |c| && Reaches(edges, r, c[i])
      ensures Recorded(more, c)
    {
      assert Recorded(cycles, c);
      var k :| 0 <= k < |cycles| && IsRotation(cycles[k], c);
      assert IsRotation(more[k], c);
    }
  }

  lemma VisitedFromMore<N(!new)>(edges: Edges<N>, roots: set<N>, root: N, visited: set<N>)
    requires Visited(edges, roots, visited)
    ensures Visited(edges, roots + {root}, visited)
  {
    hide Reaches;
    forall x | x in visited
      ensures ReachedFrom(edges, roots + {root}, x)
    {
      assert ReachedFrom(edges, roots, x);
      var r :| r in roots && Reaches(edges, r, x);
      assert r in roots + {root};
    }
  }

  /** Skipping the visited roots loses nothing: they are reachable from a searched one. */
  lemma NothingIsLost<N(!new)>(children: Children<N>, searched: set<N>, visited: set<N>, cycles: seq<seq<N>>, c: seq<N>)
    requires CompleteFromAll(EdgesIn(children), searched, cycles) && Visited(EdgesIn(children), searched, visited)
    requires forall p :: p in children ==> p in searched || p in visited
    requires IsElementaryCycle(EdgesIn(children), c)
    ensures Recorded(cycles, c)
  {
    hide Recorded, Distinct;
    var edges := EdgesIn(children);
    var next := if |c| == 1 then 0 else 1;
    assert (c[0], c[next]) in edges;
    if c[0] in searched {
      assert IsWalkBetween(edges, c[0], c[0], [c[0]]);
      assert CompleteFrom(edges, c[0], cycles);
    } else {
      assert ReachedFrom(edges, searched, c[0]);
      var r :| r in searched && Reaches(edges, r, c[0]);
      assert CompleteFrom(edges, r, cycles);
    }
  }

  /** Every elementary cycle of the graph, once up to rotation, whatever order the keys come in. */
  method FindCycles<N(==, !new)>(parentChildren: Children<N>) returns (cycles: seq<seq<N>>)
    ensures forall i :: 0 <= i < |cycles| ==> IsElementaryCycle(EdgesIn(parentChildren), cycles[i])
    ensures forall i, j :: 0 <= i < j < |cycles| ==> !IsRotation(cycles[i], cycles[j])
    ensures forall c :: IsElementaryCycle(EdgesIn(parentChildren), c) ==> Recorded(cycles, c)
  {
    hide CompleteFromAll, CompleteFrom, Visited, IsElementaryCycle, IsRotation, Recorded, EdgesIn;
    cycles := [];
    ghost var edges := EdgesIn(parentChildren);
    ghost var b := KidsAreBounded(parentChildren, parentChildren.Keys);
    var visited: set<N>, rest := {}, parentChildren.Keys;
    ghost var searched: set<N> := {};
    NothingSearched(edges);
    while rest != {}
      invariant rest <= parentChildren.Keys && AreCycles(edges, cycles)
      invariant CompleteFromAll(edges, searched, cycles) && Visited(edges, searched, visited)
      invariant forall p :: p in parentChildren ==> p in rest || p in searched || p in visited
    {
      var parent :| parent in rest;
      rest := rest - {parent};
      if parent in visited {
        continue;
      }
      ghost var before := cycles;
      VisitedFromMore(edges, searched, parent, visited);
      cycles, visited := SearchFrom(parentChildren, parent, cycles, visited, searched + {parent}, b + 1);
      StillComplete(edges, searched, parent, before, cycles);
      searched := searched + {parent};
    }
    forall c | IsElementaryCycle(edges, c)
      ensures Recorded(cycles, c)
    {
      NothingIsLost(parentChildren, searched, visited, cycles, c);
    }
  }

  lemma NothingSearched<N(!new)>(edges: Edges<N>)
    ensures AreCycles(edges, []) && CompleteFromAll(edges, {}, []) && Visited(edges, {}, {})
  {
  }

  /** No cycle is yielded exactly when the graph is acyclic. */
  lemma NoneFoundIffAcyclic<N(!new)>(children: Children<N>, cycles: seq<seq<N>>)
    requires AreCycles(EdgesIn(children), cycles)
    requires forall c :: IsElementaryCycle(EdgesIn(children), c) ==> Recorded(cycles, c)
    ensures cycles == [] <==> Acyclic(EdgesIn(children))
  {
    hide EdgesIn, IsElementaryCycle;
    AcyclicIffNoElementaryCycle(EdgesIn(children));
    if cycles != [] {
      assert IsElementaryCycle(EdgesIn(children), cycles[0]);
    }
  }
}
