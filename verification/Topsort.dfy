/** The two dependency sorts of bindings/python/topsort.py: the list that grows while it is
    walked, and the level-by-level generator. */
module Topsort {
  import opened Graphs

  type Pairs<!N> = seq<(N, N)>

  datatype SortResult<!N> =
    | Sorted(answer: seq<N>)
    | CycleError(answer: seq<N>, numParents: map<N, nat>, children: map<N, seq<N>>)

  datatype LevelsResult<!N> =
    | Levels(levels: seq<seq<N>>)
    | LevelsCycleError(levels: seq<seq<N>>, numParents: map<N, nat>, children: map<N, seq<N>>)

  // ----- meaning of a pair list -----

  ghost function EdgesOf<N>(pairs: Pairs<N>): Edges<N> {
    set i | 0 <= i < |pairs| :: pairs[i]
  }

  ghost function Elements<N>(pairs: Pairs<N>): set<N> {
    (set i | 0 <= i < |pairs| :: pairs[i].0) + (set i | 0 <= i < |pairs| :: pairs[i].1)
  }

  /** How many pairs make x a child of something outside done. */
  ghost function Waiting<N>(pairs: Pairs<N>, done: set<N>, x: N): nat {
    if pairs == [] then 0 else
      var last := |pairs| - 1;
      Waiting(pairs[..last], done, x) + if pairs[last].1 == x && pairs[last].0 !in done then 1 else 0
  }

  ghost function ChildrenOf<N>(pairs: Pairs<N>, p: N): seq<N> {
    if pairs == [] then [] else
      var last := |pairs| - 1;
      ChildrenOf(pairs[..last], p) + if pairs[last].0 == p then [pairs[last].1] else []
  }

  function Kids<N(==)>(children: map<N, seq<N>>, p: N): seq<N> {
    if p in children then children[p] else []
  }

  /** The two dictionaries describe the pairs whose parent is outside done. */
  ghost predicate Represents<N(!new)>(nodes: set<N>, pairs: Pairs<N>, done: set<N>,
                                      numParents: map<N, nat>, children: map<N, seq<N>>)
  {
    && Elements(pairs) <= nodes
    && numParents.Keys == nodes - done
    && (forall x :: x in numParents ==> numParents[x] == Waiting(pairs, done, x))
    && (forall p :: p in nodes - done ==> multiset(Kids(children, p)) == multiset(ChildrenOf(pairs, p)))
  }

  // ----- counting lemmas -----

  lemma {:induction false} WaitingZero<N>(pairs: Pairs<N>, done: set<N>, x: N)
    ensures Waiting(pairs, done, x) == 0 <==> ParentsIn(EdgesOf(pairs), x, done)
  {
    if pairs == [] {
    } else {
      var last := |pairs| - 1;
      WaitingZero(pairs[..last], done, x);
      assert EdgesOf(pairs) == EdgesOf(pairs[..last]) + {pairs[last]};
    }
  }

  lemma {:induction false} WaitingAfter<N>(pairs: Pairs<N>, done: set<N>, p: N, x: N)
    requires p !in done
    ensures Waiting(pairs, done, x) == Waiting(pairs, done + {p}, x) + multiset(ChildrenOf(pairs, p))[x]
  {
    if pairs == [] {
    } else {
      WaitingAfter(pairs[..|pairs| - 1], done, p, x);
    }
  }

  lemma {:induction false} ChildrenAreEdges<N>(pairs: Pairs<N>, p: N, x: N)
    ensures x in ChildrenOf(pairs, p) <==> (p, x) in EdgesOf(pairs)
    ensures (p, x) in EdgesOf(pairs) ==> x in Elements(pairs)
  {
    if pairs == [] {
    } else {
      var last := |pairs| - 1;
      ChildrenAreEdges(pairs[..last], p, x);
      assert EdgesOf(pairs) == EdgesOf(pairs[..last]) + {pairs[last]};
    }
  }

  lemma EdgesAreWithinElements<N>(pairs: Pairs<N>)
    ensures WithinNodes(Elements(pairs), EdgesOf(pairs))
  {
  }

  // ----- building the dictionaries -----

  ghost predicate Counts<N(!new)>(pairs: Pairs<N>, numParents: map<N, nat>) {
    && numParents.Keys == Elements(pairs)
    && forall x :: x in numParents ==> numParents[x] == Waiting(pairs, {}, x)
  }

  /** The child dictionary with exactly the parents outside done in it. */
  ghost predicate ChildrenOutside<N(!new)>(pairs: Pairs<N>, done: set<N>, children: map<N, seq<N>>) {
    && (forall p :: p in children <==> p !in done && ChildrenOf(pairs, p) != [])
    && (forall p :: p in children ==> children[p] == ChildrenOf(pairs, p))
  }

  method BuildCounts<N(==, !new)>(pairs: Pairs<N>) returns (numParents: map<N, nat>, children: map<N, seq<N>>)
    ensures Represents(Elements(pairs), pairs, {}, numParents, children)
    ensures ChildrenOutside(pairs, {}, children)
  {
    hide *;
    numParents, children := map[], map[];
    NothingCounted<N>(pairs);
    for i := 0 to |pairs|
      invariant Counts(pairs[..i], numParents) && ChildrenOutside(pairs[..i], {}, children)
    {
      var (parent, child) := pairs[i];
      assert pairs[..i + 1] == pairs[..i] + [(parent, child)];
      CountOneMore(pairs[..i], parent, child, numParents);
      ChildOneMore(pairs[..i], parent, child, children);
      if parent !in numParents {
        numParents := numParents[parent := 0];
      }
      if child !in numParents {
        numParents := numParents[child := 0];
      }
      numParents := numParents[child := numParents[child] + 1];
      children := children[parent := Kids(children, parent) + [child]];
    }
    assert pairs[..|pairs|] == pairs;
    AllCounted(pairs, numParents, children);
  }

  lemma NothingCounted<N(!new)>(pairs: Pairs<N>)
    ensures Counts(pairs[..0], map[]) && ChildrenOutside(pairs[..0], {}, map[])
  {
  }

  /** One more pair, entered the way the sorts enter it: absent keys start from zero. */
  lemma CountOneMore<N(!new)>(pairs: Pairs<N>, parent: N, child: N, before: map<N, nat>)
    requires Counts(pairs, before)
    ensures var withParent := if parent in before then before else before[parent := 0];
            var withBoth := if child in withParent then withParent else withParent[child := 0];
            Counts(pairs + [(parent, child)], withBoth[child := withBoth[child] + 1])
  {
    var more := pairs + [(parent, child)];
    assert more[..|pairs|] == pairs;
    ElementsOfAppend(pairs, (parent, child));
    AbsentHaveNoParents(pairs);
    hide Elements;
  }

  lemma ChildOneMore<N(!new)>(pairs: Pairs<N>, parent: N, child: N, before: map<N, seq<N>>)
    requires ChildrenOutside(pairs, {}, before)
    ensures ChildrenOutside(pairs + [(parent, child)], {}, before[parent := Kids(before, parent) + [child]])
  {
    var more := pairs + [(parent, child)];
    assert more[..|pairs|] == pairs;
  }

  lemma AllCounted<N(!new)>(pairs: Pairs<N>, numParents: map<N, nat>, children: map<N, seq<N>>)
    requires Counts(pairs, numParents) && ChildrenOutside(pairs, {}, children)
    ensures Represents(Elements(pairs), pairs, {}, numParents, children)
  {
    hide Waiting, ChildrenOf, Elements;
  }

  lemma ElementsOfAppend<N>(pairs: Pairs<N>, e: (N, N))
    ensures Elements(pairs + [e]) == Elements(pairs) + {e.0, e.1}
  {
    var more := pairs + [e];
    assert more[|pairs|] == e;
    forall x | x in Elements(pairs)
      ensures x in Elements(more)
    {
      var i :| 0 <= i < |pairs| && (pairs[i].0 == x || pairs[i].1 == x);
      assert more[i] == pairs[i];
    }
  }

  lemma AbsentHaveNoParents<N(!new)>(pairs: Pairs<N>)
    ensures forall x :: x !in Elements(pairs) ==> Waiting(pairs, {}, x) == 0
  {
    forall x | x !in Elements(pairs)
      ensures Waiting(pairs, {}, x) == 0
    {
      WaitingZero(pairs, {}, x);
    }
  }

  /** The keys whose count is zero, in the arbitrary order in which a dictionary lists them. */
  method KeysAtZero<N(==)>(numParents: map<N, nat>) returns (zeros: seq<N>)
    ensures Distinct(zeros)
    ensures forall x :: x in zeros <==> x in numParents && numParents[x] == 0
  {
    zeros := [];
    var rest := numParents.Keys;
    while rest != {}
      invariant rest <= numParents.Keys && Distinct(zeros)
      invariant forall x :: x in zeros <==> x in numParents && numParents[x] == 0 && x !in rest
    {
      var x :| x in rest;
      rest := rest - {x};
      if numParents[x] == 0 {
        zeros := zeros + [x];
      }
    }
  }

  // ----- the list that grows while it is walked -----

  ghost function ToSet<N>(s: seq<N>): set<N> {
    set i | 0 <= i < |s| :: s[i]
  }

  lemma ToSetOfPrefix<N>(s: seq<N>, i: nat)
    requires i < |s|
    ensures ToSet(s[..i + 1]) == ToSet(s[..i]) + {s[i]}
    ensures Distinct(s) ==> s[i] !in ToSet(s[..i])
  {
    assert s[..i + 1] == s[..i] + [s[i]];
    assert (s[..i] + [s[i]])[i] == s[i];
    forall x | x in ToSet(s[..i])
      ensures x in ToSet(s[..i + 1])
    {
      var j :| 0 <= j < |s[..i]| && s[..i][j] == x;
      assert s[..i + 1][j] == x;
    }
  }

  /** ds[i] is the depth of s[i], and depths never go down along s. */
  ghost predicate DepthsOf<N>(nodes: set<N>, edges: Edges<N>, s: seq<N>, ds: seq<nat>) {
    && |ds| == |s|
    && (forall i :: 0 <= i < |s| ==> HasDepth(nodes, edges, s[i], ds[i]))
    && (forall i, j :: 0 <= i <= j < |ds| ==> ds[i] <= ds[j])
  }

  ghost predicate InDepthOrder<N>(nodes: set<N>, edges: Edges<N>, s: seq<N>) {
    exists ds :: DepthsOf(nodes, edges, s, ds)
  }

  ghost predicate IsReleasable<N>(nodes: set<N>, edges: Edges<N>, x: N) {
    exists k: nat :: x in Released(nodes, edges, k)
  }

  lemma ChildDepth<N>(nodes: set<N>, edges: Edges<N>, done: set<N>, d: nat, parent: N, child: N)
    requires HasDepth(nodes, edges, parent, d) && (parent, child) in edges && child in nodes
    requires ParentsIn(edges, child, done) && done <= Released(nodes, edges, d + 1)
    ensures HasDepth(nodes, edges, child, d + 1)
  {
    assert parent !in Released(nodes, edges, d);
    assert child !in Released(nodes, edges, d + 1);
  }

  lemma ShallowAreReleased<N>(nodes: set<N>, edges: Edges<N>, s: seq<N>, ds: seq<nat>, i: nat)
    requires DepthsOf(nodes, edges, s, ds) && i < |s|
    ensures ToSet(s[..i + 1]) <= Released(nodes, edges, ds[i] + 1)
  {
    forall j | 0 <= j <= i
      ensures s[j] in Released(nodes, edges, ds[i] + 1)
    {
      ReleasedGrows(nodes, edges, ds[j] + 1, ds[i] + 1);
    }
  }

  /** A set that takes in every node whose parents it holds contains all that is ever released. */
  lemma {:induction false} ReleasedStayIn<N(!new)>(nodes: set<N>, edges: Edges<N>, done: set<N>, k: nat)
    requires forall x :: x in nodes && ParentsIn(edges, x, done) ==> x in done
    ensures Released(nodes, edges, k) <= done
  {
    if k == 0 {
    } else {
      ReleasedStayIn(nodes, edges, done, k - 1);
    }
  }

  ghost predicate ParentsFirst<N>(edges: Edges<N>, s: seq<N>) {
    forall i, j :: 0 <= i < |s| && 0 <= j < |s| && (s[i], s[j]) in edges ==> i < j
  }

  /** In a list ordered by depth, parents come before their children. */
  lemma DepthOrderPutsParentsFirst<N>(nodes: set<N>, edges: Edges<N>, s: seq<N>)
    requires InDepthOrder(nodes, edges, s)
    ensures ParentsFirst(edges, s)
  {
    var ds :| DepthsOf(nodes, edges, s, ds);
    forall i, j | 0 <= i < |s| && 0 <= j < |s| && (s[i], s[j]) in edges
      ensures i < j
    {
      assert s[i] in Released(nodes, edges, ds[j]);
      if ds[j] <= ds[i] {
        ReleasedGrows(nodes, edges, ds[j], ds[i]);
      }
    }
  }

  /** When the growing list is exhausted it holds exactly the releasable nodes. */
  lemma ExhaustedList<N(!new)>(nodes: set<N>, edges: Edges<N>, answer: seq<N>, ds: seq<nat>) returns (stop: nat)
    requires DepthsOf(nodes, edges, answer, ds)
    requires forall x :: x in nodes && ParentsIn(edges, x, ToSet(answer)) ==> x in answer
    ensures ToSet(answer) == Released(nodes, edges, stop) == Released(nodes, edges, stop + 1)
    ensures forall x :: x in answer <==> IsReleasable(nodes, edges, x)
  {
    hide HasDepth;
    var done := ToSet(answer);
    stop := if answer == [] then 0 else ds[|ds| - 1] + 1;
    forall k: nat
      ensures Released(nodes, edges, k) <= done
    {
      ReleasedStayIn(nodes, edges, done, k);
    }
    if answer != [] {
      assert answer[..|answer| - 1 + 1] == answer;
      ShallowAreReleased(nodes, edges, answer, ds, |answer| - 1);
    }
    ReleasedGrows(nodes, edges, stop, stop + 1);
    forall x | x in answer
      ensures IsReleasable(nodes, edges, x)
    {
      assert x in done;
    }
  }

  /** What holds after i members of the answer have been walked: the dictionaries count only
      the unwalked parents, and the answer holds everything whose count has reached zero. */
  ghost predicate Walked<N(!new)>(pairs: Pairs<N>, answer: seq<N>, i: nat, numParents: map<N, nat>, ds: seq<nat>)
    requires i <= |answer|
  {
    var nodes, edges, done := Elements(pairs), EdgesOf(pairs), ToSet(answer[..i]);
    && Distinct(answer)
    && numParents.Keys == nodes - done
    && (forall x :: x in numParents ==> numParents[x] == Waiting(pairs, done, x))
    && (forall x :: x in answer ==> x in nodes && ParentsIn(edges, x, done))
    && (forall x :: x in numParents ==> (x in answer <==> numParents[x] == 0))
    && DepthsOf(nodes, edges, answer, ds)
    && (i < |answer| ==> forall j :: 0 <= j < |ds| ==> ds[j] <= ds[i] + 1)
  }

  lemma StartsWalked<N(!new)>(pairs: Pairs<N>, answer: seq<N>, numParents: map<N, nat>, children: map<N, seq<N>>)
    requires Distinct(answer) && Represents(Elements(pairs), pairs, {}, numParents, children)
    requires forall x :: x in answer <==> x in numParents && numParents[x] == 0
    requires ChildrenOutside(pairs, {}, children)
    ensures Walked(pairs, answer, 0, numParents, seq(|answer|, _ => 0))
    ensures ChildrenOutside(pairs, ToSet(answer[..0]), children)
  {
    hide HasDepth, ParentsIn, Waiting, EdgesOf, Elements, ChildrenOf, ChildrenOutside;
    assert answer[..0] == [] && ToSet(answer[..0]) == {};
    forall x | x in answer
      ensures ParentsIn(EdgesOf(pairs), x, {}) && HasDepth(Elements(pairs), EdgesOf(pairs), x, 0)
    {
      RootHasDepthZero(pairs, x);
    }
  }

  lemma RootHasDepthZero<N(!new)>(pairs: Pairs<N>, x: N)
    requires x in Elements(pairs) && Waiting(pairs, {}, x) == 0
    ensures ParentsIn(EdgesOf(pairs), x, {}) && HasDepth(Elements(pairs), EdgesOf(pairs), x, 0)
  {
    WaitingZero(pairs, {}, x);
  }

  /** Distinct nodes in depth order, none deeper than bound. */
  ghost predicate DepthBounded<N>(nodes: set<N>, edges: Edges<N>, s: seq<N>, ds: seq<nat>, bound: nat) {
    Distinct(s) && DepthsOf(nodes, edges, s, ds) && forall i :: 0 <= i < |ds| ==> ds[i] <= bound
  }

  lemma DepthBoundedGrows<N>(nodes: set<N>, edges: Edges<N>, s: seq<N>, ds: seq<nat>, bound: nat, x: N)
    requires DepthBounded(nodes, edges, s, ds, bound) && x !in s && HasDepth(nodes, edges, x, bound)
    ensures DepthBounded(nodes, edges, s + [x], ds + [bound], bound)
  {
    hide HasDepth;
  }

  /** What holds while the parent that completed done has children kids still to knock down. */
  ghost predicate Knocking<N(!new)>(pairs: Pairs<N>, done: set<N>, kids: seq<N>, bound: nat,
                                    numParents: map<N, nat>, answer: seq<N>, ds: seq<nat>)
  {
    && numParents.Keys == Elements(pairs) - done
    && (forall x :: x in numParents ==> numParents[x] == Waiting(pairs, done, x) + multiset(kids)[x])
    && (forall x :: x in answer ==> x in Elements(pairs) && ParentsIn(EdgesOf(pairs), x, done))
    && (forall x :: x in numParents ==> (x in answer <==> numParents[x] == 0))
    && DepthBounded(Elements(pairs), EdgesOf(pairs), answer, ds, bound)
  }

  lemma KnockOne<N(!new)>(pairs: Pairs<N>, done: set<N>, kids: seq<N>, bound: nat,
                          numParents: map<N, nat>, answer: seq<N>, ds: seq<nat>)
    requires kids != [] && kids[0] in Elements(pairs) - done
    requires Knocking(pairs, done, kids, bound, numParents, answer, ds)
    requires Waiting(pairs, done, kids[0]) == 0 ==>
               && ParentsIn(EdgesOf(pairs), kids[0], done)
               && HasDepth(Elements(pairs), EdgesOf(pairs), kids[0], bound)
    ensures kids[0] in numParents && numParents[kids[0]] > 0
    ensures var n := numParents[kids[0]] - 1;
            var after := numParents[kids[0] := n];
            if n == 0 then Knocking(pairs, done, kids[1..], bound, after, answer + [kids[0]], ds + [bound])
            else Knocking(pairs, done, kids[1..], bound, after, answer, ds)
  {
    var child := kids[0];
    assert kids == [child] + kids[1..];
    hide HasDepth, Waiting, EdgesOf, Elements, ParentsIn, DepthBounded;
    if numParents[child] == 1 {
      DepthBoundedGrows(Elements(pairs), EdgesOf(pairs), answer, ds, bound, child);
    }
  }

  /** Knocks down the parent count of every child of answer[i], appending those that reach zero. */
  method KnockDown<N(==, !new)>(pairs: Pairs<N>, before: map<N, nat>, kids: seq<N>, answer0: seq<N>, i: nat,
                                ghost ds0: seq<nat>)
    returns (numParents: map<N, nat>, answer: seq<N>, ghost ds: seq<nat>)
    requires i < |answer0| && Walked(pairs, answer0, i, before, ds0)
    requires kids == ChildrenOf(pairs, answer0[i])
    ensures answer0 <= answer && Walked(pairs, answer, i + 1, numParents, ds)
  {
    hide *;
    WalkingOne(pairs, answer0, i, before, ds0);
    ghost var bound, done := ds0[i] + 1, ToSet(answer0[..i + 1]);
    numParents, answer, ds := before - {answer0[i]}, answer0, ds0;
    assert kids[0..] == kids;
    for j := 0 to |kids|
      invariant answer0 <= answer && ds0 <= ds
      invariant Knocking(pairs, done, kids[j..], bound, numParents, answer, ds)
    {
      var child := kids[j];
      assert kids[j..][1..] == kids[j + 1..];
      ReadyChild(pairs, answer0, i, before, ds0, child);
      KnockOne(pairs, done, kids[j..], bound, numParents, answer, ds);
      numParents := numParents[child := numParents[child] - 1];
      if numParents[child] == 0 {
        answer, ds := answer + [child], ds + [bound];
      }
    }
    WalkedOne(pairs, answer0, i, ds0, numParents, answer, ds);
  }

  /** Walking past answer[i] moves its children's counts from one side of the sum to the other. */
  lemma WalkingOne<N(!new)>(pairs: Pairs<N>, answer: seq<N>, i: nat, numParents: map<N, nat>, ds: seq<nat>)
    requires i < |answer| && Walked(pairs, answer, i, numParents, ds)
    ensures i < |ds|
    ensures Knocking(pairs, ToSet(answer[..i + 1]), ChildrenOf(pairs, answer[i]), ds[i] + 1,
                     numParents - {answer[i]}, answer, ds)
  {
    hide Waiting, ChildrenOf, EdgesOf, Elements, HasDepth;
    var parent, before, done := answer[i], ToSet(answer[..i]), ToSet(answer[..i + 1]);
    ToSetOfPrefix(answer, i);
    forall x
      ensures Waiting(pairs, before, x) == Waiting(pairs, done, x) + multiset(ChildrenOf(pairs, parent))[x]
    {
      WaitingAfter(pairs, before, parent, x);
    }
  }

  /** A child of answer[i] is still counted, and once it waits for nothing it lies one level below. */
  lemma ReadyChild<N(!new)>(pairs: Pairs<N>, answer: seq<N>, i: nat, numParents: map<N, nat>, ds: seq<nat>, child: N)
    requires i < |answer| && Walked(pairs, answer, i, numParents, ds)
    requires child in ChildrenOf(pairs, answer[i])
    ensures i < |ds| && child in Elements(pairs) - ToSet(answer[..i + 1])
    ensures Waiting(pairs, ToSet(answer[..i + 1]), child) == 0 ==>
              && ParentsIn(EdgesOf(pairs), child, ToSet(answer[..i + 1]))
              && HasDepth(Elements(pairs), EdgesOf(pairs), child, ds[i] + 1)
  {
    var nodes, edges, done := Elements(pairs), EdgesOf(pairs), ToSet(answer[..i + 1]);
    ChildrenAreEdges(pairs, answer[i], child);
    ToSetOfPrefix(answer, i);
    assert !ParentsIn(edges, child, ToSet(answer[..i]));
    WaitingZero(pairs, done, child);
    if Waiting(pairs, done, child) == 0 {
      ShallowAreReleased(nodes, edges, answer, ds, i);
      ChildDepth(nodes, edges, done, ds[i], answer[i], child);
    }
  }

  lemma WalkedOne<N(!new)>(pairs: Pairs<N>, answer0: seq<N>, i: nat, ds0: seq<nat>,
                           numParents: map<N, nat>, answer: seq<N>, ds: seq<nat>)
    requires i < |answer0| && answer0 <= answer && i < |ds0| && ds0 <= ds
    requires Knocking(pairs, ToSet(answer0[..i + 1]), [], ds0[i] + 1, numParents, answer, ds)
    ensures Walked(pairs, answer, i + 1, numParents, ds)
  {
    hide HasDepth, Waiting, ParentsIn, EdgesOf, Elements;
    assert answer[..i + 1] == answer0[..i + 1];
    assert ds[i] == ds0[i];
  }

  lemma WalkedFits<N(!new)>(pairs: Pairs<N>, answer: seq<N>, i: nat, numParents: map<N, nat>, ds: seq<nat>)
    requires i <= |answer| && Walked(pairs, answer, i, numParents, ds)
    ensures |answer| <= |Elements(pairs)|
  {
    DistinctFitsIn(answer, Elements(pairs));
  }

  lemma ChildrenAfter<N(!new)>(pairs: Pairs<N>, answer: seq<N>, i: nat, numParents: map<N, nat>, ds: seq<nat>,
                               children: map<N, seq<N>>)
    requires i < |answer| && Walked(pairs, answer, i, numParents, ds)
    requires ChildrenOutside(pairs, ToSet(answer[..i]), children)
    ensures Kids(children, answer[i]) == ChildrenOf(pairs, answer[i])
    ensures ChildrenOutside(pairs, ToSet(answer[..i + 1]), children - {answer[i]})
  {
    ToSetOfPrefix(answer, i);
    hide ToSet, ChildrenOf;
  }

  /** Grows the answer inside its own walk until the walk catches up with it. */
  method GrowAnswer<N(==, !new)>(pairs: Pairs<N>)
    returns (answer: seq<N>, numParents: map<N, nat>, children: map<N, seq<N>>, ghost ds: seq<nat>)
    ensures Walked(pairs, answer, |answer|, numParents, ds)
    ensures ChildrenOutside(pairs, ToSet(answer), children)
  {
    hide *;
    numParents, children := BuildCounts(pairs);
    answer := KeysAtZero(numParents);
    ds := seq(|answer|, _ => 0);
    StartsWalked(pairs, answer, numParents, children);
    var i := 0;
    while i < |answer|
      invariant i <= |answer| && Walked(pairs, answer, i, numParents, ds)
      invariant ChildrenOutside(pairs, ToSet(answer[..i]), children)
      decreases |Elements(pairs)| - i
    {
      WalkedFits(pairs, answer, i, numParents, ds);
      ChildrenAfter(pairs, answer, i, numParents, ds, children);
      var parent, kids := answer[i], Kids(children, answer[i]);
      ghost var walked := answer[..i + 1];
      numParents, answer, ds := KnockDown(pairs, numParents, kids, answer, i, ds);
      assert answer[..i + 1] == walked;
      children := children - {parent};
      i := i + 1;
    }
    assert answer[..i] == answer;
  }

  /** What topsort promises: it succeeds exactly on acyclic input, the answer lists exactly the
      releasable elements once each, by depth and so parents first, and an error carries the rest. */
  ghost predicate IsSortOf<N(!new)>(pairs: Pairs<N>, r: SortResult<N>) {
    var nodes, edges := Elements(pairs), EdgesOf(pairs);
    && (r.Sorted? <==> Acyclic(edges))
    && Distinct(r.answer) && InDepthOrder(nodes, edges, r.answer) && ParentsFirst(edges, r.answer)
    && (forall x :: x in r.answer <==> IsReleasable(nodes, edges, x))
    && (r.Sorted? ==> ToSet(r.answer) == nodes)
    && (r.CycleError? ==> r.numParents.Keys != {} && LeftOver(pairs, ToSet(r.answer), r.numParents, r.children))
  }

  method TopSort<N(==, !new)>(pairs: Pairs<N>) returns (r: SortResult<N>)
    ensures IsSortOf(pairs, r)
  {
    var answer, numParents, children;
    ghost var ds;
    answer, numParents, children, ds := GrowAnswer(pairs);
    assert answer[..|answer|] == answer;
    FinishedWalk(pairs, answer, numParents, ds);
    if numParents.Keys != {} {
      r := CycleError(answer, numParents, children);
    } else {
      r := Sorted(answer);
    }
  }

  /** The dictionaries a sort stops with: exactly the unprocessed nodes, each counted by its
      unprocessed parents, of which it has at least one. */
  ghost predicate LeftOver<N(!new)>(pairs: Pairs<N>, done: set<N>, numParents: map<N, nat>, children: map<N, seq<N>>) {
    && numParents.Keys == Elements(pairs) - done
    && (forall x :: x in numParents ==> numParents[x] == Waiting(pairs, done, x))
    && ChildrenOutside(pairs, done, children)
    && ClosedUnderParents(EdgesOf(pairs), numParents.Keys)
  }

  lemma NoneReadyIsLeft<N(!new)>(pairs: Pairs<N>, answer: seq<N>, numParents: map<N, nat>, ds: seq<nat>)
    requires Walked(pairs, answer, |answer|, numParents, ds)
    ensures forall x :: x in Elements(pairs) && ParentsIn(EdgesOf(pairs), x, ToSet(answer)) ==> x in answer
  {
    hide HasDepth, ParentsIn, Waiting, EdgesOf, Elements;
    assert answer[..|answer|] == answer;
    forall x | x in Elements(pairs) && ParentsIn(EdgesOf(pairs), x, ToSet(answer))
      ensures x in answer
    {
      WaitingZero(pairs, ToSet(answer), x);
    }
  }

  lemma FinishedWalk<N(!new)>(pairs: Pairs<N>, answer: seq<N>, numParents: map<N, nat>, ds: seq<nat>)
    requires Walked(pairs, answer, |answer|, numParents, ds)
    ensures forall x :: x in answer <==> IsReleasable(Elements(pairs), EdgesOf(pairs), x)
    ensures numParents.Keys == Elements(pairs) - ToSet(answer)
    ensures numParents.Keys == {} <==> Acyclic(EdgesOf(pairs))
    ensures ClosedUnderParents(EdgesOf(pairs), numParents.Keys)
    ensures InDepthOrder(Elements(pairs), EdgesOf(pairs), answer) && ParentsFirst(EdgesOf(pairs), answer)
    ensures numParents.Keys == {} ==> ToSet(answer) == Elements(pairs)
  {
    hide HasDepth, Released, Waiting, EdgesOf, Elements, ClosedUnderParents, ParentsIn, IsReleasable, Acyclic;
    var nodes, edges := Elements(pairs), EdgesOf(pairs);
    assert answer[..|answer|] == answer;
    NoneReadyIsLeft(pairs, answer, numParents, ds);
    var stop := ExhaustedList(nodes, edges, answer, ds);
    assert ToSet(answer) <= nodes;
    EdgesAreWithinElements(pairs);
    LeftOverIffCyclic(nodes, edges, stop);
    LeftOverHaveParents(nodes, edges, stop);
    assert InDepthOrder(nodes, edges, answer);
    DepthOrderPutsParentsFirst(nodes, edges, answer);
  }

  // ----- the level-by-level generator -----

  ghost predicate AreLevels<N>(nodes: set<N>, edges: Edges<N>, levels: seq<seq<N>>) {
    forall k :: 0 <= k < |levels| ==>
                  levels[k] != [] && Distinct(levels[k]) && ToSet(levels[k]) == Level(nodes, edges, k)
  }

  /** Decrements the count of every child, once for each time it is listed. */
  method Decrement<N(==, !new)>(ghost pairs: Pairs<N>, ghost done: set<N>, before: map<N, nat>, kids: seq<N>)
    returns (numParents: map<N, nat>)
    requires forall x :: x in before ==> before[x] == Waiting(pairs, done, x) + multiset(kids)[x]
    requires forall x :: x in kids ==> x in before
    ensures numParents.Keys == before.Keys
    ensures forall x :: x in numParents ==> numParents[x] == Waiting(pairs, done, x)
  {
    hide *;
    numParents := before;
    assert kids[0..] == kids;
    for j := 0 to |kids|
      invariant numParents.Keys == before.Keys
      invariant forall x :: x in numParents ==> numParents[x] == Waiting(pairs, done, x) + multiset(kids[j..])[x]
    {
      var child := kids[j];
      assert kids[j..] == [child] + kids[j + 1..];
      numParents := numParents[child := numParents[child] - 1];
    }
  }

  /** What is known when a node of level k is about to be taken out. */
  lemma TakingOut<N(!new)>(nodes: set<N>, pairs: Pairs<N>, done: set<N>, k: nat, parent: N,
                           numParents: map<N, nat>, children: map<N, seq<N>>)
    requires Represents(nodes, pairs, done, numParents, children)
    requires done <= Released(nodes, EdgesOf(pairs), k + 1)
    requires parent in Level(nodes, EdgesOf(pairs), k) - done
    ensures parent in numParents
    ensures forall x :: x in Kids(children, parent) ==> x in numParents && x != parent
    ensures forall x :: Waiting(pairs, done, x) ==
                        Waiting(pairs, done + {parent}, x) + multiset(Kids(children, parent))[x]
  {
    ReleasedAreNodes(nodes, EdgesOf(pairs), k + 1);
    forall x
      ensures Waiting(pairs, done, x) == Waiting(pairs, done + {parent}, x) + multiset(Kids(children, parent))[x]
    {
      WaitingAfter(pairs, done, parent, x);
    }
    forall x | x in Kids(children, parent)
      ensures x in numParents && x != parent
    {
      assert x in multiset(ChildrenOf(pairs, parent));
      ChildrenAreEdges(pairs, parent, x);
      assert x !in Released(nodes, EdgesOf(pairs), k + 1);
    }
  }

  lemma TookOut<N(!new)>(nodes: set<N>, pairs: Pairs<N>, done: set<N>, parent: N, before: map<N, nat>,
                         numParents: map<N, nat>, children: map<N, seq<N>>)
    requires Represents(nodes, pairs, done, before, children)
    requires numParents.Keys == before.Keys - {parent}
    requires forall x :: x in numParents ==> numParents[x] == Waiting(pairs, done + {parent}, x)
    ensures Represents(nodes, pairs, done + {parent}, numParents, children - {parent})
  {
    hide Waiting, ChildrenOf, Elements;
  }

  /** Takes every node of level k out of the two dictionaries. */
  method TakeOutLevel<N(==, !new)>(ghost nodes: set<N>, ghost pairs: Pairs<N>, ghost k: nat, level: seq<N>,
                                   numParents0: map<N, nat>, children0: map<N, seq<N>>)
    returns (numParents: map<N, nat>, children: map<N, seq<N>>)
    requires Represents(nodes, pairs, Released(nodes, EdgesOf(pairs), k), numParents0, children0)
    requires Distinct(level) && ToSet(level) == Level(nodes, EdgesOf(pairs), k)
    ensures Represents(nodes, pairs, Released(nodes, EdgesOf(pairs), k + 1), numParents, children)
    ensures children == children0 - Level(nodes, EdgesOf(pairs), k)
  {
    hide *;
    numParents, children := numParents0, children0;
    ghost var done, out: set<N> := Released(nodes, EdgesOf(pairs), k), {};
    NothingTaken(nodes, EdgesOf(pairs), k, level);
    assert done + out == done;
    for i := 0 to |level|
      invariant out == ToSet(level[..i])
      invariant Represents(nodes, pairs, done + out, numParents, children)
      invariant children == children0 - out
    {
      var parent := level[i];
      TakingNext(nodes, EdgesOf(pairs), k, level, i);
      TakingOut(nodes, pairs, done + out, k, parent, numParents, children);
      CountsOf(nodes, pairs, done + out, numParents, children);
      ghost var before := numParents;
      var kids := Kids(children, parent);
      numParents := numParents - {parent};
      numParents := Decrement(pairs, done + out + {parent}, numParents, kids);
      TookOut(nodes, pairs, done + out, parent, before, numParents, children);
      children := children - {parent};
      assert done + (out + {parent}) == done + out + {parent};
      out := out + {parent};
    }
    assert level[..|level|] == level;
    TakenAll(nodes, EdgesOf(pairs), k);
  }

  lemma CountsOf<N(!new)>(nodes: set<N>, pairs: Pairs<N>, done: set<N>, numParents: map<N, nat>,
                          children: map<N, seq<N>>)
    requires Represents(nodes, pairs, done, numParents, children)
    ensures forall x :: x in numParents ==> numParents[x] == Waiting(pairs, done, x)
  {
  }

  lemma NothingTaken<N>(nodes: set<N>, edges: Edges<N>, k: nat, level: seq<N>)
    ensures ToSet(level[..0]) == {}
  {
  }

  lemma TakingNext<N>(nodes: set<N>, edges: Edges<N>, k: nat, level: seq<N>, i: nat)
    requires i < |level| && Distinct(level) && ToSet(level) == Level(nodes, edges, k)
    ensures ToSet(level[..i + 1]) == ToSet(level[..i]) + {level[i]}
    ensures level[i] in Level(nodes, edges, k) - (Released(nodes, edges, k) + ToSet(level[..i]))
    ensures Released(nodes, edges, k) + ToSet(level[..i]) <= Released(nodes, edges, k + 1)
  {
    ToSetOfPrefix(level, i);
    ReleasedGrows(nodes, edges, k, k + 1);
    assert level[i] in ToSet(level);
    forall x | x in ToSet(level[..i])
      ensures x in ToSet(level)
    {
      var j :| 0 <= j < i && level[j] == x;
    }
  }

  lemma TakenAll<N>(nodes: set<N>, edges: Edges<N>, k: nat)
    ensures Released(nodes, edges, k) + Level(nodes, edges, k) == Released(nodes, edges, k + 1)
  {
    ReleasedGrows(nodes, edges, k, k + 1);
  }

  /** The keys counted zero after k rounds are the next level. */
  lemma ZerosAreTheNextLevel<N(!new)>(nodes: set<N>, pairs: Pairs<N>, k: nat, numParents: map<N, nat>,
                                      children: map<N, seq<N>>, zeros: seq<N>)
    requires Represents(nodes, pairs, Released(nodes, EdgesOf(pairs), k), numParents, children)
    requires forall x :: x in zeros <==> x in numParents && numParents[x] == 0
    ensures ToSet(zeros) == Level(nodes, EdgesOf(pairs), k)
  {
    var done := Released(nodes, EdgesOf(pairs), k);
    forall x
      ensures x in ToSet(zeros) <==> x in Level(nodes, EdgesOf(pairs), k)
    {
      WaitingZero(pairs, done, x);
      assert x in ToSet(zeros) <==> x in zeros;
      assert x in Level(nodes, EdgesOf(pairs), k) <==> x in nodes && x !in done && ParentsIn(EdgesOf(pairs), x, done);
    }
  }

  /** When a level comes out empty, all that is ever released has been, and what is left over
      is left over because of a cycle. */
  lemma LastLevel<N(!new)>(nodes: set<N>, edges: Edges<N>, k: nat)
    requires WithinNodes(nodes, edges) && Level(nodes, edges, k) == {}
    ensures forall x :: x in Released(nodes, edges, k) <==> IsReleasable(nodes, edges, x)
    ensures Released(nodes, edges, k) == nodes <==> Acyclic(edges)
    ensures ClosedUnderParents(edges, nodes - Released(nodes, edges, k))
    ensures Released(nodes, edges, k) <= nodes
  {
    TakenAll(nodes, edges, k);
    LeftOverIffCyclic(nodes, edges, k);
    LeftOverHaveParents(nodes, edges, k);
    ReleasedAreNodes(nodes, edges, k);
    forall x | IsReleasable(nodes, edges, x)
      ensures x in Released(nodes, edges, k)
    {
      var j: nat :| x in Released(nodes, edges, j);
      ReleasedStops(nodes, edges, k, j);
    }
  }

  method TopSortLevelsCore<N(==, !new)>(ghost nodes: set<N>, ghost pairs: Pairs<N>,
                                        numParents0: map<N, nat>, children0: map<N, seq<N>>)
    returns (r: LevelsResult<N>)
    requires Represents(nodes, pairs, {}, numParents0, children0)
    ensures AreLevels(nodes, EdgesOf(pairs), r.levels)
    ensures forall x :: x in Released(nodes, EdgesOf(pairs), |r.levels|) <==> IsReleasable(nodes, EdgesOf(pairs), x)
    ensures r.Levels? <==> Acyclic(EdgesOf(pairs))
    ensures r.Levels? ==> Released(nodes, EdgesOf(pairs), |r.levels|) == nodes
    ensures r.LevelsCycleError? ==>
              var done := Released(nodes, EdgesOf(pairs), |r.levels|);
              && r.numParents.Keys != {}
              && Represents(nodes, pairs, done, r.numParents, r.children)
              && r.children == children0 - done
              && ClosedUnderParents(EdgesOf(pairs), r.numParents.Keys)
  {
    hide *;
    var levels: seq<seq<N>> := [];
    var numParents, children := numParents0, children0;
    StartOfLevels(nodes, pairs, numParents, children);
    assert children0 - {} == children0;
    while true
      invariant AreLevels(nodes, EdgesOf(pairs), levels)
      invariant Represents(nodes, pairs, Released(nodes, EdgesOf(pairs), |levels|), numParents, children)
      invariant children == children0 - Released(nodes, EdgesOf(pairs), |levels|)
      decreases nodes - Released(nodes, EdgesOf(pairs), |levels|)
    {
      var level := KeysAtZero(numParents);
      ghost var k := |levels|;
      ZerosAreTheNextLevel(nodes, pairs, k, numParents, children, level);
      TakenAll(nodes, EdgesOf(pairs), k);
      if level == [] {
        NoMoreLevels(nodes, EdgesOf(pairs), k, level);
        break;
      }
      AnotherLevel(nodes, EdgesOf(pairs), levels, level);
      levels := levels + [level];
      numParents, children := TakeOutLevel(nodes, pairs, k, level, numParents, children);
    }
    EndOfLevels(nodes, pairs, |levels|, numParents, children);
    if numParents.Keys != {} {
      r := LevelsCycleError(levels, numParents, children);
    } else {
      r := Levels(levels);
    }
  }

  lemma StartOfLevels<N(!new)>(nodes: set<N>, pairs: Pairs<N>, numParents: map<N, nat>, children: map<N, seq<N>>)
    ensures AreLevels(nodes, EdgesOf(pairs), [])
    ensures Released(nodes, EdgesOf(pairs), 0) == {}
  {
  }

  lemma NoMoreLevels<N>(nodes: set<N>, edges: Edges<N>, k: nat, level: seq<N>)
    requires ToSet(level) == Level(nodes, edges, k) && level == []
    ensures Level(nodes, edges, k) == {}
  {
  }

  lemma AnotherLevel<N>(nodes: set<N>, edges: Edges<N>, levels: seq<seq<N>>, level: seq<N>)
    requires AreLevels(nodes, edges, levels) && level != [] && Distinct(level)
    requires ToSet(level) == Level(nodes, edges, |levels|)
    ensures AreLevels(nodes, edges, levels + [level])
    ensures nodes - Released(nodes, edges, |levels| + 1) < nodes - Released(nodes, edges, |levels|)
  {
    TakenAll(nodes, edges, |levels|);
    ReleasedAreNodes(nodes, edges, |levels| + 1);
    assert level[0] in ToSet(level);
    assert level[0] in nodes;
  }

  lemma EndOfLevels<N(!new)>(nodes: set<N>, pairs: Pairs<N>, k: nat, numParents: map<N, nat>, children: map<N, seq<N>>)
    requires Represents(nodes, pairs, Released(nodes, EdgesOf(pairs), k), numParents, children)
    requires Level(nodes, EdgesOf(pairs), k) == {}
    ensures forall x :: x in Released(nodes, EdgesOf(pairs), k) <==> IsReleasable(nodes, EdgesOf(pairs), x)
    ensures numParents.Keys == {} <==> Acyclic(EdgesOf(pairs))
    ensures numParents.Keys == {} ==> Released(nodes, EdgesOf(pairs), k) == nodes
    ensures ClosedUnderParents(EdgesOf(pairs), numParents.Keys)
  {
    hide Released, Waiting, ChildrenOf, Level, IsReleasable, Acyclic, ClosedUnderParents;
    EdgesAreWithinElements(pairs);
    LastLevel(nodes, EdgesOf(pairs), k);
    forall x | x in nodes && numParents.Keys == {}
      ensures x in Released(nodes, EdgesOf(pairs), k)
    {
      assert x !in numParents.Keys;
    }
  }

  /** What topsort_levels promises: every level in turn, then success or the leftover error. */
  ghost predicate AreLevelsOf<N(!new)>(pairs: Pairs<N>, r: LevelsResult<N>) {
    var nodes, edges := Elements(pairs), EdgesOf(pairs);
    var released := Released(nodes, edges, |r.levels|);
    && (r.Levels? <==> Acyclic(edges))
    && AreLevels(nodes, edges, r.levels)
    && (forall x :: x in released <==> IsReleasable(nodes, edges, x))
    && (r.Levels? ==> released == nodes)
    && (r.LevelsCycleError? ==> r.numParents.Keys != {} && LeftOver(pairs, released, r.numParents, r.children))
  }

  method TopSortLevels<N(==, !new)>(pairs: Pairs<N>) returns (r: LevelsResult<N>)
    ensures AreLevelsOf(pairs, r)
  {
    hide Waiting, ChildrenOf, EdgesOf, Elements, AreLevels, Released, IsReleasable, Acyclic, ClosedUnderParents,
         ChildrenOutside;
    var numParents, children := BuildCounts(pairs);
    r := TopSortLevelsCore(Elements(pairs), pairs, numParents, children);
    if r.LevelsCycleError? {
      StoppedWith(pairs, Released(Elements(pairs), EdgesOf(pairs), |r.levels|), children, r.numParents, r.children);
    }
  }

  lemma StoppedWith<N(!new)>(pairs: Pairs<N>, done: set<N>, children0: map<N, seq<N>>,
                             numParents: map<N, nat>, children: map<N, seq<N>>)
    requires Represents(Elements(pairs), pairs, done, numParents, children)
    requires ChildrenOutside(pairs, {}, children0) && children == children0 - done
    requires ClosedUnderParents(EdgesOf(pairs), numParents.Keys)
    ensures LeftOver(pairs, done, numParents, children)
  {
    hide Waiting, ChildrenOf, EdgesOf, Elements;
  }

  // ----- the two sorts agree -----

  ghost function Flatten<N>(levels: seq<seq<N>>): seq<N> {
    if levels == [] then [] else Flatten(levels[..|levels| - 1]) + levels[|levels| - 1]
  }

  lemma {:induction false} CutForLevel<N>(nodes: set<N>, edges: Edges<N>, answer: seq<N>, ds: seq<nat>, k: nat, n: nat)
    returns (cut: nat)
    requires DepthsOf(nodes, edges, answer, ds) && n <= |answer|
    requires forall i :: n <= i < |answer| ==> ds[i] >= k
    ensures cut <= n && (forall i :: 0 <= i < cut ==> ds[i] < k) && (forall i :: cut <= i < |answer| ==> ds[i] >= k)
    decreases n
  {
    hide HasDepth;
    if n == 0 || ds[n - 1] < k {
      cut := n;
    } else {
      cut := CutForLevel(nodes, edges, answer, ds, k, n - 1);
    }
  }

  lemma DepthBelow<N>(nodes: set<N>, edges: Edges<N>, x: N, d: nat, k: nat)
    requires HasDepth(nodes, edges, x, d)
    ensures d < k <==> x in Released(nodes, edges, k)
  {
    if d < k {
      ReleasedGrows(nodes, edges, d + 1, k);
    } else {
      ReleasedGrows(nodes, edges, k, d);
    }
  }

  lemma {:induction false} FlattenedLevels<N>(nodes: set<N>, edges: Edges<N>, levels: seq<seq<N>>)
    requires AreLevels(nodes, edges, levels)
    ensures Distinct(Flatten(levels)) && ToSet(Flatten(levels)) == Released(nodes, edges, |levels|)
  {
    if levels == [] {
    } else {
      var k := |levels| - 1;
      FlattenedLevels(nodes, edges, levels[..k]);
      TakenAll(nodes, edges, k);
      AppendDistinct(Flatten(levels[..k]), levels[k]);
    }
  }

  lemma AppendDistinct<N>(s: seq<N>, t: seq<N>)
    requires Distinct(s) && Distinct(t) && ToSet(s) !! ToSet(t)
    ensures Distinct(s + t) && ToSet(s + t) == ToSet(s) + ToSet(t)
  {
    forall i | 0 <= i < |s|
      ensures s[i] in ToSet(s) && (s + t)[i] == s[i]
    {
    }
    forall i | 0 <= i < |t|
      ensures t[i] in ToSet(t) && (s + t)[|s| + i] == t[i]
    {
    }
    forall x | x in ToSet(s) + ToSet(t)
      ensures x in ToSet(s + t)
    {
      if x in ToSet(s) {
        var i :| 0 <= i < |s| && s[i] == x;
        assert (s + t)[i] == x;
      } else {
        var i :| 0 <= i < |t| && t[i] == x;
        assert (s + t)[|s| + i] == x;
      }
    }
  }

  lemma SameDistinctElements<N>(s: seq<N>, t: seq<N>)
    requires Distinct(s) && Distinct(t) && ToSet(s) == ToSet(t)
    ensures multiset(s) == multiset(t)
  {
    forall x
      ensures multiset(s)[x] == multiset(t)[x]
    {
      DistinctMultiset(s, x);
      DistinctMultiset(t, x);
      assert x in s <==> x in ToSet(s);
      assert x in t <==> x in ToSet(t);
    }
  }

  /** Cutting the depth-ordered answer after as many elements as the first k levels have gives
      exactly the elements of those levels; so consecutive cuts give the levels themselves. */
  lemma AnswerCutsIntoLevels<N(!new)>(nodes: set<N>, edges: Edges<N>, answer: seq<N>, levels: seq<seq<N>>, k: nat)
    requires Distinct(answer) && InDepthOrder(nodes, edges, answer) && AreLevels(nodes, edges, levels)
    requires forall x :: x in answer <==> IsReleasable(nodes, edges, x)
    requires k <= |levels|
    ensures |Flatten(levels[..k])| <= |answer|
    ensures multiset(answer[..|Flatten(levels[..k])|]) == multiset(Flatten(levels[..k]))
  {
    var ds :| DepthsOf(nodes, edges, answer, ds);
    var cut := CutForLevel(nodes, edges, answer, ds, k, |answer|);
    var first := answer[..cut];
    forall x
      ensures x in ToSet(first) <==> x in Released(nodes, edges, k)
    {
      if x in Released(nodes, edges, k) {
        assert IsReleasable(nodes, edges, x);
        var i :| 0 <= i < |answer| && answer[i] == x;
        DepthBelow(nodes, edges, x, ds[i], k);
        assert first[i] == x;
      }
      if x in ToSet(first) {
        var i :| 0 <= i < |first| && first[i] == x;
        DepthBelow(nodes, edges, x, ds[i], k);
      }
    }
    FlattenedLevels(nodes, edges, levels[..k]);
    SameDistinctElements(first, Flatten(levels[..k]));
    assert |multiset(first)| == |first| && |multiset(Flatten(levels[..k]))| == |Flatten(levels[..k])|;
  }

  /** The consecutive cuts: element by element, slice k of the answer is level k reordered. */
  lemma SlicesAreLevels<N(!new)>(nodes: set<N>, edges: Edges<N>, answer: seq<N>, levels: seq<seq<N>>, k: nat)
    requires Distinct(answer) && InDepthOrder(nodes, edges, answer) && AreLevels(nodes, edges, levels)
    requires forall x :: x in answer <==> IsReleasable(nodes, edges, x)
    requires k < |levels|
    ensures var from := |Flatten(levels[..k])|;
            from + |levels[k]| <= |answer| && multiset(answer[from..from + |levels[k]|]) == multiset(levels[k])
  {
    hide *;
    var from := |Flatten(levels[..k])|;
    AnswerCutsIntoLevels(nodes, edges, answer, levels, k);
    AnswerCutsIntoLevels(nodes, edges, answer, levels, k + 1);
    FlattenOneMore(levels, k);
    CancelPrefix(answer, from, from + |levels[k]|, Flatten(levels[..k]), levels[k]);
  }

  lemma CancelPrefix<N>(s: seq<N>, from: nat, to: nat, u: seq<N>, v: seq<N>)
    requires from <= to <= |s| && multiset(s[..from]) == multiset(u) && multiset(s[..to]) == multiset(u + v)
    ensures multiset(s[from..to]) == multiset(v)
  {
    assert s[..to] == s[..from] + s[from..to];
    var all, first := multiset(s[..to]), multiset(u);
    assert all == first + multiset(s[from..to]) && all == first + multiset(v);
    assert multiset(s[from..to]) == all - first == multiset(v);
  }

  lemma FlattenOneMore<N>(levels: seq<seq<N>>, k: nat)
    requires k < |levels|
    ensures Flatten(levels[..k + 1]) == Flatten(levels[..k]) + levels[k]
  {
    assert levels[..k + 1][..k] == levels[..k];
  }

  /** Both sorts of one pair list take out the same elements. */
  lemma SameElements<N(!new)>(pairs: Pairs<N>, a: SortResult<N>, b: LevelsResult<N>)
    requires IsSortOf(pairs, a) && AreLevelsOf(pairs, b)
    ensures ToSet(a.answer) == Released(Elements(pairs), EdgesOf(pairs), |b.levels|)
  {
    hide Waiting, ChildrenOf, EdgesOf, Elements, InDepthOrder, IsReleasable, Acyclic, ClosedUnderParents, Distinct,
      AreLevels, LeftOver, ParentsFirst, Released;
    forall x
      ensures x in ToSet(a.answer) <==> x in Released(Elements(pairs), EdgesOf(pairs), |b.levels|)
    {
      assert x in ToSet(a.answer) <==> x in a.answer;
    }
  }

  /** Both sorts of one pair list succeed or fail together, and the list is the levels joined,
      up to order inside a level. */
  lemma SortsAgree<N(!new)>(pairs: Pairs<N>, a: SortResult<N>, b: LevelsResult<N>)
    requires IsSortOf(pairs, a) && AreLevelsOf(pairs, b)
    ensures a.Sorted? <==> b.Levels?
    ensures multiset(a.answer) == multiset(Flatten(b.levels))
    ensures forall k :: 0 <= k < |b.levels| ==>
                          var from := |Flatten(b.levels[..k])|;
                          && from + |b.levels[k]| <= |a.answer|
                          && multiset(a.answer[from..from + |b.levels[k]|]) == multiset(b.levels[k])
  {
    hide Waiting, ChildrenOf, EdgesOf, Elements, InDepthOrder, IsReleasable, Acyclic, ClosedUnderParents, Distinct,
      AreLevels, LeftOver, ParentsFirst, Released, Flatten, ToSet;
    var nodes, edges := Elements(pairs), EdgesOf(pairs);
    SameElements(pairs, a, b);
    FlattenedLevels(nodes, edges, b.levels);
    SameDistinctElements(a.answer, Flatten(b.levels));
    forall k | 0 <= k < |b.levels|
      ensures var from := |Flatten(b.levels[..k])|;
              && from + |b.levels[k]| <= |a.answer|
              && multiset(a.answer[from..from + |b.levels[k]|]) == multiset(b.levels[k])
    {
      SlicesAreLevels(nodes, edges, a.answer, b.levels, k);
    }
  }

  /** On a cycle both sorts raise the same dictionaries. */
  lemma SameLeftOver<N(!new)>(pairs: Pairs<N>, a: SortResult<N>, b: LevelsResult<N>)
    requires IsSortOf(pairs, a) && AreLevelsOf(pairs, b) && (a.CycleError? || b.LevelsCycleError?)
    ensures a.CycleError? && b.LevelsCycleError?
    ensures a.numParents == b.numParents && a.children == b.children
  {
    hide Waiting, ChildrenOf, EdgesOf, Elements, InDepthOrder, IsReleasable, Acyclic, ClosedUnderParents, Distinct,
      AreLevels, ParentsFirst, Released, ToSet;
    SameElements(pairs, a, b);
  }
}
