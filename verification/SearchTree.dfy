/** The paths an A* search remembers: `came_from` is a tree that leads back to the start. */
module SearchTrees {
  import opened Types
  import opened Astars

  ghost predicate NonNegative<S(!new)>(t: (S, S) -> real) { forall a, b :: t(a, b) >= 0.0 }

  ghost predicate Edge<S>(nbrs: S -> seq<S>, a: S, b: S) { b in nbrs(a) }

  // ----- the invariant -----

  /** `a` is cheaper than `b`, or as cheap and scored earlier. */
  predicate Before<S>(scores: map<S, real>, stamp: map<S, nat>, a: S, b: S) {
    && a in scores && b in scores && a in stamp && b in stamp
    && (scores[a] < scores[b] || (scores[a] == scores[b] && stamp[a] < stamp[b]))
  }

  /** The remembered predecessor of `n` is a neighbour that comes before it. */
  ghost predicate Hangs<H, S>(s: Search<H, S>, stamp: map<S, nat>, nbrs: S -> seq<S>, n: S) {
    n in s.cameFrom ==> Edge(nbrs, s.cameFrom[n], n) && Before(s.cheapestScores, stamp, s.cameFrom[n], n)
  }

  ghost predicate Stamped<H, S(!new)>(s: Search<H, S>, start: S, nbrs: S -> seq<S>, stamp: map<S, nat>) {
    stamp.Keys == s.cheapestScores.Keys && forall n :: Hangs(s, stamp, nbrs, n)
  }

  /** The visited nodes form a tree: all but the start hang on another one, in an order without cycles. */
  ghost predicate Tree<H, S(!new)>(s: Search<H, S>, start: S, nbrs: S -> seq<S>) {
    && start in s.visited && s.cheapestScores.Keys == s.finalScores.Keys == s.visited && s.cheapestScores[start] == 0.0
    && (forall n :: n in s.cheapestScores ==> s.cheapestScores[n] >= 0.0)
    && s.cameFrom.Keys == s.visited - {start}
    && (s.cheapestNode.Some? ==> s.cheapestNode.value in s.visited)
    && exists stamp: map<S, nat> :: Stamped(s, start, nbrs, stamp)
  }

  /** The searches differ in their queues and counters at most. */
  ghost predicate SameNodes<H, S(!new)>(s: Search<H, S>, t: Search<H, S>) {
    t == s.(potentialNodes := t.potentialNodes, iter := t.iter)
  }

  lemma StartTree<H(!new), S(!new)>(heap: Heap<H, S>, maxIters: nat, start: S, h: real, nbrs: S -> seq<S>)
    ensures Tree(Start(heap, maxIters, start, h), start, nbrs)
  {
    var s := Start(heap, maxIters, start, h);
    assert Stamped(s, start, nbrs, map[start := 0]);
  }

  /** A score that gets lower stays in order. */
  lemma RelaxHangs<H(!new), S(!new)>(heap: Heap<H, S>, s: Search<H, S>, node: S, n: S, pr: Problem<S>, start: S,
                                     stamp: map<S, nat>, m: S)
    requires Stamped(s, start, pr.neighbors, stamp) && node in s.cheapestScores && pr.transition(node, n) >= 0.0
    requires Edge(pr.neighbors, node, n) && Improves(s, node, n, pr)
    ensures Hangs(Relax(heap, s, node, n, pr), stamp[n := stamp[node] + 1], pr.neighbors, m)
  {
    assert Hangs(s, stamp, pr.neighbors, m);
  }

  lemma RelaxStamped<H(!new), S(!new)>(heap: Heap<H, S>, s: Search<H, S>, node: S, n: S, pr: Problem<S>, start: S,
                                       stamp: map<S, nat>)
    requires Stamped(s, start, pr.neighbors, stamp) && node in s.cheapestScores && pr.transition(node, n) >= 0.0
    requires Edge(pr.neighbors, node, n) && Improves(s, node, n, pr)
    ensures Stamped(Relax(heap, s, node, n, pr), start, pr.neighbors, stamp[n := stamp[node] + 1])
  {
    var s', stamp' := Relax(heap, s, node, n, pr), stamp[n := stamp[node] + 1];
    forall m ensures Hangs(s', stamp', pr.neighbors, m) { RelaxHangs(heap, s, node, n, pr, start, stamp, m); }
  }

  lemma RelaxTree<H(!new), S(!new)>(heap: Heap<H, S>, s: Search<H, S>, node: S, n: S, pr: Problem<S>, start: S)
    requires Tree(s, start, pr.neighbors) && node in s.visited
    requires pr.transition(node, n) >= 0.0 && Edge(pr.neighbors, node, n)
    ensures Tree(Relax(heap, s, node, n, pr), start, pr.neighbors) && node in Relax(heap, s, node, n, pr).visited
  {
    if Improves(s, node, n, pr) {
      var stamp: map<S, nat> :| Stamped(s, start, pr.neighbors, stamp);
      RelaxStamped(heap, s, node, n, pr, start, stamp);
    }
  }

  lemma {:induction false} ExpandTree<H(!new), S(!new)>(heap: Heap<H, S>, s: Search<H, S>, node: S, ns: seq<S>,
                                                        pr: Problem<S>, start: S)
    requires Tree(s, start, pr.neighbors) && node in s.visited && NonNegative(pr.transition)
    requires forall n :: n in ns ==> Edge(pr.neighbors, node, n)
    ensures Tree(Expand(heap, s, node, ns, pr), start, pr.neighbors) && node in Expand(heap, s, node, ns, pr).visited
  {
    if ns != [] {
      var rest, n := ns[..|ns| - 1], ns[|ns| - 1];
      assert ns == rest + [n];
      ExpandTree(heap, s, node, rest, pr, start);
      assert pr.transition(node, n) >= 0.0;
      RelaxTree(heap, Expand(heap, s, node, rest, pr), node, n, pr, start);
    }
  }

  // ----- traces -----

  ghost predicate CameFrom<S>(cameFrom: map<S, S>, a: S, b: S) { b in cameFrom && cameFrom[b] == a }

  /** What `reconstruct_path_to` collects: from a node without predecessor to `end`. */
  ghost predicate Trace<S>(cameFrom: map<S, S>, path: seq<S>, end: S) {
    && path != [] && path[|path| - 1] == end && path[0] !in cameFrom
    && forall i :: 0 < i < |path| ==> CameFrom(cameFrom, path[i - 1], path[i])
  }

  /** A walk along neighbours. */
  ghost predicate Walk<S(!new)>(nbrs: S -> seq<S>, path: seq<S>, start: S) {
    && path != [] && path[0] == start
    && forall i :: 0 < i < |path| ==> Edge(nbrs, path[i - 1], path[i])
  }

  function Length<S>(t: (S, S) -> real, path: seq<S>): real {
    if |path| <= 1 then 0.0 else Length(t, path[..|path| - 1]) + t(path[|path| - 2], path[|path| - 1])
  }

  /** The trace of every visited node is a walk from the start. */
  lemma TraceIsWalk<H, S(!new)>(s: Search<H, S>, start: S, nbrs: S -> seq<S>, path: seq<S>, end: S)
    requires Tree(s, start, nbrs) && end in s.visited && Trace(s.cameFrom, path, end)
    ensures Walk(nbrs, path, start) && forall i :: 0 <= i < |path| ==> path[i] in s.visited
  {
    var stamp: map<S, nat> :| Stamped(s, start, nbrs, stamp);
    forall i | 0 <= i < |path| ensures path[i] in s.visited {
      if i < |path| - 1 {
        assert CameFrom(s.cameFrom, path[i + 1 - 1], path[i + 1]);
        assert Hangs(s, stamp, nbrs, path[i + 1]);
      }
    }
    forall i | 0 < i < |path| ensures Edge(nbrs, path[i - 1], path[i]) {
      assert CameFrom(s.cameFrom, path[i - 1], path[i]) && Hangs(s, stamp, nbrs, path[i]);
    }
  }

  lemma TraceBack<S>(cameFrom: map<S, S>, path: seq<S>, end: S)
    requires Trace(cameFrom, path, end)
    ensures |path| > 1 <==> end in cameFrom
    ensures |path| > 1 ==> Trace(cameFrom, path[..|path| - 1], cameFrom[end]) && path == path[..|path| - 1] + [end]
    ensures |path| == 1 ==> path == [end]
  {
    if |path| > 1 {
      assert CameFrom(cameFrom, path[|path| - 2], path[|path| - 1]);
      var rest := path[..|path| - 1];
      forall i | 0 < i < |rest| ensures CameFrom(cameFrom, rest[i - 1], rest[i]) {
        assert CameFrom(cameFrom, path[i - 1], path[i]);
      }
    }
  }

  /** There is only one trace. */
  lemma {:induction false} TraceUnique<S>(cameFrom: map<S, S>, p: seq<S>, q: seq<S>, end: S)
    requires Trace(cameFrom, p, end) && Trace(cameFrom, q, end)
    ensures p == q
    decreases p
  {
    TraceBack(cameFrom, p, end);
    TraceBack(cameFrom, q, end);
    if |p| > 1 { TraceUnique(cameFrom, p[..|p| - 1], q[..|q| - 1], cameFrom[end]); }
  }

  /** The nodes before `n`; there are fewer of them before its predecessor. */
  ghost function Earlier<S>(scores: map<S, real>, stamp: map<S, nat>, n: S): set<S> {
    set m | m in scores && Before(scores, stamp, m, n)
  }

  lemma EarlierShrinks<S>(scores: map<S, real>, stamp: map<S, nat>, a: S, b: S)
    requires Before(scores, stamp, a, b)
    ensures Earlier(scores, stamp, a) < Earlier(scores, stamp, b)
  {
    assert a in Earlier(scores, stamp, b) && a !in Earlier(scores, stamp, a);
  }

  /** Following `came_from` comes to an end. */
  lemma {:induction false} TraceExists<H, S(!new)>(s: Search<H, S>, start: S, nbrs: S -> seq<S>, stamp: map<S, nat>,
                                                   end: S)
      returns (path: seq<S>)
    requires Stamped(s, start, nbrs, stamp)
    ensures Trace(s.cameFrom, path, end)
    decreases Earlier(s.cheapestScores, stamp, end)
  {
    if end !in s.cameFrom { return [end]; }
    var prev := s.cameFrom[end];
    assert Hangs(s, stamp, nbrs, end);
    EarlierShrinks(s.cheapestScores, stamp, prev, end);
    var rest := TraceExists(s, start, nbrs, stamp, prev);
    path := rest + [end];
    forall i | 0 < i < |path| ensures CameFrom(s.cameFrom, path[i - 1], path[i]) {
      if i < |rest| { assert CameFrom(s.cameFrom, rest[i - 1], rest[i]); }
    }
  }

  // ----- costs -----

  /** Scores are at least the score of the predecessor and the way from there. */
  ghost predicate Priced<H, S>(s: Search<H, S>, t: (S, S) -> real, n: S) {
    n in s.cameFrom ==>
      && n in s.cheapestScores && s.cameFrom[n] in s.cheapestScores
      && s.cheapestScores[n] >= s.cheapestScores[s.cameFrom[n]] + t(s.cameFrom[n], n)
  }

  ghost predicate Costs<H, S(!new)>(s: Search<H, S>, t: (S, S) -> real) { forall n :: Priced(s, t, n) }

  lemma RelaxCosts<H(!new), S(!new)>(heap: Heap<H, S>, s: Search<H, S>, node: S, n: S, pr: Problem<S>)
    requires Costs(s, pr.transition) && node in s.cheapestScores && pr.transition(node, n) >= 0.0
    ensures Costs(Relax(heap, s, node, n, pr), pr.transition) && node in Relax(heap, s, node, n, pr).cheapestScores
  {
    var s' := Relax(heap, s, node, n, pr);
    forall m ensures Priced(s', pr.transition, m) { assert Priced(s, pr.transition, m); }
  }

  lemma {:induction false} ExpandCosts<H(!new), S(!new)>(heap: Heap<H, S>, s: Search<H, S>, node: S, ns: seq<S>,
                                                         pr: Problem<S>)
    requires Costs(s, pr.transition) && node in s.cheapestScores && NonNegative(pr.transition)
    ensures Costs(Expand(heap, s, node, ns, pr), pr.transition) && node in Expand(heap, s, node, ns, pr).cheapestScores
  {
    if ns != [] {
      ExpandCosts(heap, s, node, ns[..|ns| - 1], pr);
      assert pr.transition(node, ns[|ns| - 1]) >= 0.0;
      RelaxCosts(heap, Expand(heap, s, node, ns[..|ns| - 1], pr), node, ns[|ns| - 1], pr);
    }
  }

  /** The score of a node is an upper bound for the length of the path that leads to it. */
  lemma {:induction false} TraceCost<H, S(!new)>(s: Search<H, S>, start: S, nbrs: S -> seq<S>, t: (S, S) -> real,
                                                 path: seq<S>, end: S)
    requires Tree(s, start, nbrs) && Costs(s, t) && end in s.visited && Trace(s.cameFrom, path, end)
    ensures Length(t, path) <= s.cheapestScores[end]
  {
    TraceBack(s.cameFrom, path, end);
    if |path| > 1 {
      assert Priced(s, t, end);
      TraceCost(s, start, nbrs, t, path[..|path| - 1], s.cameFrom[end]);
    }
  }

  // ----- the node that is closest to a goal -----

  ghost predicate NoCloser<H, S>(s: Search<H, S>, pr: Problem<S>, n: S) {
    n in s.cameFrom ==> s.cheapestCost.Some? && s.cheapestCost.value <= pr.heuristic(n)
  }

  ghost predicate Closest<H, S>(s: Search<H, S>, pr: Problem<S>, n: S) {
    && s.cheapestNode.Some? && s.cheapestCost == Some(pr.heuristic(n))
    && n in s.cameFrom && Edge(pr.neighbors, s.cheapestNode.value, n)
  }

  /**
   * `cheapest_node` is not itself the visited node of the lowest heuristic cost, but one that has
   * it as a neighbour. The start does not count.
   */
  ghost predicate Nearest<H, S(!new)>(s: Search<H, S>, pr: Problem<S>) {
    && (forall n :: NoCloser(s, pr, n))
    && (s.cheapestCost.Some? <==> s.cheapestNode.Some?)
    && (s.cheapestNode.Some? ==> exists n :: Closest(s, pr, n))
  }

  lemma RelaxNearest<H(!new), S(!new)>(heap: Heap<H, S>, s: Search<H, S>, node: S, n: S, pr: Problem<S>)
    requires Nearest(s, pr) && Edge(pr.neighbors, node, n)
    ensures Nearest(Relax(heap, s, node, n, pr), pr)
  {
    var s' := Relax(heap, s, node, n, pr);
    if Improves(s, node, n, pr) {
      forall m ensures NoCloser(s', pr, m) { assert NoCloser(s, pr, m); }
      if s.cheapestCost == None || pr.heuristic(n) < s.cheapestCost.value {
        assert Closest(s', pr, n);
      } else {
        var m :| Closest(s, pr, m);
        assert Closest(s', pr, m);
      }
    }
  }

  lemma {:induction false} ExpandNearest<H(!new), S(!new)>(heap: Heap<H, S>, s: Search<H, S>, node: S, ns: seq<S>,
                                                           pr: Problem<S>)
    requires Nearest(s, pr) && forall n :: n in ns ==> Edge(pr.neighbors, node, n)
    ensures Nearest(Expand(heap, s, node, ns, pr), pr)
  {
    if ns != [] {
      var rest, n := ns[..|ns| - 1], ns[|ns| - 1];
      assert ns == rest + [n];
      ExpandNearest(heap, s, node, rest, pr);
      RelaxNearest(heap, Expand(heap, s, node, rest, pr), node, n, pr);
    }
  }

  // ----- estimates -----

  /** The final score of a node is the way so far and the heuristic for the rest. */
  ghost predicate Estimated<H, S>(s: Search<H, S>, pr: Problem<S>, n: S) {
    n in s.cameFrom ==>
      && n in s.finalScores && n in s.cheapestScores && s.finalScores[n] == s.cheapestScores[n] + pr.heuristic(n)
  }

  ghost predicate Estimates<H, S(!new)>(s: Search<H, S>, pr: Problem<S>) { forall n :: Estimated(s, pr, n) }

  lemma {:induction false} ExpandEstimates<H(!new), S(!new)>(heap: Heap<H, S>, s: Search<H, S>, node: S, ns: seq<S>,
          pr: Problem<S>)
    requires Estimates(s, pr)
    ensures Estimates(Expand(heap, s, node, ns, pr), pr)
  {
    if ns != [] {
      var rest, n := ns[..|ns| - 1], ns[|ns| - 1];
      ExpandEstimates(heap, s, node, rest, pr);
      var mid := Expand(heap, s, node, rest, pr);
      var s' := Relax(heap, mid, node, n, pr);
      forall m ensures Estimated(s', pr, m) { assert Estimated(mid, pr, m); }
    }
  }

  // ----- negative costs -----

  /** Two nodes; the way to the second costs 1, the way back costs -2. */
  function Swing(): Problem<bool> {
    Problem((n: bool) => 0.0, (n: bool) => [!n], (a: bool, b: bool) => if a then -2.0 else 1.0, (n: bool) => false)
  }

  /** A heap with one entry gives that entry. */
  lemma PopsOnly<H(!new), S(!new)>(heap: Heap<H, S>, h: H, e: PathEntry<S>) returns (rest: H)
    requires heap.Lawful() && heap.entries(h) == multiset{e}
    ensures heap.pop(h) == Some((e, rest)) && heap.entries(rest) == multiset{}
  {
    assert heap.entries(h) != multiset{} && heap.Popped(h);
    var (f, h') := heap.pop(h).value;
    assert f in heap.entries(h);
    rest := h';
  }

  lemma ExpandOne<H(!new), S(!new)>(heap: Heap<H, S>, s: Search<H, S>, node: S, n: S, pr: Problem<S>)
    ensures Expand(heap, s, node, [n], pr) == Relax(heap, s, node, n, pr)
  {
    assert [n][..0] == [];
    assert Expand(heap, s, node, [], pr) == s;
  }

  lemma FirstTurn<H(!new)>(heap: Heap<H, bool>, s: Search<H, bool>) returns (t: Search<H, bool>)
    requires heap.Lawful() && s == Start(heap, 10, false, 0.0)
    ensures t.iter == 1 && t.maxIters == 10 && Run(heap, s, 2, Swing()) == Run(heap, t, 2, Swing())
    ensures t.cameFrom == map[true := false] && t.cheapestScores == map[false := 0.0, true := 1.0]
    ensures heap.entries(t.potentialNodes) == multiset{PathEntry(1.0, true)}
  {
    var e := PathEntry(0.0, false);
    assert heap.entries(s.potentialNodes) == multiset{e};
    var rest := PopsOnly(heap, s.potentialNodes, e);
    ExpandOne(heap, s.(potentialNodes := rest), false, true, Swing());
    t := Turn(heap, s, e, rest, Swing());
  }

  lemma SecondTurn<H(!new)>(heap: Heap<H, bool>, t: Search<H, bool>)
    requires heap.Lawful() && t.iter == 1 && t.maxIters == 10
    requires t.cameFrom == map[true := false] && t.cheapestScores == map[false := 0.0, true := 1.0]
    requires heap.entries(t.potentialNodes) == multiset{PathEntry(1.0, true)}
    ensures Run(heap, t, 2, Swing()).0.cameFrom == map[false := true, true := false]
    ensures Run(heap, t, 2, Swing()).1 == Pending
  {
    var e := PathEntry(1.0, true);
    var rest := PopsOnly(heap, t.potentialNodes, e);
    ExpandOne(heap, t.(potentialNodes := rest), true, false, Swing());
    var u := Turn(heap, t, e, rest, Swing());
    assert Run(heap, u, 2, Swing()) == (u, Pending);
  }

  /**
   * With a negative cost a search comes into a state in which two nodes come from each other, and
   * then following `came_from` has no end: no path can be reconstructed to any node.
   */
  lemma NegativeCycle<H(!new)>(heap: Heap<H, bool>, t: Search<H, bool>, end: bool)
    requires heap.Lawful() && t == Poll(heap, Start(heap, 10, false, 0.0), 2, Swing()).0
    ensures Poll(heap, Start(heap, 10, false, 0.0), 2, Swing()).1 == Pending
    ensures t.cameFrom == map[false := true, true := false]
    ensures forall path :: !Trace(t.cameFrom, path, end)
  {
    var u := FirstTurn(heap, Start(heap, 10, false, 0.0));
    SecondTurn(heap, u);
    forall path ensures !Trace(t.cameFrom, path, end) { CycleHasNoTrace(path, end); }
  }

  lemma {:induction false} CycleHasNoTrace(path: seq<bool>, end: bool)
    ensures !Trace(map[false := true, true := false], path, end)
    decreases path
  {
    if Trace(map[false := true, true := false], path, end) {
      TraceBack(map[false := true, true := false], path, end);
      CycleHasNoTrace(path[..|path| - 1], !end);
    }
  }
}
