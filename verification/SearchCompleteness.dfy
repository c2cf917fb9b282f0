/** What the results of an A* search say about the graph. */
module SearchCompleteness {
  import opened Types
  import opened Astars
  import opened SearchTrees

  // ----- the frontier -----

  ghost predicate OneEntry<S>(m: multiset<PathEntry<S>>, e: PathEntry<S>) {
    m[e] <= 1 && forall f :: f in m && f.node == e.node ==> f == e
  }

  /** Every node is queued at most once. */
  ghost predicate Unique<S(!new)>(m: multiset<PathEntry<S>>) { forall e :: e in m ==> OneEntry(m, e) }

  ghost function NodesOf<S>(m: multiset<PathEntry<S>>): set<S> { set e | e in m :: e.node }

  ghost predicate QueueOf<S(!new)>(m: multiset<PathEntry<S>>, visited: set<S>) { Unique(m) && NodesOf(m) <= visited }

  ghost predicate Queue<H(!new), S(!new)>(heap: Heap<H, S>, s: Search<H, S>) {
    QueueOf(heap.entries(s.potentialNodes), s.visited) && s.cheapestScores.Keys == s.visited
  }

  /** The nodes that were taken from the queue. */
  ghost function Expanded<H(!new), S(!new)>(heap: Heap<H, S>, s: Search<H, S>): set<S> {
    s.visited - NodesOf(heap.entries(s.potentialNodes))
  }

  ghost predicate Closed<S>(visited: set<S>, nbrs: S -> seq<S>, n: S) { AllIn(nbrs(n), visited) }

  predicate AllIn<S>(ns: seq<S>, visited: set<S>) { SetOf(ns) <= visited }

  function SetOf<S>(ns: seq<S>): set<S> { set n | n in ns }

  /** Every visited node is queued, or was expanded and its neighbours are visited. Goals play no part in this. */
  ghost predicate Explored<H(!new), S(!new)>(heap: Heap<H, S>, s: Search<H, S>, nbrs: S -> seq<S>) {
    && Queue(heap, s) && s.iter == |Expanded(heap, s)|
    && forall n :: n in Expanded(heap, s) ==> Closed(s.visited, nbrs, n)
  }

  ghost predicate NoGoals<S(!new)>(pr: Problem<S>, ns: set<S>) { forall n :: n in ns ==> !pr.satisfied(n) }

  lemma PushUnique<S(!new)>(m: multiset<PathEntry<S>>, e: PathEntry<S>)
    requires Unique(m) && e.node !in NodesOf(m)
    ensures Unique(m + multiset{e})
  {
  }

  lemma PopUnique<S(!new)>(m: multiset<PathEntry<S>>, e: PathEntry<S>)
    requires Unique(m + multiset{e})
    ensures Unique(m) && e.node !in NodesOf(m)
  {
    assert OneEntry(m + multiset{e}, e);
    assert (m + multiset{e})[e] == m[e] + 1;
    forall f | f in m ensures f.node != e.node && OneEntry(m, f) {
      assert f in m + multiset{e};
      assert OneEntry(m + multiset{e}, f);
    }
  }

  lemma NodesAdd<S>(m: multiset<PathEntry<S>>, e: PathEntry<S>)
    ensures NodesOf(m + multiset{e}) == NodesOf(m) + {e.node}
  {
  }

  lemma PushQueue<S(!new)>(m: multiset<PathEntry<S>>, visited: set<S>, e: PathEntry<S>, m': multiset<PathEntry<S>>)
    requires QueueOf(m, visited) && e.node !in visited && m' == m + multiset{e}
    ensures QueueOf(m', visited + {e.node}) && (visited + {e.node}) - NodesOf(m') == visited - NodesOf(m)
  {
    PushUnique(m, e);
    NodesAdd(m, e);
  }

  lemma PopQueue<S(!new)>(m: multiset<PathEntry<S>>, visited: set<S>, e: PathEntry<S>, m': multiset<PathEntry<S>>)
    requires QueueOf(m, visited) && m == m' + multiset{e}
    ensures QueueOf(m', visited) && e.node in visited && e.node in NodesOf(m)
    ensures visited - NodesOf(m') == visited - NodesOf(m) + {e.node}
  {
    PopUnique(m', e);
    NodesAdd(m', e);
  }

  lemma PushLaw<H(!new), S(!new)>(heap: Heap<H, S>, h: H, e: PathEntry<S>)
    requires heap.Lawful()
    ensures heap.entries(heap.push(h, e)) == heap.entries(h) + multiset{e}
  {
  }

  lemma RelaxQueue<H(!new), S(!new)>(heap: Heap<H, S>, s: Search<H, S>, node: S, n: S, pr: Problem<S>,
                                     s': Search<H, S>)
    requires heap.Lawful() && Queue(heap, s) && node in s.visited && s' == Relax(heap, s, node, n, pr)
    ensures Queue(heap, s') && s'.visited == s.visited + {n} && Expanded(heap, s') == Expanded(heap, s)
  {
    if n !in s.visited {
      var e := PathEntry(s.cheapestScores[node] + pr.transition(node, n) + pr.heuristic(n), n);
      RelaxNew(heap, s, node, n, pr, s');
      PushLaw(heap, s.potentialNodes, e);
      PushQueue(heap.entries(s.potentialNodes), s.visited, e, heap.entries(s'.potentialNodes));
    } else {
      RelaxOld(heap, s, node, n, pr, s');
    }
  }

  lemma RelaxNew<H(!new), S(!new)>(heap: Heap<H, S>, s: Search<H, S>, node: S, n: S, pr: Problem<S>, s': Search<H, S>)
    requires s.cheapestScores.Keys == s.visited && node in s.visited
    requires n !in s.visited && s' == Relax(heap, s, node, n, pr)
    ensures s'.visited == s.visited + {n} == s'.cheapestScores.Keys
    ensures s'.potentialNodes ==
      heap.push(s.potentialNodes, PathEntry(s.cheapestScores[node] + pr.transition(node, n) + pr.heuristic(n), n))
  {
  }

  lemma RelaxOld<H(!new), S(!new)>(heap: Heap<H, S>, s: Search<H, S>, node: S, n: S, pr: Problem<S>, s': Search<H, S>)
    requires s.cheapestScores.Keys == s.visited && node in s.visited
    requires n in s.visited && s' == Relax(heap, s, node, n, pr)
    ensures s'.visited == s.visited == s'.cheapestScores.Keys && s'.potentialNodes == s.potentialNodes
  {
  }

  lemma SetOfSnoc<S>(ns: seq<S>)
    requires ns != []
    ensures SetOf(ns) == SetOf(ns[..|ns| - 1]) + {ns[|ns| - 1]}
  {
  }

  lemma {:induction false} ExpandQueue<H(!new), S(!new)>(heap: Heap<H, S>, s: Search<H, S>, node: S, ns: seq<S>,
                                                         pr: Problem<S>, s': Search<H, S>)
    requires heap.Lawful() && Queue(heap, s) && node in s.visited && s' == Expand(heap, s, node, ns, pr)
    ensures Queue(heap, s') && s'.visited == s.visited + SetOf(ns) && Expanded(heap, s') == Expanded(heap, s)
  {
    if ns == [] {
      assert SetOf(ns) == {};
    } else {
      var rest, n := ns[..|ns| - 1], ns[|ns| - 1];
      SetOfSnoc(ns);
      var mid := Expand(heap, s, node, rest, pr);
      ExpandQueue(heap, s, node, rest, pr, mid);
      RelaxQueue(heap, mid, node, n, pr, s');
    }
  }

  lemma StartExplored<H(!new), S(!new)>(heap: Heap<H, S>, maxIters: nat, start: S, pr: Problem<S>)
    requires heap.Lawful()
    ensures Explored(heap, Start(heap, maxIters, start, pr.heuristic(start)), pr.neighbors)
    ensures Expanded(heap, Start(heap, maxIters, start, pr.heuristic(start))) == {}
  {
  }

  /** The search takes the entry `e` from its queue, which leaves `h`, and expands it if it is no goal. */
  ghost predicate Takes<H(!new), S(!new)>(heap: Heap<H, S>, s: Search<H, S>, e: PathEntry<S>, h: H) {
    heap.Lawful() && Queue(heap, s) && heap.pop(s.potentialNodes) == Some((e, h))
  }

  lemma TakeNode<H(!new), S(!new)>(heap: Heap<H, S>, s: Search<H, S>, e: PathEntry<S>, h: H)
    requires Takes(heap, s, e, h)
    ensures Queue(heap, s.(potentialNodes := h)) && e.node in s.visited && e.node !in Expanded(heap, s)
    ensures Expanded(heap, s.(potentialNodes := h)) == Expanded(heap, s) + {e.node}
  {
    assert heap.Popped(s.potentialNodes);
    PopQueue(heap.entries(s.potentialNodes), s.visited, e, heap.entries(h));
  }

  lemma ClosedGrows<S>(visited: set<S>, more: set<S>, nbrs: S -> seq<S>, n: S)
    requires Closed(visited, nbrs, n) && visited <= more
    ensures Closed(more, nbrs, n)
  {
  }

  /** Expanding one node. */
  lemma TurnExplored<H(!new), S(!new)>(heap: Heap<H, S>, s: Search<H, S>, pr: Problem<S>, e: PathEntry<S>, h: H,
                                       s': Search<H, S>)
    requires Takes(heap, s, e, h) && Explored(heap, s, pr.neighbors) && s' == Turn(heap, s, e, h, pr)
    ensures Explored(heap, s', pr.neighbors) && Expanded(heap, s') == Expanded(heap, s) + {e.node}
    ensures s'.visited == s.visited + SetOf(pr.neighbors(e.node)) && s'.maxIters == s.maxIters
  {
    TurnQueue(heap, s, pr, e, h, s');
    assert |Expanded(heap, s')| == |Expanded(heap, s)| + 1;
    forall n | n in Expanded(heap, s') ensures Closed(s'.visited, pr.neighbors, n) {
      if n != e.node { ClosedGrows(s.visited, s'.visited, pr.neighbors, n); }
    }
  }

  lemma TurnQueue<H(!new), S(!new)>(heap: Heap<H, S>, s: Search<H, S>, pr: Problem<S>, e: PathEntry<S>, h: H,
                                    s': Search<H, S>)
    requires Takes(heap, s, e, h) && s' == Turn(heap, s, e, h, pr)
    ensures Queue(heap, s') && e.node !in Expanded(heap, s) && Expanded(heap, s') == Expanded(heap, s) + {e.node}
    ensures s'.visited == s.visited + SetOf(pr.neighbors(e.node)) && s'.iter == s.iter + 1 && s'.maxIters == s.maxIters
  {
    var popped := s.(potentialNodes := h);
    TakeNode(heap, s, e, h);
    ExpandQueue(heap, popped, e.node, pr.neighbors(e.node), pr, Expand(heap, popped, e.node, pr.neighbors(e.node), pr));
    TurnKeeps(heap, s, e, h, pr);
  }

  // ----- whole runs -----

  /** What a run that starts from `s` may end in: no goal is expanded, and only what is not yet expanded is found. */
  ghost predicate Ends<H(!new), S(!new)>(heap: Heap<H, S>, s: Search<H, S>, s': Search<H, S>, r: Outcome<S>,
                                         pr: Problem<S>) {
    && s.visited <= s'.visited && s'.maxIters == s.maxIters
    && (r.Found? ==> pr.satisfied(r.node) && r.node in s'.visited - Expanded(heap, s))
    && (!r.Found? ==> Explored(heap, s', pr.neighbors) && Expanded(heap, s) <= Expanded(heap, s'))
    && (!r.Found? ==> NoGoals(pr, Expanded(heap, s') - Expanded(heap, s)))
    && (r == Unreachable ==> Expanded(heap, s') == s'.visited)
    && (r == Exhausted ==> s'.iter >= s'.maxIters)
  }

  lemma EndsThrough<H(!new), S(!new)>(heap: Heap<H, S>, s: Search<H, S>, mid: Search<H, S>, node: S,
                                      s': Search<H, S>, r: Outcome<S>, pr: Problem<S>)
    requires Ends(heap, mid, s', r, pr) && Expanded(heap, mid) == Expanded(heap, s) + {node} && !pr.satisfied(node)
    requires s.visited <= mid.visited && mid.maxIters == s.maxIters
    ensures Ends(heap, s, s', r, pr)
  {
  }

  /** The invariant holds until a goal is found. */
  lemma {:induction false} RunExplored<H(!new), S(!new)>(heap: Heap<H, S>, s: Search<H, S>, limit: nat,
                                                         pr: Problem<S>, s': Search<H, S>, r: Outcome<S>)
    requires heap.Lawful() && Explored(heap, s, pr.neighbors) && Run(heap, s, limit, pr) == (s', r)
    ensures Ends(heap, s, s', r, pr)
    decreases limit - s.iter
  {
    if s.iter < limit {
      match heap.pop(s.potentialNodes)
      case None =>
        assert heap.entries(s.potentialNodes) == multiset{};
      case Some((e, h)) =>
        if pr.satisfied(e.node) {
          TakeNode(heap, s, e, h);
        } else {
          var mid := Turn(heap, s, e, h, pr);
          TurnExplored(heap, s, pr, e, h, mid);
          RunExplored(heap, mid, limit, pr, s', r);
          EndsThrough(heap, s, mid, e.node, s', r, pr);
        }
    }
  }

  /** `n` can be reached from `start`. */
  ghost predicate Reaches<S(!new)>(nbrs: S -> seq<S>, start: S, n: S) {
    exists path :: Walk(nbrs, path, start) && path[|path| - 1] == n
  }

  lemma {:induction false} WalkStays<S(!new)>(visited: set<S>, nbrs: S -> seq<S>, path: seq<S>, start: S)
    requires start in visited && Walk(nbrs, path, start) && forall n :: n in visited ==> Closed(visited, nbrs, n)
    ensures path[|path| - 1] in visited
  {
    if |path| > 1 {
      var rest := path[..|path| - 1];
      forall i | 0 < i < |rest| ensures Edge(nbrs, rest[i - 1], rest[i]) { assert Edge(nbrs, path[i - 1], path[i]); }
      WalkStays(visited, nbrs, rest, start);
      assert Edge(nbrs, path[|path| - 2], path[|path| - 1]);
      assert Closed(visited, nbrs, path[|path| - 2]);
      assert path[|path| - 1] in SetOf(nbrs(path[|path| - 2]));
    }
  }

  /**
   * What `PathResult::None` means, whatever goals the search had before: a goal can be reached if and
   * only if it had been expanded before the call, when it was no goal. In a search that always had the
   * same goals no goal can be reached.
   */
  lemma NoneIsUnreachable<H(!new), S(!new)>(heap: Heap<H, S>, s: Search<H, S>, limit: nat, pr: Problem<S>, start: S,
                                            goal: S, s': Search<H, S>, r: Outcome<S>)
    requires heap.Lawful() && Explored(heap, s, pr.neighbors) && Tree(s, start, pr.neighbors)
    requires (s', r) == Run(heap, s, limit, pr) && r == Unreachable && pr.satisfied(goal)
    ensures Reaches(pr.neighbors, start, goal) <==> goal in Expanded(heap, s)
  {
    RunExplored(heap, s, limit, pr, s', r);
    if goal in Expanded(heap, s) { VisitedReachable(s, start, pr.neighbors, goal); }
    if Reaches(pr.neighbors, start, goal) {
      var path :| Walk(pr.neighbors, path, start) && path[|path| - 1] == goal;
      WalkStays(s'.visited, pr.neighbors, path, start);
    }
  }

  /** The start is expanded first. */
  lemma StartIsExpanded<H(!new), S(!new)>(heap: Heap<H, S>, maxIters: nat, start: S, limit: nat, pr: Problem<S>,
                                          s': Search<H, S>, r: Outcome<S>)
    requires heap.Lawful() && limit > 0 && !r.Found?
    requires Run(heap, Start(heap, maxIters, start, pr.heuristic(start)), limit, pr) == (s', r)
    ensures start in Expanded(heap, s')
  {
    var s := Start(heap, maxIters, start, pr.heuristic(start));
    StartExplored(heap, maxIters, start, pr);
    var (e, h) := heap.pop(s.potentialNodes).value;
    var mid := Turn(heap, s, e, h, pr);
    TakeNode(heap, s, e, h);
    TurnExplored(heap, s, pr, e, h, mid);
    RunExplored(heap, mid, limit, pr, s', r);
  }

  /** A node that was expanded is never found any more. */
  lemma FoundIsNew<H(!new), S(!new)>(heap: Heap<H, S>, s: Search<H, S>, limit: nat, pr: Problem<S>)
    requires heap.Lawful() && Explored(heap, s, pr.neighbors) && Run(heap, s, limit, pr).1.Found?
    ensures pr.satisfied(Run(heap, s, limit, pr).1.node) && Run(heap, s, limit, pr).1.node !in Expanded(heap, s)
  {
    RunExplored(heap, s, limit, pr, Run(heap, s, limit, pr).0, Run(heap, s, limit, pr).1);
  }

  // ----- searches of finite graphs -----

  /** `all` contains whatever can be reached from its nodes. */
  ghost predicate Confined<S>(pr: Problem<S>, all: set<S>) { forall n :: n in all ==> AllIn(pr.neighbors(n), all) }

  lemma {:induction false} RunConfined<H(!new), S(!new)>(heap: Heap<H, S>, s: Search<H, S>, limit: nat,
                                                         pr: Problem<S>, all: set<S>)
    requires heap.Lawful() && Explored(heap, s, pr.neighbors) && s.visited <= all && Confined(pr, all)
    ensures Run(heap, s, limit, pr).0.visited <= all
    decreases limit - s.iter
  {
    if s.iter < limit {
      match heap.pop(s.potentialNodes)
      case None =>
      case Some((e, h)) =>
        TakeNode(heap, s, e, h);
        if !pr.satisfied(e.node) {
          var mid := Turn(heap, s, e, h, pr);
          TurnExplored(heap, s, pr, e, h, mid);
          RunConfined(heap, mid, limit, pr, all);
        }
    }
  }

  lemma SubsetSize<S>(a: set<S>, b: set<S>)
    requires a <= b
    ensures |a| <= |b|
  {
    if a != {} {
      var x :| x in a;
      SubsetSize(a - {x}, b - {x});
    }
  }

  /** No node is expanded twice, so more iterations than nodes are never used up. */
  lemma NeverExhausted<H(!new), S(!new)>(heap: Heap<H, S>, s: Search<H, S>, limit: nat, pr: Problem<S>, all: set<S>)
    requires heap.Lawful() && Explored(heap, s, pr.neighbors)
    requires s.visited <= all && Confined(pr, all) && |all| < s.maxIters
    ensures Run(heap, s, limit, pr).1 != Exhausted
  {
    var (s', r) := Run(heap, s, limit, pr);
    RunExplored(heap, s, limit, pr, s', r);
    RunConfined(heap, s, limit, pr, all);
    SubsetSize(Expanded(heap, s'), all);
  }

  /** A goal that can be reached and is not in `done`. */
  ghost predicate Within<S(!new)>(pr: Problem<S>, start: S, done: set<S>, goal: S) {
    Reaches(pr.neighbors, start, goal) && pr.satisfied(goal) && goal !in done
  }

  /** What is found can be reached. */
  lemma FoundIsReachable<H(!new), S(!new)>(heap: Heap<H, S>, s: Search<H, S>, limit: nat, pr: Problem<S>, start: S,
                                           s': Search<H, S>, goal: S)
    requires heap.Lawful() && Explored(heap, s, pr.neighbors) && Tree(s, start, pr.neighbors)
    requires NonNegative(pr.transition)
    requires Run(heap, s, limit, pr) == (s', Found(goal))
    ensures Within(pr, start, Expanded(heap, s), goal)
  {
    RunExplored(heap, s, limit, pr, s', Found(goal));
    RunTree(heap, s, limit, pr, start, s', Found(goal));
    VisitedReachable(s', start, pr.neighbors, goal);
  }

  lemma {:induction false} RunEnds<H(!new), S(!new)>(heap: Heap<H, S>, s: Search<H, S>, limit: nat, pr: Problem<S>)
    ensures Run(heap, s, limit, pr).1 == Pending ==> limit <= Run(heap, s, limit, pr).0.iter < s.maxIters
    decreases limit - s.iter
  {
    if s.iter < limit {
      match heap.pop(s.potentialNodes)
      case None =>
      case Some((e, h)) =>
        if !pr.satisfied(e.node) {
          TurnKeeps(heap, s, e, h, pr);
          RunEnds(heap, Turn(heap, s, e, h, pr), limit, pr);
        }
    }
  }

  /** Only as many iterations are made as are allowed. */
  lemma {:induction false} RunStopsAt<H(!new), S(!new)>(heap: Heap<H, S>, s: Search<H, S>, limit: nat, pr: Problem<S>)
    requires s.iter <= limit < s.maxIters
    ensures Run(heap, s, limit, pr).1 != Exhausted
    decreases limit - s.iter
  {
    if s.iter < limit {
      match heap.pop(s.potentialNodes)
      case None =>
      case Some((e, h)) =>
        if !pr.satisfied(e.node) {
          TurnKeeps(heap, s, e, h, pr);
          RunStopsAt(heap, Turn(heap, s, e, h, pr), limit, pr);
        }
    }
  }

  /** A goal is found, one that can be reached and is not in `done`, if and only if there is one. */
  ghost predicate Decides<S(!new)>(pr: Problem<S>, start: S, done: set<S>, r: Outcome<S>) {
    match r
    case Found(node) => Within(pr, start, done, node)
    case Unreachable => forall goal :: !Within(pr, start, done, goal)
    case _ => false
  }

  /** A search of a finite graph with iterations enough decides whether a goal can be reached. */
  lemma SearchDecides<H(!new), S(!new)>(heap: Heap<H, S>, maxIters: nat, iters: nat, start: S, pr: Problem<S>,
                                        all: set<S>, r: Outcome<S>)
    requires heap.Lawful() && NonNegative(pr.transition)
    requires start in all && Confined(pr, all) && |all| < maxIters <= iters
    requires r == Poll(heap, Start(heap, maxIters, start, pr.heuristic(start)), iters, pr).1
    ensures Decides(pr, start, {}, r)
  {
    var s := Start(heap, maxIters, start, pr.heuristic(start));
    StartExplored(heap, maxIters, start, pr);
    StartTree(heap, maxIters, start, pr.heuristic(start), pr.neighbors);
    var limit := Limit(s, iters);
    var s' := Run(heap, s, limit, pr).0;
    assert Expanded(heap, s) == {} && s.visited <= all;
    ResumedDecides(heap, s, limit, pr, start, all, s', r);
  }

  /** The same of a search that is resumed: it misses exactly the goals that it had expanded before. */
  lemma ResumedDecides<H(!new), S(!new)>(heap: Heap<H, S>, s: Search<H, S>, limit: nat, pr: Problem<S>, start: S,
                                         all: set<S>, s': Search<H, S>, r: Outcome<S>)
    requires heap.Lawful() && Explored(heap, s, pr.neighbors) && Tree(s, start, pr.neighbors)
    requires NonNegative(pr.transition) && s.visited <= all && Confined(pr, all) && |all| < s.maxIters
    requires s.maxIters <= limit && Run(heap, s, limit, pr) == (s', r)
    ensures Decides(pr, start, Expanded(heap, s), r)
  {
    NeverExhausted(heap, s, limit, pr, all);
    RunEnds(heap, s, limit, pr);
    match r
    case Found(node) => FoundIsReachable(heap, s, limit, pr, start, s', node);
    case Unreachable => NoneWithin(heap, s, limit, pr, start, s', r);
    case Pending =>
  }

  lemma NoneWithin<H(!new), S(!new)>(heap: Heap<H, S>, s: Search<H, S>, limit: nat, pr: Problem<S>, start: S,
                                     s': Search<H, S>, r: Outcome<S>)
    requires heap.Lawful() && Explored(heap, s, pr.neighbors) && Tree(s, start, pr.neighbors)
    requires (s', r) == Run(heap, s, limit, pr) && r == Unreachable
    ensures forall goal :: !Within(pr, start, Expanded(heap, s), goal)
  {
    forall goal ensures !Within(pr, start, Expanded(heap, s), goal) {
      if pr.satisfied(goal) { NoneIsUnreachable(heap, s, limit, pr, start, goal, s', r); }
    }
  }

  lemma TurnTree<H(!new), S(!new)>(heap: Heap<H, S>, s: Search<H, S>, pr: Problem<S>, e: PathEntry<S>, h: H, start: S)
    requires Tree(s, start, pr.neighbors) && NonNegative(pr.transition) && e.node in s.visited
    ensures Tree(Turn(heap, s, e, h, pr), start, pr.neighbors)
  {
    var popped := s.(potentialNodes := h);
    SameTree(s, popped, start, pr.neighbors);
    forall n | n in pr.neighbors(e.node) ensures Edge(pr.neighbors, e.node, n) {}
    ExpandTree(heap, popped, e.node, pr.neighbors(e.node), pr, start);
    SameTree(Expand(heap, popped, e.node, pr.neighbors(e.node), pr), Turn(heap, s, e, h, pr), start, pr.neighbors);
  }

  /** The remembered predecessors stay a tree, whatever the result. */
  lemma {:induction false} RunTree<H(!new), S(!new)>(heap: Heap<H, S>, s: Search<H, S>, limit: nat, pr: Problem<S>,
                                                     start: S,
                                                     s': Search<H, S>, r: Outcome<S>)
    requires heap.Lawful() && Queue(heap, s) && Tree(s, start, pr.neighbors) && NonNegative(pr.transition)
    requires Run(heap, s, limit, pr) == (s', r)
    ensures Queue(heap, s') && Tree(s', start, pr.neighbors)
    ensures r.Found? ==> r.node in s'.visited && pr.satisfied(r.node)
    decreases limit - s.iter
  {
    if s.iter < limit {
      match heap.pop(s.potentialNodes)
      case None =>
      case Some((e, h)) =>
        TakeNode(heap, s, e, h);
        if pr.satisfied(e.node) {
          SameTree(s, s', start, pr.neighbors);
        } else {
          var mid := Turn(heap, s, e, h, pr);
          TurnTree(heap, s, pr, e, h, start);
          TurnQueue(heap, s, pr, e, h, mid);
          RunTree(heap, mid, limit, pr, start, s', r);
        }
    }
  }

  lemma SameTree<H, S(!new)>(s: Search<H, S>, t: Search<H, S>, start: S, nbrs: S -> seq<S>)
    requires Tree(s, start, nbrs) && SameNodes(s, t)
    ensures Tree(t, start, nbrs)
  {
    var stamp: map<S, nat> :| Stamped(s, start, nbrs, stamp);
    forall n ensures Hangs(t, stamp, nbrs, n) { assert Hangs(s, stamp, nbrs, n); }
    assert Stamped(t, start, nbrs, stamp);
  }

  lemma VisitedReachable<H, S(!new)>(s: Search<H, S>, start: S, nbrs: S -> seq<S>, n: S)
    requires Tree(s, start, nbrs) && n in s.visited
    ensures Reaches(nbrs, start, n)
  {
    var stamp: map<S, nat> :| Stamped(s, start, nbrs, stamp);
    var path := TraceExists(s, start, nbrs, stamp, n);
    TraceIsWalk(s, start, nbrs, path, n);
  }

  // ----- costs and the closest node over whole runs -----

  lemma {:induction false} RunCosts<H(!new), S(!new)>(heap: Heap<H, S>, s: Search<H, S>, limit: nat, pr: Problem<S>,
                                                      s': Search<H, S>)
    requires heap.Lawful() && Queue(heap, s) && Costs(s, pr.transition) && NonNegative(pr.transition)
    requires Run(heap, s, limit, pr).0 == s'
    ensures Costs(s', pr.transition)
    decreases limit - s.iter
  {
    if s.iter < limit {
      match heap.pop(s.potentialNodes)
      case None =>
      case Some((e, h)) =>
        var popped := s.(potentialNodes := h);
        TakeNode(heap, s, e, h);
        forall n ensures Priced(popped, pr.transition, n) { assert Priced(s, pr.transition, n); }
        if !pr.satisfied(e.node) {
          var mid := Turn(heap, s, e, h, pr);
          ExpandCosts(heap, popped, e.node, pr.neighbors(e.node), pr);
          forall n ensures Priced(mid, pr.transition, n) {
            assert Priced(Expand(heap, popped, e.node, pr.neighbors(e.node), pr), pr.transition, n);
          }
          TurnQueue(heap, s, pr, e, h, mid);
          RunCosts(heap, mid, limit, pr, s');
        }
    }
  }

  lemma NearestKept<H, S(!new)>(s: Search<H, S>, t: Search<H, S>, pr: Problem<S>)
    requires Nearest(s, pr) && t.cameFrom == s.cameFrom
    requires t.cheapestCost == s.cheapestCost && t.cheapestNode == s.cheapestNode
    ensures Nearest(t, pr)
  {
    forall n ensures NoCloser(t, pr, n) { assert NoCloser(s, pr, n); }
    if s.cheapestNode.Some? {
      var n :| Closest(s, pr, n);
      assert Closest(t, pr, n);
    }
  }

  lemma {:induction false} RunNearest<H(!new), S(!new)>(heap: Heap<H, S>, s: Search<H, S>, limit: nat, pr: Problem<S>,
                                                        s': Search<H, S>)
    requires Nearest(s, pr) && Run(heap, s, limit, pr).0 == s'
    ensures Nearest(s', pr)
    decreases limit - s.iter
  {
    if s.iter < limit {
      match heap.pop(s.potentialNodes)
      case None =>
      case Some((e, h)) =>
        var popped := s.(potentialNodes := h);
        NearestKept(s, popped, pr);
        if !pr.satisfied(e.node) {
          forall n | n in pr.neighbors(e.node) ensures Edge(pr.neighbors, e.node, n) {}
          ExpandNearest(heap, popped, e.node, pr.neighbors(e.node), pr);
          NearestKept(Expand(heap, popped, e.node, pr.neighbors(e.node), pr), Turn(heap, s, e, h, pr), pr);
          RunNearest(heap, Turn(heap, s, e, h, pr), limit, pr, s');
        }
    }
  }

  /** What came closest is given up only for something that came closer still. */
  predicate KeepsFirst<H, S>(s: Search<H, S>, s': Search<H, S>) {
    s.cheapestCost.Some? ==>
      && s'.cheapestCost.Some? && s'.cheapestCost.value <= s.cheapestCost.value
      && (s'.cheapestCost == s.cheapestCost ==> s'.cheapestNode == s.cheapestNode)
  }

  lemma {:induction false} ExpandKeepsFirst<H(!new), S(!new)>(heap: Heap<H, S>, s: Search<H, S>, node: S, ns: seq<S>,
                                                              pr: Problem<S>)
    ensures KeepsFirst(s, Expand(heap, s, node, ns, pr))
  {
    if ns != [] { ExpandKeepsFirst(heap, s, node, ns[..|ns| - 1], pr); }
  }

  lemma {:induction false} RunKeepsFirst<H(!new), S(!new)>(heap: Heap<H, S>, s: Search<H, S>, limit: nat,
                                                           pr: Problem<S>, s': Search<H, S>)
    requires Run(heap, s, limit, pr).0 == s'
    ensures KeepsFirst(s, s')
    decreases limit - s.iter
  {
    if s.iter < limit {
      match heap.pop(s.potentialNodes)
      case None =>
      case Some((e, h)) =>
        if !pr.satisfied(e.node) {
          ExpandKeepsFirst(heap, s.(potentialNodes := h), e.node, pr.neighbors(e.node), pr);
          RunKeepsFirst(heap, Turn(heap, s, e, h, pr), limit, pr, s');
        }
    }
  }

  // ----- the order in which nodes are expanded -----

  /** An entry is queued at the estimate of its first visit; a cheaper way found later does not move it. */
  ghost predicate Ranked<H, S>(s: Search<H, S>, start: S, e: PathEntry<S>) {
    e.node != start ==> e.node in s.finalScores && s.finalScores[e.node] <= e.cost
  }

  ghost predicate Ranks<H(!new), S(!new)>(heap: Heap<H, S>, s: Search<H, S>, start: S) {
    forall e :: e in heap.entries(s.potentialNodes) ==> Ranked(s, start, e)
  }

  lemma RelaxRanks<H(!new), S(!new)>(heap: Heap<H, S>, s: Search<H, S>, node: S, n: S, pr: Problem<S>, start: S,
                                     s': Search<H, S>)
    requires heap.Lawful() && Queue(heap, s) && Tree(s, start, pr.neighbors)
    requires Estimates(s, pr) && Ranks(heap, s, start)
    requires node in s.visited && s' == Relax(heap, s, node, n, pr)
    ensures Ranks(heap, s', start)
  {
    forall e | e in heap.entries(s'.potentialNodes) ensures Ranked(s', start, e) {
      if n !in s.visited {
        RelaxNew(heap, s, node, n, pr, s');
        var cost := s.cheapestScores[node] + pr.transition(node, n);
        PushLaw(heap, s.potentialNodes, PathEntry(cost + pr.heuristic(n), n));
      }
      if e in heap.entries(s.potentialNodes) {
        assert Ranked(s, start, e) && Estimated(s, pr, n);
      }
    }
  }

  lemma {:induction false} ExpandRanks<H(!new), S(!new)>(heap: Heap<H, S>, s: Search<H, S>, node: S, ns: seq<S>,
                                                         pr: Problem<S>, start: S)
    requires heap.Lawful() && Queue(heap, s) && Tree(s, start, pr.neighbors)
    requires Estimates(s, pr) && Ranks(heap, s, start)
    requires node in s.visited && NonNegative(pr.transition) && forall n :: n in ns ==> Edge(pr.neighbors, node, n)
    ensures Ranks(heap, Expand(heap, s, node, ns, pr), start)
  {
    if ns != [] {
      var rest, n := ns[..|ns| - 1], ns[|ns| - 1];
      assert ns == rest + [n];
      var mid := Expand(heap, s, node, rest, pr);
      ExpandRanks(heap, s, node, rest, pr, start);
      ExpandTree(heap, s, node, rest, pr, start);
      ExpandQueue(heap, s, node, rest, pr, mid);
      ExpandEstimates(heap, s, node, rest, pr);
      RelaxRanks(heap, mid, node, n, pr, start, Relax(heap, mid, node, n, pr));
    }
  }

  /** Queue and counter do not matter for the estimates, and taking an entry out leaves the others. */
  lemma TakenRanks<H(!new), S(!new)>(heap: Heap<H, S>, s: Search<H, S>, start: S, pr: Problem<S>, e: PathEntry<S>,
                                     h: H)
    requires Takes(heap, s, e, h) && Estimates(s, pr) && Ranks(heap, s, start)
    ensures Estimates(s.(potentialNodes := h), pr) && Ranks(heap, s.(potentialNodes := h), start)
  {
    var popped := s.(potentialNodes := h);
    assert heap.Popped(s.potentialNodes);
    forall n ensures Estimated(popped, pr, n) { assert Estimated(s, pr, n); }
    forall f | f in heap.entries(h) ensures Ranked(popped, start, f) {
      assert f in heap.entries(s.potentialNodes) && Ranked(s, start, f);
    }
  }

  lemma CountedRanks<H(!new), S(!new)>(heap: Heap<H, S>, s: Search<H, S>, start: S, pr: Problem<S>, iter: nat)
    requires Estimates(s, pr) && Ranks(heap, s, start)
    ensures Estimates(s.(iter := iter), pr) && Ranks(heap, s.(iter := iter), start)
  {
    var t := s.(iter := iter);
    forall n ensures Estimated(t, pr, n) { assert Estimated(s, pr, n); }
    forall f | f in heap.entries(t.potentialNodes) ensures Ranked(t, start, f) { assert Ranked(s, start, f); }
  }

  lemma TurnRanks<H(!new), S(!new)>(heap: Heap<H, S>, s: Search<H, S>, start: S, pr: Problem<S>, e: PathEntry<S>,
                                    h: H)
    requires Takes(heap, s, e, h) && Tree(s, start, pr.neighbors) && NonNegative(pr.transition)
    requires Estimates(s, pr) && Ranks(heap, s, start)
    ensures Estimates(Turn(heap, s, e, h, pr), pr) && Ranks(heap, Turn(heap, s, e, h, pr), start)
  {
    var popped, ns := s.(potentialNodes := h), pr.neighbors(e.node);
    TakeNode(heap, s, e, h);
    TakenRanks(heap, s, start, pr, e, h);
    SameTree(s, popped, start, pr.neighbors);
    forall n | n in ns ensures Edge(pr.neighbors, e.node, n) {}
    ExpandRanks(heap, popped, e.node, ns, pr, start);
    ExpandEstimates(heap, popped, e.node, ns, pr);
    CountedRanks(heap, Expand(heap, popped, e.node, ns, pr), start, pr, s.iter + 1);
  }

  /** With fixed closures, final scores are estimates, and the queue is ordered by them, after any run. */
  lemma {:induction false} RunRanks<H(!new), S(!new)>(heap: Heap<H, S>, s: Search<H, S>, limit: nat, pr: Problem<S>,
                                                      start: S, s': Search<H, S>)
    requires heap.Lawful() && Queue(heap, s) && Tree(s, start, pr.neighbors) && NonNegative(pr.transition)
    requires Estimates(s, pr) && Ranks(heap, s, start) && Run(heap, s, limit, pr).0 == s'
    ensures Estimates(s', pr) && Ranks(heap, s', start)
    decreases limit - s.iter
  {
    if s.iter < limit {
      match heap.pop(s.potentialNodes)
      case None =>
      case Some((e, h)) =>
        TakeNode(heap, s, e, h);
        if pr.satisfied(e.node) {
          TakenRanks(heap, s, start, pr, e, h);
        } else {
          var mid := Turn(heap, s, e, h, pr);
          TurnRanks(heap, s, start, pr, e, h);
          TurnTree(heap, s, pr, e, h, start);
          TurnQueue(heap, s, pr, e, h, mid);
          RunRanks(heap, mid, limit, pr, start, s');
        }
    }
  }

  /** The entry taken is one of the least cost, and never below the estimate of its node. */
  lemma TakesLeast<H(!new), S(!new)>(heap: Heap<H, S>, s: Search<H, S>, start: S, pr: Problem<S>, e: PathEntry<S>,
                                     h: H, other: PathEntry<S>)
    requires Takes(heap, s, e, h) && Estimates(s, pr) && Ranks(heap, s, start) && s.cameFrom.Keys == s.visited - {start}
    requires other in heap.entries(s.potentialNodes) && e.node != start
    ensures e.node in s.cheapestScores
    ensures s.cheapestScores[e.node] + pr.heuristic(e.node) <= e.cost <= other.cost
  {
    TakeNode(heap, s, e, h);
    assert heap.Popped(s.potentialNodes);
    assert e in heap.entries(s.potentialNodes) && Ranked(s, start, e) && Estimated(s, pr, e.node);
  }
}
