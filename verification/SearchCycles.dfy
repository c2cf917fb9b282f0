/**
 * Searches with fixed closures, whose costs may be negative as long as no cycle has a negative cost
 * in total. `SearchTrees.NegativeCycle` shows what happens otherwise.
 */
module SearchCycles {
  import opened Types
  import opened Astars
  import opened SearchTrees
  import opened SearchCompleteness

  /** A walk along neighbours that ends where it begins. */
  ghost predicate Cycle<S(!new)>(nbrs: S -> seq<S>, walk: seq<S>) {
    |walk| > 1 && Walk(nbrs, walk, walk[|walk| - 1])
  }

  ghost predicate NoNegativeCycle<S(!new)>(pr: Problem<S>) {
    forall walk :: Cycle(pr.neighbors, walk) ==> Length(pr.transition, walk) >= 0.0
  }

  lemma {:induction false} LengthNonNegative<S(!new)>(t: (S, S) -> real, path: seq<S>)
    requires NonNegative(t)
    ensures Length(t, path) >= 0.0
  {
    if |path| > 1 {
      LengthNonNegative(t, path[..|path| - 1]);
      assert t(path[|path| - 2], path[|path| - 1]) >= 0.0;
    }
  }

  /** Costs that are not negative are a special case. */
  lemma NonNegativeSuffices<S(!new)>(pr: Problem<S>)
    requires NonNegative(pr.transition)
    ensures NoNegativeCycle(pr)
  {
    forall walk ensures Length(pr.transition, walk) >= 0.0 { LengthNonNegative(pr.transition, walk); }
  }

  // ----- the invariant -----

  /** The predecessor of `n` is a neighbour of a lower rank, and the score of `n` covers the way from it. */
  ghost predicate Follows<H, S>(s: Search<H, S>, pr: Problem<S>, rank: map<S, nat>, n: S) {
    n in s.cameFrom ==>
      && n in rank && s.cameFrom[n] in rank && rank[s.cameFrom[n]] < rank[n]
      && Edge(pr.neighbors, s.cameFrom[n], n) && Priced(s, pr.transition, n)
  }

  ghost predicate Ordered<H, S(!new)>(s: Search<H, S>, start: S, pr: Problem<S>, rank: map<S, nat>) {
    && start in s.visited && rank.Keys == s.cheapestScores.Keys == s.visited
    && s.cameFrom.Keys == s.visited - {start} && s.cheapestScores[start] == 0.0
    && forall n :: Follows(s, pr, rank, n)
  }

  /** `came_from` leads from every visited node back to the start. */
  ghost predicate Rooted<H, S(!new)>(s: Search<H, S>, start: S, pr: Problem<S>) {
    exists rank: map<S, nat> :: Ordered(s, start, pr, rank)
  }

  /** `n` is `d`, or one of those that `d` came from. */
  ghost predicate Under<S>(cameFrom: map<S, S>, rank: map<S, nat>, d: S, n: S)
    decreases if d in rank then rank[d] else 0
  {
    || d == n
    || (&& d in cameFrom && d in rank && cameFrom[d] in rank && rank[cameFrom[d]] < rank[d]
        && Under(cameFrom, rank, cameFrom[d], n))
  }

  /** A walk along `came_from` that is no longer than the scores allow. */
  ghost predicate WayBack<H, S(!new)>(s: Search<H, S>, pr: Problem<S>, path: seq<S>, n: S, d: S) {
    && n in s.cheapestScores && d in s.cheapestScores
    && Walk(pr.neighbors, path, n) && path[|path| - 1] == d
    && (forall i :: 0 < i < |path| ==> CameFrom(s.cameFrom, path[i - 1], path[i]))
    && Length(pr.transition, path) <= s.cheapestScores[d] - s.cheapestScores[n]
  }

  lemma OneFurther<H, S(!new)>(s: Search<H, S>, pr: Problem<S>, path: seq<S>, n: S, p: S, d: S)
    requires WayBack(s, pr, path, n, p) && CameFrom(s.cameFrom, p, d)
    requires Edge(pr.neighbors, p, d) && Priced(s, pr.transition, d)
    ensures WayBack(s, pr, path + [d], n, d)
  {
    var longer := path + [d];
    assert longer[..|longer| - 1] == path;
    forall i | 0 < i < |longer| ensures CameFrom(s.cameFrom, longer[i - 1], longer[i]) {
      if i < |path| { assert CameFrom(s.cameFrom, path[i - 1], path[i]); }
    }
    forall i | 0 < i < |longer| ensures Edge(pr.neighbors, longer[i - 1], longer[i]) {
      if i < |path| { assert Edge(pr.neighbors, path[i - 1], path[i]); }
    }
  }

  lemma {:induction false} GoBack<H, S(!new)>(s: Search<H, S>, start: S, pr: Problem<S>, rank: map<S, nat>, d: S, n: S)
      returns (path: seq<S>)
    requires Ordered(s, start, pr, rank) && d in s.visited && Under(s.cameFrom, rank, d, n)
    ensures WayBack(s, pr, path, n, d)
    decreases rank[d]
  {
    if d == n { return [d]; }
    var p := s.cameFrom[d];
    assert Follows(s, pr, rank, d);
    var rest := GoBack(s, start, pr, rank, p, n);
    OneFurther(s, pr, rest, n, p, d);
    path := rest + [d];
  }

  lemma {:induction false} UnderStart<H, S(!new)>(s: Search<H, S>, start: S, pr: Problem<S>, rank: map<S, nat>, d: S)
    requires Ordered(s, start, pr, rank) && d in s.visited
    ensures Under(s.cameFrom, rank, d, start)
    decreases rank[d]
  {
    if d != start {
      assert Follows(s, pr, rank, d);
      UnderStart(s, start, pr, rank, s.cameFrom[d]);
    }
  }

  // ----- one neighbour -----

  /** A way from `n` to `node` and the edge back to `n` are a cycle: it cannot make `n` any cheaper. */
  lemma NoShortcut<H, S(!new)>(s: Search<H, S>, pr: Problem<S>, path: seq<S>, node: S, n: S)
    requires WayBack(s, pr, path, n, node) && Edge(pr.neighbors, node, n) && NoNegativeCycle(pr)
    ensures s.cheapestScores[node] + pr.transition(node, n) >= s.cheapestScores[n]
  {
    var cycle := path + [n];
    assert cycle[..|cycle| - 1] == path;
    forall i | 0 < i < |cycle| ensures Edge(pr.neighbors, cycle[i - 1], cycle[i]) {
      if i < |path| { assert Edge(pr.neighbors, path[i - 1], path[i]); }
    }
    assert Cycle(pr.neighbors, cycle);
  }

  lemma NotUnder<H, S(!new)>(s: Search<H, S>, start: S, pr: Problem<S>, rank: map<S, nat>, node: S, n: S)
    requires Ordered(s, start, pr, rank) && NoNegativeCycle(pr)
    requires node in s.visited && Edge(pr.neighbors, node, n) && Improves(s, node, n, pr)
    ensures !Under(s.cameFrom, rank, node, n) && n != start
  {
    UnderStart(s, start, pr, rank, node);
    if Under(s.cameFrom, rank, node, n) {
      var path := GoBack(s, start, pr, rank, node, n);
      NoShortcut(s, pr, path, node, n);
    }
  }

  function RankOf<S>(rank: map<S, nat>, d: S): nat { if d in rank then rank[d] else 0 }

  /** Whoever came from `n` now comes from `node`, too, and moves up by its rank and one. */
  ghost function Shifted<S>(cameFrom: map<S, S>, rank: map<S, nat>, node: S, n: S): map<S, nat> {
    map d | d in rank.Keys + {n} ::
      RankOf(rank, d) + if Under(cameFrom, rank, d, n) then RankOf(rank, node) + 1 else 0
  }

  lemma RelaxFollows<H(!new), S(!new)>(heap: Heap<H, S>, s: Search<H, S>, node: S, n: S, pr: Problem<S>, start: S,
                                       rank: map<S, nat>, m: S)
    requires Ordered(s, start, pr, rank) && node in s.visited && Edge(pr.neighbors, node, n)
    requires Improves(s, node, n, pr) && !Under(s.cameFrom, rank, node, n)
    ensures Follows(Relax(heap, s, node, n, pr), pr, Shifted(s.cameFrom, rank, node, n), m)
  {
    assert Follows(s, pr, rank, m);
    if m in s.cameFrom && m != n {
      assert Under(s.cameFrom, rank, m, n) <==> Under(s.cameFrom, rank, s.cameFrom[m], n);
    }
  }

  /** If `node` came from `n`, ranks that go along would put `n` not above `node` after the update. */
  lemma {:induction false} StillUnder<H, S(!new)>(s: Search<H, S>, s': Search<H, S>, start: S, pr: Problem<S>,
                                                  rank: map<S, nat>, rank': map<S, nat>, d: S, n: S)
    requires Ordered(s, start, pr, rank) && Ordered(s', start, pr, rank') && d in s.visited && n in s'.cameFrom
    requires s'.cameFrom == s.cameFrom[n := s'.cameFrom[n]] && s.visited <= s'.visited
    requires Under(s.cameFrom, rank, d, n)
    ensures n in rank' && d in rank' && rank'[n] <= rank'[d]
    decreases rank[d]
  {
    if d != n {
      assert Follows(s, pr, rank, d) && Follows(s', pr, rank', d);
      StillUnder(s, s', start, pr, rank, rank', s.cameFrom[d], n);
    }
  }

  lemma RelaxUnrooted<H(!new), S(!new)>(heap: Heap<H, S>, s: Search<H, S>, node: S, n: S, pr: Problem<S>, start: S,
                                        rank: map<S, nat>)
    requires Ordered(s, start, pr, rank) && node in s.visited && Improves(s, node, n, pr)
    requires Under(s.cameFrom, rank, node, n)
    ensures !Rooted(Relax(heap, s, node, n, pr), start, pr)
  {
    var s' := Relax(heap, s, node, n, pr);
    forall rank' ensures !Ordered(s', start, pr, rank') {
      if Ordered(s', start, pr, rank') {
        assert Follows(s', pr, rank', n);
        StillUnder(s, s', start, pr, rank, rank', node, n);
      }
    }
  }

  /** An improvement of `n` by way of `node` keeps the tree if and only if `node` did not come from `n`. */
  lemma RelaxExactly<H(!new), S(!new)>(heap: Heap<H, S>, s: Search<H, S>, node: S, n: S, pr: Problem<S>, start: S,
                                       rank: map<S, nat>)
    requires Ordered(s, start, pr, rank) && node in s.visited && Edge(pr.neighbors, node, n)
    requires Improves(s, node, n, pr)
    ensures Rooted(Relax(heap, s, node, n, pr), start, pr) <==> !Under(s.cameFrom, rank, node, n)
  {
    if Under(s.cameFrom, rank, node, n) {
      RelaxUnrooted(heap, s, node, n, pr, start, rank);
    } else {
      UnderStart(s, start, pr, rank, node);
      var s', rank' := Relax(heap, s, node, n, pr), Shifted(s.cameFrom, rank, node, n);
      forall m ensures Follows(s', pr, rank', m) { RelaxFollows(heap, s, node, n, pr, start, rank, m); }
      assert Ordered(s', start, pr, rank');
    }
  }

  lemma RelaxRooted<H(!new), S(!new)>(heap: Heap<H, S>, s: Search<H, S>, node: S, n: S, pr: Problem<S>, start: S)
    requires Rooted(s, start, pr) && NoNegativeCycle(pr) && node in s.visited && Edge(pr.neighbors, node, n)
    ensures Rooted(Relax(heap, s, node, n, pr), start, pr) && node in Relax(heap, s, node, n, pr).visited
  {
    if Improves(s, node, n, pr) {
      var rank: map<S, nat> :| Ordered(s, start, pr, rank);
      NotUnder(s, start, pr, rank, node, n);
      RelaxExactly(heap, s, node, n, pr, start, rank);
    }
  }

  // ----- whole runs -----

  lemma {:induction false} ExpandRooted<H(!new), S(!new)>(heap: Heap<H, S>, s: Search<H, S>, node: S, ns: seq<S>,
                                                          pr: Problem<S>, start: S)
    requires Rooted(s, start, pr) && NoNegativeCycle(pr) && node in s.visited
    requires forall n :: n in ns ==> Edge(pr.neighbors, node, n)
    ensures Rooted(Expand(heap, s, node, ns, pr), start, pr) && node in Expand(heap, s, node, ns, pr).visited
  {
    if ns != [] {
      var rest, n := ns[..|ns| - 1], ns[|ns| - 1];
      assert ns == rest + [n];
      ExpandRooted(heap, s, node, rest, pr, start);
      RelaxRooted(heap, Expand(heap, s, node, rest, pr), node, n, pr, start);
    }
  }

  lemma StaysRooted<H, S(!new)>(s: Search<H, S>, t: Search<H, S>, start: S, pr: Problem<S>)
    requires Rooted(s, start, pr) && SameNodes(s, t)
    ensures Rooted(t, start, pr)
  {
    var rank: map<S, nat> :| Ordered(s, start, pr, rank);
    forall n ensures Follows(t, pr, rank, n) { assert Follows(s, pr, rank, n); }
    assert Ordered(t, start, pr, rank);
  }

  lemma TurnRooted<H(!new), S(!new)>(heap: Heap<H, S>, s: Search<H, S>, pr: Problem<S>, e: PathEntry<S>, h: H, start: S)
    requires Rooted(s, start, pr) && NoNegativeCycle(pr) && e.node in s.visited
    ensures Rooted(Turn(heap, s, e, h, pr), start, pr)
  {
    var popped := s.(potentialNodes := h);
    StaysRooted(s, popped, start, pr);
    forall n | n in pr.neighbors(e.node) ensures Edge(pr.neighbors, e.node, n) {}
    ExpandRooted(heap, popped, e.node, pr.neighbors(e.node), pr, start);
    StaysRooted(Expand(heap, popped, e.node, pr.neighbors(e.node), pr), Turn(heap, s, e, h, pr), start, pr);
  }

  lemma {:induction false} RunRooted<H(!new), S(!new)>(heap: Heap<H, S>, s: Search<H, S>, limit: nat, pr: Problem<S>,
                                                       start: S, s': Search<H, S>)
    requires heap.Lawful() && Queue(heap, s) && Rooted(s, start, pr) && NoNegativeCycle(pr)
    requires s' == Run(heap, s, limit, pr).0
    ensures Rooted(s', start, pr)
    decreases limit - s.iter
  {
    if s.iter < limit {
      match heap.pop(s.potentialNodes)
      case None =>
      case Some((e, h)) =>
        TakeNode(heap, s, e, h);
        if pr.satisfied(e.node) {
          StaysRooted(s, s', start, pr);
        } else {
          var mid := Turn(heap, s, e, h, pr);
          TurnRooted(heap, s, pr, e, h, start);
          TurnQueue(heap, s, pr, e, h, mid);
          RunRooted(heap, mid, limit, pr, start, s');
        }
    }
  }

  lemma StartRooted<H(!new), S(!new)>(heap: Heap<H, S>, maxIters: nat, start: S, pr: Problem<S>)
    ensures Rooted(Start(heap, maxIters, start, pr.heuristic(start)), start, pr)
  {
    assert Ordered(Start(heap, maxIters, start, pr.heuristic(start)), start, pr, map[start := 0]);
  }

  /**
   * If no cycle has a negative cost in total, then after any number of iterations, and from any
   * visited node, following `came_from` ends at the start, and the path is no longer than the score.
   */
  lemma PathsEnd<H(!new), S(!new)>(heap: Heap<H, S>, maxIters: nat, start: S, pr: Problem<S>, iters: nat, end: S,
                                   s: Search<H, S>)
      returns (path: seq<S>)
    requires heap.Lawful() && NoNegativeCycle(pr)
    requires s == Poll(heap, Start(heap, maxIters, start, pr.heuristic(start)), iters, pr).0 && end in s.visited
    ensures Trace(s.cameFrom, path, end) && Walk(pr.neighbors, path, start)
    ensures end in s.cheapestScores && Length(pr.transition, path) <= s.cheapestScores[end]
  {
    var first := Start(heap, maxIters, start, pr.heuristic(start));
    StartExplored(heap, maxIters, start, pr);
    StartRooted(heap, maxIters, start, pr);
    RunRooted(heap, first, Limit(first, iters), pr, start, s);
    var rank: map<S, nat> :| Ordered(s, start, pr, rank);
    UnderStart(s, start, pr, rank, end);
    path := GoBack(s, start, pr, rank, end, start);
  }
}
