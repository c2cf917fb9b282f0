/** The class `Astar` of `common/src/astar.rs`, and what the paths it returns are. */
module AstarSearches {
  import opened Types
  import opened Astars
  import opened SearchTrees
  import opened SearchCompleteness

  datatype PathResult<S> =
    | NoPath(path: seq<S>)
    | ExhaustedPath(path: seq<S>)
    | Path(path: seq<S>)
    | PendingPath

  /** The path leads to `node`, or is empty if there is no node. */
  ghost predicate PathTo<S>(cameFrom: map<S, S>, path: seq<S>, node: Option<S>) {
    match node
    case None => path == []
    case Some(n) => Trace(cameFrom, path, n)
  }

  /** The result says what the outcome is, with the path that belongs to it. */
  ghost predicate Reports<H, S>(s: Search<H, S>, r: Outcome<S>, result: PathResult<S>) {
    match result
    case NoPath(path) => r == Unreachable && PathTo(s.cameFrom, path, s.cheapestNode)
    case ExhaustedPath(path) => r == Exhausted && PathTo(s.cameFrom, path, s.cheapestNode)
    case Path(path) => r.Found? && Trace(s.cameFrom, path, r.node)
    case PendingPath => r == Pending
  }

  /** What holds between iterations. */
  ghost predicate Sound<H(!new), S(!new)>(heap: Heap<H, S>, s: Search<H, S>, start: S, nbrs: S -> seq<S>) {
    heap.Lawful() && Queue(heap, s) && Tree(s, start, nbrs)
  }

  /** A goal was found. */
  lemma FoundSound<H(!new), S(!new)>(heap: Heap<H, S>, s: Search<H, S>, start: S, pr: Problem<S>, limit: nat,
                                     e: PathEntry<S>, h: H)
    requires Sound(heap, s, start, pr.neighbors) && s.iter < limit
    requires heap.pop(s.potentialNodes) == Some((e, h)) && pr.satisfied(e.node)
    ensures Sound(heap, s.(potentialNodes := h), start, pr.neighbors)
    ensures Run(heap, s, limit, pr) == (s.(potentialNodes := h), Found(e.node))
  {
    TakeNode(heap, s, e, h);
    SameTree(s, s.(potentialNodes := h), start, pr.neighbors);
  }

  /** A node was expanded. */
  lemma TurnSound<H(!new), S(!new)>(heap: Heap<H, S>, s: Search<H, S>, start: S, pr: Problem<S>, limit: nat,
                                    e: PathEntry<S>, h: H,
                                    s': Search<H, S>)
    requires Sound(heap, s, start, pr.neighbors) && s.iter < limit
    requires heap.pop(s.potentialNodes) == Some((e, h)) && !pr.satisfied(e.node)
    requires NonNegative(pr.transition) && s' == Turn(heap, s, e, h, pr)
    ensures Sound(heap, s', start, pr.neighbors) && s'.iter == s.iter + 1 && s'.maxIters == s.maxIters
    ensures Run(heap, s, limit, pr) == Run(heap, s', limit, pr)
  {
    TakeNode(heap, s, e, h);
    TurnTree(heap, s, pr, e, h, start);
    TurnQueue(heap, s, pr, e, h, s');
  }

  lemma RelaxIs<H(!new), S(!new)>(heap: Heap<H, S>, s: Search<H, S>, node: S, n: S, pr: Problem<S>,
                                  cost: real, h: real, s': Search<H, S>)
    requires Improves(s, node, n, pr) && cost == s.cheapestScores[node] + pr.transition(node, n) && h == pr.heuristic(n)
    requires s'.iter == s.iter && s'.maxIters == s.maxIters && s'.cameFrom == s.cameFrom[n := node]
    requires s'.cheapestScores == s.cheapestScores[n := cost] && s'.finalScores == s.finalScores[n := cost + h]
    requires s'.visited == s.visited + {n}
    requires if n in s.visited then s'.potentialNodes == s.potentialNodes
             else s'.potentialNodes == heap.push(s.potentialNodes, PathEntry(cost + h, n))
    requires if s.cheapestCost == None || h < s.cheapestCost.value
             then s'.cheapestNode == Some(node) && s'.cheapestCost == Some(h)
             else s'.cheapestNode == s.cheapestNode && s'.cheapestCost == s.cheapestCost
    ensures s' == Relax(heap, s, node, n, pr)
  {
  }

  /** If the neighbours of what was expanded were visited before, they are afterwards, until a goal is found. */
  ghost predicate Keeps<H(!new), S(!new)>(heap: Heap<H, S>, s: Search<H, S>, s': Search<H, S>, r: Outcome<S>,
                                          pr: Problem<S>) {
    Explored(heap, s, pr.neighbors) ==> Ends(heap, s, s', r, pr)
  }

  lemma PollKeeps<H(!new), S(!new)>(heap: Heap<H, S>, s: Search<H, S>, iters: nat, pr: Problem<S>, start: S,
                                    s': Search<H, S>, r: Outcome<S>)
    requires Sound(heap, s, start, pr.neighbors) && NonNegative(pr.transition)
    requires Astars.Poll(heap, s, iters, pr) == (s', r)
    ensures Sound(heap, s', start, pr.neighbors) && Keeps(heap, s, s', r, pr)
    ensures r.Found? ==> r.node in s'.visited && pr.satisfied(r.node)
  {
    RunTree(heap, s, Limit(s, iters), pr, start, s', r);
    if Explored(heap, s, pr.neighbors) { RunExplored(heap, s, Limit(s, iters), pr, s', r); }
  }

  class Astar<H(!new), S(==, !new)> {
    const heap: Heap<H, S>
    ghost const start: S
    var iter: nat
    var maxIters: nat
    var potentialNodes: H
    var cameFrom: map<S, S>
    var cheapestScores: map<S, real>
    var finalScores: map<S, real>
    var visited: set<S>
    var cheapestNode: Option<S>
    var cheapestCost: Option<real>

    ghost function Now(): Search<H, S>
      reads this
    {
      Search(iter, maxIters, potentialNodes, cameFrom, cheapestScores, finalScores, visited, cheapestNode, cheapestCost)
    }

    ghost predicate Valid(nbrs: S -> seq<S>)
      reads this
    {
      Sound(heap, Now(), start, nbrs)
    }

    constructor (heap: Heap<H, S>, maxIters: nat, start: S, pr: Problem<S>)
      requires heap.Lawful()
      ensures this.heap == heap && this.start == start && Now() == Start(heap, maxIters, start, pr.heuristic(start))
      ensures Valid(pr.neighbors) && Costs(Now(), pr.transition) && Nearest(Now(), pr)
      ensures Explored(heap, Now(), pr.neighbors) && Expanded(heap, Now()) == {}
      ensures Estimates(Now(), pr) && Ranks(heap, Now(), start)
    {
      this.heap, this.start, this.maxIters, iter := heap, start, maxIters, 0;
      potentialNodes := heap.push(heap.empty, PathEntry(0.0, start));
      cameFrom := map[];
      cheapestScores := map[start := 0.0];
      finalScores := map[start := pr.heuristic(start)];
      visited := {start};
      cheapestNode, cheapestCost := None, None;
      new;
      StartExplored(heap, maxIters, start, pr);
      StartTree(heap, maxIters, start, pr.heuristic(start), pr.neighbors);
      PushLaw(heap, heap.empty, PathEntry(0.0, start));
    }

    /** One round of the loop over the neighbours of `node`. */
    method RelaxNeighbor(node: S, neighbor: S, pr: Problem<S>)
      modifies this
      ensures Now() == Relax(heap, old(Now()), node, neighbor, pr)
    {
      if node in cheapestScores {
        var cost := cheapestScores[node] + pr.transition(node, neighbor);
        if neighbor !in cheapestScores || cost < cheapestScores[neighbor] {
          Reach(node, neighbor, cost, pr);
        }
      }
    }

    /** Remembers the node that leads closest to the end so far. */
    method Note(node: S, h: real)
      modifies this`cheapestNode, this`cheapestCost
      ensures if old(cheapestCost) == None || h < old(cheapestCost).value
              then cheapestNode == Some(node) && cheapestCost == Some(h)
              else cheapestNode == old(cheapestNode) && cheapestCost == old(cheapestCost)
    {
      if cheapestCost == None || h < cheapestCost.value {
        cheapestNode := Some(node);
        cheapestCost := Some(h);
      }
    }

    /** Queues a node at its first visit. */
    method Visit(neighbor: S, neighborCost: real)
      modifies this`potentialNodes, this`visited
      ensures visited == old(visited) + {neighbor}
      ensures if neighbor in old(visited) then potentialNodes == old(potentialNodes)
              else potentialNodes == heap.push(old(potentialNodes), PathEntry(neighborCost, neighbor))
    {
      if neighbor !in visited {
        potentialNodes := heap.push(potentialNodes, PathEntry(neighborCost, neighbor));
      }
      visited := visited + {neighbor};
    }

    /** `neighbor` is reached from `node` at a lower cost. */
    method Reach(node: S, neighbor: S, cost: real, pr: Problem<S>)
      requires Improves(Now(), node, neighbor, pr) && cost == cheapestScores[node] + pr.transition(node, neighbor)
      modifies this
      ensures Now() == Relax(heap, old(Now()), node, neighbor, pr)
    {
      ghost var s := Now();
      cameFrom := cameFrom[neighbor := node];
      cheapestScores := cheapestScores[neighbor := cost];
      var h := pr.heuristic(neighbor);
      var neighborCost := cost + h;
      finalScores := finalScores[neighbor := neighborCost];
      Note(node, h);
      Visit(neighbor, neighborCost);
      RelaxIs(heap, s, node, neighbor, pr, cost, h, Now());
    }

    method ExpandNode(node: S, pr: Problem<S>)
      modifies this
      ensures Now() == Expand(heap, old(Now()), node, pr.neighbors(node), pr)
    {
      var neighbors, i := pr.neighbors(node), 0;
      while i < |neighbors|
        invariant 0 <= i <= |neighbors|
        invariant Now() == Expand(heap, old(Now()), node, neighbors[..i], pr)
      {
        RelaxNeighbor(node, neighbors[i], pr);
        assert neighbors[..i + 1][..i] == neighbors[..i];
        i := i + 1;
      }
      assert neighbors[..i] == neighbors;
    }

    method ReconstructPathTo(end: S, ghost nbrs: S -> seq<S>) returns (path: seq<S>)
      requires Tree(Now(), start, nbrs)
      ensures Trace(cameFrom, path, end)
    {
      ghost var stamp: map<S, nat> :| Stamped(Now(), start, nbrs, stamp);
      var back, cnode := [end], end;
      while cnode in cameFrom
        invariant back != [] && back[0] == end && back[|back| - 1] == cnode
        invariant forall i :: 0 < i < |back| ==> CameFrom(cameFrom, back[i], back[i - 1])
        decreases Earlier(cheapestScores, stamp, cnode)
      {
        assert Hangs(Now(), stamp, nbrs, cnode);
        EarlierShrinks(cheapestScores, stamp, cameFrom[cnode], cnode);
        cnode := cameFrom[cnode];
        back := back + [cnode];
      }
      path := Reversed(back);
      ReversedTrace(cameFrom, back, path);
    }

    method PathToCheapest(ghost nbrs: S -> seq<S>) returns (path: seq<S>)
      requires Tree(Now(), start, nbrs)
      ensures PathTo(cameFrom, path, cheapestNode)
    {
      match cheapestNode
      case None => path := [];
      case Some(lc) => path := ReconstructPathTo(lc, nbrs);
    }

    /** The body of the loop in `poll`: it ends the search, or takes one node from the queue and expands it. */
    method Iterate(pr: Problem<S>, ghost limit: nat) returns (result: Option<PathResult<S>>,
                   ghost outcome: Outcome<S>)
      requires Valid(pr.neighbors) && NonNegative(pr.transition) && iter < limit
      modifies this
      ensures Valid(pr.neighbors)
      ensures result.Some? ==>
        Reports(Now(), outcome, result.value) && (Now(), outcome) == Run(heap, old(Now()), limit, pr)
      ensures result == None ==> iter == old(iter) + 1 && maxIters == old(maxIters)
      ensures result == None ==> Run(heap, Now(), limit, pr) == Run(heap, old(Now()), limit, pr)
    {
      ghost var s := Now();
      match heap.pop(potentialNodes)
      case None =>
        var path := PathToCheapest(pr.neighbors);
        return Some(NoPath(path)), Unreachable;
      case Some((entry, rest)) =>
        potentialNodes := rest;
        if pr.satisfied(entry.node) {
          FoundSound(heap, s, start, pr, limit, entry, rest);
          var path := ReconstructPathTo(entry.node, pr.neighbors);
          return Some(Path(path)), Found(entry.node);
        }
        ExpandNode(entry.node, pr);
        ghost var expanded := Now();
        ExpandKeeps(heap, s.(potentialNodes := rest), entry.node, pr.neighbors(entry.node), pr);
        iter := iter + 1;
        assert Now() == expanded.(iter := s.iter + 1);
        TurnSound(heap, s, start, pr, limit, entry, rest, Now());
        return None, Pending;
    }

    /** `outcome` is what the result stands for. */
    method Poll(iters: nat, pr: Problem<S>) returns (result: PathResult<S>, ghost outcome: Outcome<S>)
      requires Valid(pr.neighbors) && NonNegative(pr.transition)
      modifies this
      ensures Valid(pr.neighbors) && Reports(Now(), outcome, result)
      ensures (Now(), outcome) == Astars.Poll(heap, old(Now()), iters, pr)
      ensures outcome.Found? ==> outcome.node in visited && pr.satisfied(outcome.node)
      ensures Keeps(heap, old(Now()), Now(), outcome, pr)
    {
      ghost var whole := Astars.Poll(heap, Now(), iters, pr);
      PollKeeps(heap, Now(), iters, pr, start, whole.0, whole.1);
      var iterLimit := if maxIters < iter + iters then maxIters else iter + iters;
      PollIsRun(heap, Now(), iters, pr, iterLimit);
      while iter < iterLimit
        invariant Valid(pr.neighbors) && Run(heap, Now(), iterLimit, pr) == whole
        decreases iterLimit - iter
      {
        var r;
        r, outcome := Iterate(pr, iterLimit);
        if r.Some? {
          return r.value, outcome;
        }
      }
      if iter >= maxIters {
        var path := PathToCheapest(pr.neighbors);
        return ExhaustedPath(path), Exhausted;
      }
      return PendingPath, Pending;
    }
  }

  function Reversed<S>(s: seq<S>): (r: seq<S>) { seq(|s|, i requires 0 <= i < |s| => s[|s| - 1 - i]) }

  lemma ReversedTrace<S>(cameFrom: map<S, S>, back: seq<S>, path: seq<S>)
    requires back != [] && path == Reversed(back) && back[|back| - 1] !in cameFrom
    requires forall i :: 0 < i < |back| ==> CameFrom(cameFrom, back[i], back[i - 1])
    ensures Trace(cameFrom, path, back[0])
  {
  }

  /** Of the visited nodes but the start, `n` has the lowest heuristic cost. */
  ghost predicate CameClosest<H, S>(s: Search<H, S>, start: S, pr: Problem<S>, n: S) {
    n in s.visited - {start} && forall m :: m in s.visited - {start} ==> pr.heuristic(n) <= pr.heuristic(m)
  }

  function PathOf<S>(result: PathResult<S>): seq<S> { if result.PendingPath? then [] else result.path }

  /**
   * Every path returned is empty, or leads from the start along neighbours to a visited node, at a
   * cost of at most its score; a complete path leads to the goal found, the other ones to a node next
   * to the one that came closest to a goal.
   */
  lemma ReturnedPath<H(!new), S(!new)>(heap: Heap<H, S>, s: Search<H, S>, start: S, pr: Problem<S>,
                                       outcome: Outcome<S>, result: PathResult<S>)
    requires Sound(heap, s, start, pr.neighbors) && Costs(s, pr.transition) && Nearest(s, pr)
    requires Reports(s, outcome, result) && (outcome.Found? ==> outcome.node in s.visited)
    ensures var path := PathOf(result);
      path != [] ==>
        && Walk(pr.neighbors, path, start) && path[|path| - 1] in s.visited
        && Length(pr.transition, path) <= s.cheapestScores[path[|path| - 1]]
        && (outcome.Found? ==> path[|path| - 1] == outcome.node)
        && (!outcome.Found? ==> exists n :: CameClosest(s, start, pr, n) && Edge(pr.neighbors, path[|path| - 1], n))
  {
    var path := PathOf(result);
    if path != [] {
      var end := path[|path| - 1];
      TraceIsWalk(s, start, pr.neighbors, path, end);
      TraceCost(s, start, pr.neighbors, pr.transition, path, end);
      if !outcome.Found? {
        var n :| Closest(s, pr, n);
        forall m | m in s.visited - {start} ensures pr.heuristic(n) <= pr.heuristic(m) { assert NoCloser(s, pr, m); }
        assert CameClosest(s, start, pr, n);
      }
    }
  }
}
