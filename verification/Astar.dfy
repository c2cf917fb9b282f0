/** The resumable search of `common/src/astar.rs`. */
module Astars {
  import opened Types

  /** The order of the heap is by cost alone, the lowest first. */
  datatype PathEntry<S> = PathEntry(cost: real, node: S)

  /** A heap, of which only the laws of its operations are known. */
  datatype Heap<!H(!new), !S(==, !new)> = Heap(
    empty: H,
    entries: H -> multiset<PathEntry<S>>,
    push: (H, PathEntry<S>) -> H,
    pop: H -> Option<(PathEntry<S>, H)>)
  {
    /** `pop` takes out some entry of the lowest cost. */
    ghost predicate Lawful() {
      && entries(empty) == multiset{}
      && (forall h, e :: entries(push(h, e)) == entries(h) + multiset{e})
      && (forall h :: pop(h) == None <==> entries(h) == multiset{})
      && forall h :: Popped(h)
    }

    ghost predicate Popped(h: H) {
      match pop(h)
      case None => true
      case Some((e, h')) => entries(h) == entries(h') + multiset{e} && forall x :: x in entries(h) ==> e.cost <= x.cost
    }
  }

  // ----- a lawful heap -----

  function Cheapest<S>(h: seq<PathEntry<S>>): (i: nat)
    requires h != []
    ensures i < |h| && forall j :: 0 <= j < |h| ==> h[i].cost <= h[j].cost
  {
    if |h| == 1 then 0
    else
      var i := Cheapest(h[..|h| - 1]);
      if h[i].cost <= h[|h| - 1].cost then i else |h| - 1
  }

  function WithoutCheapest<S>(h: seq<PathEntry<S>>): (rest: seq<PathEntry<S>>)
    requires h != []
    ensures multiset(h) == multiset(rest) + multiset{h[Cheapest(h)]}
  {
    var i := Cheapest(h);
    assert h == h[..i] + [h[i]] + h[i + 1..];
    h[..i] + h[i + 1..]
  }

  /** A list of entries, from which the first of the cheapest ones is taken. */
  function ListHeap<S(==, !new)>(): Heap<seq<PathEntry<S>>, S> {
    Heap(
      [],
      (h: seq<PathEntry<S>>) => multiset(h),
      (h: seq<PathEntry<S>>, e: PathEntry<S>) => h + [e],
      (h: seq<PathEntry<S>>) => if h == [] then None else Some((h[Cheapest(h)], WithoutCheapest(h))))
  }

  /** The laws can be met. */
  lemma ListHeapIsLawful<S(!new)>()
    ensures ListHeap<S>().Lawful()
  {
    var heap := ListHeap<S>();
    forall h ensures heap.Popped(h) && (heap.pop(h) == None <==> heap.entries(h) == multiset{}) {
      if h != [] { assert h[0] in multiset(h); }
    }
  }

  /** What the caller passes to `poll`. */
  datatype Problem<!S> = Problem(
    heuristic: S -> real,
    neighbors: S -> seq<S>,
    transition: (S, S) -> real,
    satisfied: S -> bool)

  datatype Search<H, S(==)> = Search(
    iter: nat,
    maxIters: nat,
    potentialNodes: H,
    cameFrom: map<S, S>,
    cheapestScores: map<S, real>,
    finalScores: map<S, real>,
    visited: set<S>,
    cheapestNode: Option<S>,
    cheapestCost: Option<real>)

  function Start<H(!new), S(!new)>(heap: Heap<H, S>, maxIters: nat, start: S, h: real): Search<H, S> {
    Search(0, maxIters, heap.push(heap.empty, PathEntry(0.0, start)), map[], map[start := 0.0], map[start := h],
           {start}, None, None)
  }

  /** The neighbour is reached at lower cost than before; a missing score counts as infinite. */
  predicate Improves<H, S>(s: Search<H, S>, node: S, n: S, pr: Problem<S>) {
    && node in s.cheapestScores
    && (n in s.cheapestScores ==> s.cheapestScores[node] + pr.transition(node, n) < s.cheapestScores[n])
  }

  /** One round of the loop over the neighbours. */
  function Relax<H(!new), S(!new)>(heap: Heap<H, S>, s: Search<H, S>, node: S, n: S, pr: Problem<S>): Search<H, S> {
    if !Improves(s, node, n, pr) then s
    else
      var cost := s.cheapestScores[node] + pr.transition(node, n);
      var h := pr.heuristic(n);
      var closer := s.cheapestCost == None || h < s.cheapestCost.value;
      s.(cameFrom := s.cameFrom[n := node],
         cheapestScores := s.cheapestScores[n := cost],
         finalScores := s.finalScores[n := cost + h],
         cheapestNode := if closer then Some(node) else s.cheapestNode,
         cheapestCost := if closer then Some(h) else s.cheapestCost,
         visited := s.visited + {n},
         potentialNodes :=
           if n in s.visited then s.potentialNodes else heap.push(s.potentialNodes, PathEntry(cost + h, n)))
  }

  /** The loop over the first neighbours `ns`. */
  function Expand<H(!new), S(!new)>(heap: Heap<H, S>, s: Search<H, S>, node: S, ns: seq<S>, pr: Problem<S>)
    : Search<H, S>
  {
    if ns == [] then s
    else Relax(heap, Expand(heap, s, node, ns[..|ns| - 1], pr), node, ns[|ns| - 1], pr)
  }

  datatype Outcome<S> = Unreachable | Exhausted | Found(node: S) | Pending

  /** An iteration that takes the entry `e` from the queue, which leaves `h`. */
  function Turn<H(!new), S(!new)>(heap: Heap<H, S>, s: Search<H, S>, e: PathEntry<S>, h: H, pr: Problem<S>)
    : Search<H, S>
  {
    Expand(heap, s.(potentialNodes := h), e.node, pr.neighbors(e.node), pr).(iter := s.iter + 1)
  }

  /** The search goes on until `limit` iterations have been done in total. */
  function Run<H(!new), S(!new)>(heap: Heap<H, S>, s: Search<H, S>, limit: nat, pr: Problem<S>)
    : (Search<H, S>, Outcome<S>)
    decreases limit - s.iter
  {
    if s.iter >= limit then (s, if s.iter >= s.maxIters then Exhausted else Pending)
    else
      match heap.pop(s.potentialNodes)
      case None => (s, Unreachable)
      case Some((e, h)) =>
        if pr.satisfied(e.node) then (s.(potentialNodes := h), Found(e.node))
        else Run(heap, Turn(heap, s, e, h, pr), limit, pr)
  }

  function Limit<H, S>(s: Search<H, S>, iters: nat): nat {
    if s.maxIters < s.iter + iters then s.maxIters else s.iter + iters
  }

  function Poll<H(!new), S(!new)>(heap: Heap<H, S>, s: Search<H, S>, iters: nat, pr: Problem<S>)
    : (Search<H, S>, Outcome<S>)
  {
    Run(heap, s, Limit(s, iters), pr)
  }

  lemma PollIsRun<H(!new), S(!new)>(heap: Heap<H, S>, s: Search<H, S>, iters: nat, pr: Problem<S>, limit: nat)
    requires limit == Limit(s, iters)
    ensures Run(heap, s, limit, pr) == Poll(heap, s, iters, pr)
  {
  }

  lemma {:induction false} ExpandKeeps<H(!new), S(!new)>(heap: Heap<H, S>, s: Search<H, S>, node: S, ns: seq<S>,
                                                         pr: Problem<S>)
    ensures Expand(heap, s, node, ns, pr).iter == s.iter && Expand(heap, s, node, ns, pr).maxIters == s.maxIters
  {
    if ns != [] { ExpandKeeps(heap, s, node, ns[..|ns| - 1], pr); }
  }

  lemma TurnKeeps<H(!new), S(!new)>(heap: Heap<H, S>, s: Search<H, S>, e: PathEntry<S>, h: H, pr: Problem<S>)
    ensures Turn(heap, s, e, h, pr).iter == s.iter + 1 && Turn(heap, s, e, h, pr).maxIters == s.maxIters
  {
    ExpandKeeps(heap, s.(potentialNodes := h), e.node, pr.neighbors(e.node), pr);
  }

  // ----- counting iterations -----

  /** How many iterations a run has done by its end. */
  predicate Counts<H, S>(s: Search<H, S>, limit: nat, s': Search<H, S>, r: Outcome<S>) {
    && s'.maxIters == s.maxIters && s.iter <= s'.iter
    && (s'.iter >= limit <==> r == Pending || r == Exhausted) && (s.iter <= limit ==> s'.iter <= limit)
    && (r == Pending ==> s'.iter < s.maxIters) && (r == Exhausted ==> s'.iter >= s.maxIters)
  }

  lemma {:induction false} RunCounts<H(!new), S(!new)>(heap: Heap<H, S>, s: Search<H, S>, limit: nat, pr: Problem<S>,
                                                       s': Search<H, S>, r: Outcome<S>)
    requires (s', r) == Run(heap, s, limit, pr)
    ensures Counts(s, limit, s', r)
    decreases limit - s.iter
  {
    if s.iter < limit {
      match heap.pop(s.potentialNodes)
      case None =>
      case Some((e, h)) =>
        if !pr.satisfied(e.node) {
          TurnKeeps(heap, s, e, h, pr);
          RunCounts(heap, Turn(heap, s, e, h, pr), limit, pr, s', r);
        }
    }
  }

  /**
   * A call that is to be continued has done all the iterations it may do; one that is exhausted has done
   * the last one of the search; any other ends before that.
   */
  lemma PollCounts<H(!new), S(!new)>(heap: Heap<H, S>, s: Search<H, S>, iters: nat, pr: Problem<S>,
                                     s': Search<H, S>, r: Outcome<S>)
    requires (s', r) == Poll(heap, s, iters, pr) && s.iter <= s.maxIters
    ensures r == Pending ==> s'.iter == s.iter + iters < s.maxIters
    ensures r == Exhausted ==> s'.iter == s.maxIters <= s.iter + iters
    ensures r == Unreachable || r.Found? ==> s.iter <= s'.iter < s.iter + iters && s'.iter < s.maxIters
  {
    RunCounts(heap, s, Limit(s, iters), pr, s', r);
  }

  // ----- polling in slices -----

  lemma {:induction false} RunsCompose<H(!new), S(!new)>(heap: Heap<H, S>, s: Search<H, S>, mid: nat, limit: nat,
                                                         pr: Problem<S>)
    requires mid <= limit && Run(heap, s, mid, pr).1.Pending?
    ensures Run(heap, s, limit, pr) == Run(heap, Run(heap, s, mid, pr).0, limit, pr)
    ensures Run(heap, s, mid, pr).0.iter == if s.iter >= mid then s.iter else mid
    ensures Run(heap, s, mid, pr).0.maxIters == s.maxIters
    decreases limit - s.iter
  {
    if s.iter < mid {
      var (e, h) := heap.pop(s.potentialNodes).value;
      TurnKeeps(heap, s, e, h, pr);
      RunsCompose(heap, Turn(heap, s, e, h, pr), mid, limit, pr);
    }
  }

  /** Polling `a` and then `b` iterations is polling `a + b` iterations. */
  lemma PollsCompose<H(!new), S(!new)>(heap: Heap<H, S>, s: Search<H, S>, a: nat, b: nat, pr: Problem<S>)
    requires Poll(heap, s, a, pr).1.Pending?
    ensures Poll(heap, Poll(heap, s, a, pr).0, b, pr) == Poll(heap, s, a + b, pr)
  {
    RunsCompose(heap, s, Limit(s, a), Limit(s, a + b), pr);
  }
}
