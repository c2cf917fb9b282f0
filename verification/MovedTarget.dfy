/** A target that moves while a path to it is searched: the case in which `find_path` misses it. */
module MovedTarget {
  import opened Types
  import opened Vek
  import opened Astars
  import opened SearchTrees
  import opened SearchCompleteness
  import opened PathFinding

  // ----- a corridor -----

  const LENGTH: nat := 150

  /** A narrow floor. */
  function Corridor(): World {
    (pos: Vec3) => if pos.z == -1 && pos.y == 0 && 0 <= pos.x < LENGTH then Some(Block(true, true)) else None
  }

  function Place(i: int): Vec3 { Vec3(i, 0, 0) }

  predicate InCorridor(pos: Vec3) { pos == Place(pos.x) && 0 <= pos.x < LENGTH }

  predicate OneApart(a: Vec3, b: Vec3) {
    InCorridor(a) && InCorridor(b) && (b.x == a.x + 1 || b.x == a.x - 1)
  }

  /** From every place of the corridor one gets to the next one and to the previous one. */
  ghost predicate Line(nbrs: Vec3 -> seq<Vec3>) { forall a, b :: Edge(nbrs, a, b) <==> OneApart(a, b) }

  lemma CorridorWalkable(pos: Vec3)
    ensures Walkable(Corridor(), pos) <==> InCorridor(pos)
  {
  }

  lemma CorridorStep(a: Vec3, b: Vec3)
    ensures CanWalk(Corridor(), a, b) <==> OneApart(a, b)
  {
    assert Floor(Corridor(), a) <==> InCorridor(a);
    assert Floor(Corridor(), b) <==> InCorridor(b);
  }

  lemma CorridorIsLine(vol: World)
    requires vol == Corridor()
    ensures Line(Neighbors(vol))
  {
    forall a, b ensures Edge(Neighbors(vol), a, b) <==> OneApart(a, b) {
      StepsExactly(vol, a, b);
      CorridorStep(a, b);
    }
  }

  lemma CorridorGround(vol: World, pos: Vec3)
    requires vol == Corridor() && InCorridor(pos)
    ensures Ground(vol, pos) == Some(pos)
  {
    CorridorWalkable(pos);
    assert pos.Up(Height(0)) == pos;
  }

  // ----- searches along a line -----

  ghost predicate Places(ps: set<Vec3>, n: nat) {
    |ps| == n && forall pos :: pos in ps <==> pos == Place(pos.x) && 0 <= pos.x < n
  }

  lemma {:induction false} FirstPlaces(n: nat) returns (ps: set<Vec3>)
    ensures Places(ps, n)
  {
    if n == 0 { return {}; }
    ps := FirstPlaces(n - 1);
    ps := ps + {Place(n - 1)};
  }

  lemma LineConfined(pr: Problem<Vec3>, all: set<Vec3>)
    requires Line(pr.neighbors) && Places(all, LENGTH)
    ensures Confined(pr, all)
  {
    forall n | n in all ensures AllIn(pr.neighbors(n), all) {
      forall b | b in pr.neighbors(n) ensures b in all { assert Edge(pr.neighbors, n, b) && InCorridor(b); }
    }
  }

  lemma LineReaches(nbrs: Vec3 -> seq<Vec3>, n: nat)
    requires Line(nbrs) && n < LENGTH
    ensures Reaches(nbrs, Place(0), Place(n))
  {
    var path := seq(n + 1, i => Place(i));
    forall i | 0 < i < |path| ensures Edge(nbrs, path[i - 1], path[i]) { assert OneApart(path[i - 1], path[i]); }
    assert Walk(nbrs, path, Place(0)) && path[|path| - 1] == Place(n);
  }

  /** The search gets no further than one place an iteration. */
  ghost predicate NotPast<H>(s: Search<H, Vec3>) { forall n :: n in s.visited ==> n.x <= s.iter }

  lemma TurnNotPast<H(!new)>(heap: Heap<H, Vec3>, s: Search<H, Vec3>, e: PathEntry<Vec3>, h: H, pr: Problem<Vec3>,
                             s': Search<H, Vec3>)
    requires Takes(heap, s, e, h) && s' == Turn(heap, s, e, h, pr) && NotPast(s) && Line(pr.neighbors)
    ensures NotPast(s') && Queue(heap, s') && s'.iter == s.iter + 1
  {
    TakeNode(heap, s, e, h);
    TurnQueue(heap, s, pr, e, h, s');
    forall n | n in s'.visited ensures n.x <= s'.iter {
      if n !in s.visited { assert Edge(pr.neighbors, e.node, n); }
    }
  }

  lemma {:induction false} RunNotPast<H(!new)>(heap: Heap<H, Vec3>, s: Search<H, Vec3>, limit: nat, pr: Problem<Vec3>)
    requires heap.Lawful() && Queue(heap, s) && NotPast(s) && Line(pr.neighbors)
    ensures var r := Run(heap, s, limit, pr).1; r.Found? ==> r.node.x < limit
    decreases limit - s.iter
  {
    if s.iter < limit {
      match heap.pop(s.potentialNodes)
      case None =>
      case Some((e, h)) =>
        TakeNode(heap, s, e, h);
        if !pr.satisfied(e.node) {
          var mid := Turn(heap, s, e, h, pr);
          TurnNotPast(heap, s, e, h, pr, mid);
          RunNotPast(heap, mid, limit, pr);
        }
    }
  }

  /** Where the first call leaves the search, which was begun at the near end and looked for the far one. */
  ghost predicate Left<H(!new)>(heap: Heap<H, Vec3>, s: Search<H, Vec3>, nbrs: Vec3 -> seq<Vec3>,
                                     all: set<Vec3>)
  {
    && Explored(heap, s, nbrs) && s.visited <= all && Places(all, LENGTH) && s.maxIters == MAX_ITERS
    && s.iter >= ITERS_PER_CALL && Place(0) in Expanded(heap, s)
  }

  /** A search that has just been begun at the near end. */
  ghost predicate Fresh<H(!new)>(heap: Heap<H, Vec3>, s: Search<H, Vec3>, pr: Problem<Vec3>) {
    s == Start(heap, MAX_ITERS, Place(0), pr.heuristic(Place(0)))
  }

  lemma FarEnd<H(!new)>(heap: Heap<H, Vec3>, pr: Problem<Vec3>, first: Search<H, Vec3>, limit: nat,
                        s: Search<H, Vec3>, r: Outcome<Vec3>, all: set<Vec3>)
    requires heap.Lawful() && Places(all, LENGTH) && Line(pr.neighbors) && Only(pr, Place(LENGTH - 1))
    requires Fresh(heap, first, pr) && limit == ITERS_PER_CALL && (s, r) == Run(heap, first, limit, pr)
    ensures r == Pending && Left(heap, s, pr.neighbors, all)
  {
    FarEndReachable(heap, pr, first, limit, r);
    FarEndNotFound(heap, pr, first, limit, r);
    RunStopsAt(heap, first, limit, pr);
    LineConfined(pr, all);
    StartExplored(heap, MAX_ITERS, Place(0), pr);
    RunEnds(heap, first, limit, pr);
    RunExplored(heap, first, limit, pr, s, r);
    RunConfined(heap, first, limit, pr, all);
    StartIsExpanded(heap, MAX_ITERS, Place(0), limit, pr, s, r);
  }

  lemma FarEndReachable<H(!new)>(heap: Heap<H, Vec3>, pr: Problem<Vec3>, first: Search<H, Vec3>, limit: nat,
                                 r: Outcome<Vec3>)
    requires heap.Lawful() && Line(pr.neighbors) && Only(pr, Place(LENGTH - 1))
    requires Fresh(heap, first, pr) && r == Run(heap, first, limit, pr).1
    ensures r != Unreachable
  {
    var far := Place(LENGTH - 1);
    StartExplored(heap, MAX_ITERS, Place(0), pr);
    StartTree(heap, MAX_ITERS, Place(0), pr.heuristic(Place(0)), pr.neighbors);
    LineReaches(pr.neighbors, LENGTH - 1);
    if r == Unreachable { NoneIsUnreachable(heap, first, limit, pr, Place(0), far, Run(heap, first, limit, pr).0, r); }
  }

  lemma FarEndNotFound<H(!new)>(heap: Heap<H, Vec3>, pr: Problem<Vec3>, first: Search<H, Vec3>, limit: nat,
                                r: Outcome<Vec3>)
    requires heap.Lawful() && Line(pr.neighbors) && Only(pr, Place(LENGTH - 1))
    requires Fresh(heap, first, pr) && limit == ITERS_PER_CALL && r == Run(heap, first, limit, pr).1
    ensures !r.Found?
  {
    StartExplored(heap, MAX_ITERS, Place(0), pr);
    RunNotPast(heap, first, limit, pr);
    if r.Found? { FoundIsNew(heap, first, limit, pr); }
  }

  /** The second one looks for the near end, and gives up. */
  lemma BackAgain<H(!new)>(heap: Heap<H, Vec3>, s: Search<H, Vec3>, limit: nat, pr: Problem<Vec3>,
                           all: set<Vec3>, r: Outcome<Vec3>)
    requires heap.Lawful() && Left(heap, s, pr.neighbors, all) && Line(pr.neighbors) && Only(pr, Place(0))
    requires limit == s.iter + ITERS_PER_CALL && r == Run(heap, s, limit, pr).1
    ensures r == Unreachable
  {
    if r.Found? { FoundIsNew(heap, s, limit, pr); }
    LineConfined(pr, all);
    FewVisited(heap, s, pr.neighbors, all);
    RunStopsAt(heap, s, limit, pr);
    if r == Pending { NotPending(heap, s, limit, pr, all); }
  }

  lemma FewVisited<H(!new)>(heap: Heap<H, Vec3>, s: Search<H, Vec3>, nbrs: Vec3 -> seq<Vec3>,
                            all: set<Vec3>)
    requires Explored(heap, s, nbrs) && s.visited <= all && Places(all, LENGTH)
    ensures s.iter <= LENGTH
  {
    SubsetSize(Expanded(heap, s), all);
  }

  lemma NotPending<H(!new)>(heap: Heap<H, Vec3>, s: Search<H, Vec3>, limit: nat, pr: Problem<Vec3>,
                            all: set<Vec3>)
    requires heap.Lawful() && Explored(heap, s, pr.neighbors) && s.visited <= all && Places(all, LENGTH)
    requires Confined(pr, all) && limit > LENGTH
    ensures Run(heap, s, limit, pr).1 != Pending
  {
    var (s', r) := Run(heap, s, limit, pr);
    RunExplored(heap, s, limit, pr, s', r);
    RunConfined(heap, s, limit, pr, all);
    RunEnds(heap, s, limit, pr);
    if r == Pending { FewVisited(heap, s', pr.neighbors, all); }
  }

  /**
   * In a corridor, a target that moves back to where the search began, before the second call, is
   * missed although it can be reached: the second call gives up, and `find_path` returns an incomplete
   * path. The target had been expanded when it was not yet the target.
   */
  lemma MovedTargetMissed<H(!new)>(heap: Heap<H, Vec3>, vol: World, away: Vec2 -> Distance, away': Vec2 -> Distance,
                                   sqrt: nat -> real, near: Vec3, far: Vec3, pr: Problem<Vec3>, pr': Problem<Vec3>,
                                   first: Search<H, Vec3>, s: Search<H, Vec3>, r: Outcome<Vec3>, r': Outcome<Vec3>)
    requires heap.Lawful() && vol == Corridor() && near == Place(0) && far == Place(LENGTH - 1)
    requires pr == Query(vol, away, sqrt, far) && pr' == Query(vol, away', sqrt, near)
    requires first == Start(heap, MAX_ITERS, near, pr.heuristic(near))
    requires (s, r) == Poll(heap, first, ITERS_PER_CALL, pr) && r' == Poll(heap, s, ITERS_PER_CALL, pr').1
    ensures Ground(vol, near) == Some(near) && Ground(vol, far) == Some(far)
    ensures r == Pending && r' == Unreachable && Reaches(Neighbors(vol), near, near)
  {
    CorridorGround(vol, near);
    CorridorGround(vol, far);
    StartReachable(vol, near);
    MissedThere(heap, vol, away, away', sqrt, near, far, pr, pr', first, s, r, r');
  }

  lemma MissedThere<H(!new)>(heap: Heap<H, Vec3>, vol: World, away: Vec2 -> Distance, away': Vec2 -> Distance,
                             sqrt: nat -> real, near: Vec3, far: Vec3, pr: Problem<Vec3>, pr': Problem<Vec3>,
                             first: Search<H, Vec3>, s: Search<H, Vec3>, r: Outcome<Vec3>, r': Outcome<Vec3>)
    requires heap.Lawful() && vol == Corridor() && near == Place(0) && far == Place(LENGTH - 1)
    requires pr == Query(vol, away, sqrt, far) && pr' == Query(vol, away', sqrt, near) && Fresh(heap, first, pr)
    requires (s, r) == Poll(heap, first, ITERS_PER_CALL, pr) && r' == Poll(heap, s, ITERS_PER_CALL, pr').1
    ensures r == Pending && r' == Unreachable
  {
    CorridorIsLine(vol);
    QueryRight(vol, away, sqrt, far, pr);
    QueryRight(vol, away', sqrt, near, pr');
    Missed(heap, pr, pr', near, far, first, s, r, r');
  }

  lemma StartReachable(vol: World, near: Vec3)
    requires vol == Corridor() && near == Place(0)
    ensures Reaches(Neighbors(vol), near, near)
  {
    CorridorIsLine(vol);
    LineReaches(Neighbors(vol), 0);
  }

  lemma Missed<H(!new)>(heap: Heap<H, Vec3>, pr: Problem<Vec3>, pr': Problem<Vec3>, near: Vec3, far: Vec3,
                        first: Search<H, Vec3>, s: Search<H, Vec3>, r: Outcome<Vec3>, r': Outcome<Vec3>)
    requires heap.Lawful() && Line(pr.neighbors) && pr'.neighbors == pr.neighbors && Fresh(heap, first, pr)
    requires near == Place(0) && far == Place(LENGTH - 1) && Only(pr, far) && Only(pr', near)
    requires (s, r) == Poll(heap, first, ITERS_PER_CALL, pr) && r' == Poll(heap, s, ITERS_PER_CALL, pr').1
    ensures r == Pending && r' == Unreachable
  {
    var all := FirstPlaces(LENGTH);
    var limit := Limit(first, ITERS_PER_CALL);
    FarEnd(heap, pr, first, limit, s, r, all);
    FewVisited(heap, s, pr.neighbors, all);
    var limit' := Limit(s, ITERS_PER_CALL);
    BackAgain(heap, s, limit', pr', all, r');
  }
}
