/** How `common/src/path.rs` uses the search: walkable paths through a world of blocks. */
module PathFinding {
  import opened Types
  import opened Vek
  import opened Astars
  import opened SearchTrees
  import opened SearchCompleteness
  import opened AstarSearches

  /** What matters of a block: whether it is solid, and whether it is a whole block high. */
  datatype Block = Block(solid: bool, whole: bool)

  /** Where there is nothing to read, the volume returns an error. */
  type World = Vec3 -> Option<Block>

  type Distance = r: real | r >= 0.0

  predicate Open(b: Option<Block>) { b == None || !b.value.solid }

  /** One can stand at `pos`. */
  predicate Walkable(vol: World, pos: Vec3) {
    && (match vol(pos.Up(-1)) case None => false case Some(b) => b.solid && b.whole)
    && Open(vol(pos)) && Open(vol(pos.Up(1)))
  }

  // ----- the closest place to stand -----

  const TRIES: nat := 32

  /** The heights that are tried: 0, 1, -1, 2, -2, and so on. */
  function Height(k: nat): int { if k % 2 == 1 then (k + 1) / 2 else 0 - k / 2 }

  lemma HeightOnce(z: int) returns (k: nat)
    ensures Height(k) == z && forall j: nat :: Height(j) == z ==> j == k
    ensures k < TRIES <==> -15 <= z <= 16
  {
    k := if z > 0 then 2 * z - 1 else -2 * z;
  }

  /** The first height from the `k`-th on at which one can stand. */
  function FirstFrom(vol: World, pos: Vec3, k: nat): Option<Vec3>
    decreases TRIES - k
  {
    if k >= TRIES then None
    else if Walkable(vol, pos.Up(Height(k))) then Some(pos.Up(Height(k)))
    else FirstFrom(vol, pos, k + 1)
  }

  function Ground(vol: World, pos: Vec3): Option<Vec3> { FirstFrom(vol, pos, 0) }

  /** `y` blocks up is closer than `z`; of two heights that are as close, the upper one is preferred. */
  predicate Closer(y: int, z: int) { Abs(y) < Abs(z) || (y == -z && y > 0) }

  lemma {:induction false} FirstIs(vol: World, pos: Vec3, k: nat)
    ensures var r := FirstFrom(vol, pos, k);
      && (r == None ==> forall j :: k <= j < TRIES ==> !Walkable(vol, pos.Up(Height(j))))
      && (r.Some? ==> exists i :: FirstAt(vol, pos, k, i) && r == Some(pos.Up(Height(i))))
    decreases TRIES - k
  {
    if k < TRIES {
      if Walkable(vol, pos.Up(Height(k))) {
        assert FirstAt(vol, pos, k, k);
      } else {
        FirstIs(vol, pos, k + 1);
        if FirstFrom(vol, pos, k + 1).Some? {
          var i :| FirstAt(vol, pos, k + 1, i) && FirstFrom(vol, pos, k + 1) == Some(pos.Up(Height(i)));
          assert FirstAt(vol, pos, k, i);
        }
      }
    }
  }

  predicate FirstAt(vol: World, pos: Vec3, k: nat, i: nat) {
    k <= i < TRIES && Walkable(vol, pos.Up(Height(i))) && forall j :: k <= j < i ==> !Walkable(vol, pos.Up(Height(j)))
  }

  /** The place to stand that is closest to `pos`, among those at most 16 blocks up and 15 blocks down. */
  predicate ClosestGround(vol: World, pos: Vec3, z: int) {
    && -15 <= z <= 16 && Walkable(vol, pos.Up(z))
    && forall y :: -15 <= y <= 16 && Closer(y, z) ==> !Walkable(vol, pos.Up(y))
  }

  lemma GroundIsClosest(vol: World, pos: Vec3)
    ensures Ground(vol, pos) == None <==> forall z :: -15 <= z <= 16 ==> !Walkable(vol, pos.Up(z))
    ensures Ground(vol, pos).Some? ==> exists z :: ClosestGround(vol, pos, z) && Ground(vol, pos) == Some(pos.Up(z))
  {
    FirstIs(vol, pos, 0);
    if Ground(vol, pos).Some? {
      var i :| FirstAt(vol, pos, 0, i) && Ground(vol, pos) == Some(pos.Up(Height(i)));
      forall y | -15 <= y <= 16 && Closer(y, Height(i)) ensures !Walkable(vol, pos.Up(y)) {
        var k := HeightOnce(y);
        assert k < i;
      }
      var k := HeightOnce(Height(i));
      assert ClosestGround(vol, pos, Height(i));
    } else {
      forall z | -15 <= z <= 16 ensures !Walkable(vol, pos.Up(z)) { var k := HeightOnce(z); }
    }
  }

  /** The height after `z`, and what trying `z` decides. */
  lemma NextHeight(vol: World, pos: Vec3, k: nat, z: int)
    requires k < TRIES && z == Height(k)
    ensures Height(k + 1) == -z + if z <= 0 then 1 else 0
    ensures FirstFrom(vol, pos, k) == if Walkable(vol, pos.Up(z)) then Some(pos.Up(z)) else FirstFrom(vol, pos, k + 1)
  {
  }

  method GetWalkableZ(vol: World, pos: Vec3) returns (r: Option<Vec3>)
    ensures r == Ground(vol, pos)
  {
    ghost var ground := Ground(vol, pos);
    var zIncr := 0;
    for n := 0 to TRIES
      invariant zIncr == Height(n) && FirstFrom(vol, pos, n) == ground
    {
      NextHeight(vol, pos, n, zIncr);
      var testPos := pos.Up(zIncr);
      if Walkable(vol, testPos) {
        return Some(testPos);
      }
      zIncr := -zIncr + if zIncr <= 0 then 1 else 0;
    }
    return None;
  }

  // ----- steps -----

  const DIRS: seq<Vec3> :=
    [Vec3(0, 1, 0), Vec3(0, 1, 1), Vec3(0, 1, 2), Vec3(0, 1, -1), Vec3(0, 1, -2)]
    + [Vec3(1, 0, 0), Vec3(1, 0, 1), Vec3(1, 0, 2), Vec3(1, 0, -1), Vec3(1, 0, -2)]
    + [Vec3(0, -1, 0), Vec3(0, -1, 1), Vec3(0, -1, 2), Vec3(0, -1, -1), Vec3(0, -1, -2)]
    + [Vec3(-1, 0, 0), Vec3(-1, 0, 1), Vec3(-1, 0, 2), Vec3(-1, 0, -1), Vec3(-1, 0, -2)]
    + [Vec3(0, 0, -1)]

  /** One can go from `pos` in direction `dir`: there is room to stand at both ends, and to climb or to drop. */
  predicate Passable(vol: World, pos: Vec3, dir: Vec3) {
    && Walkable(vol, pos) && Walkable(vol, pos.Add(dir))
    && (dir.z < 1 || Open(vol(pos.Up(2))))
    && (dir.z < 2 || Open(vol(pos.Up(3))))
    && (dir.z >= 0 || Open(vol(pos.Add(dir).Up(2))))
  }

  function Steps(vol: World, pos: Vec3, dirs: seq<Vec3>): seq<Vec3> {
    if dirs == [] then []
    else (if Passable(vol, pos, dirs[0]) then [pos.Add(dirs[0])] else []) + Steps(vol, pos, dirs[1..])
  }

  function Neighbors(vol: World): Vec3 -> seq<Vec3> { pos => Steps(vol, pos, DIRS) }

  predicate StepAlong(vol: World, a: Vec3, b: Vec3, dir: Vec3) { b == a.Add(dir) && Passable(vol, a, dir) }

  lemma {:induction false} StepsAre(vol: World, pos: Vec3, dirs: seq<Vec3>, n: Vec3)
    ensures n in Steps(vol, pos, dirs) <==> exists dir :: dir in dirs && StepAlong(vol, pos, n, dir)
  {
    if dirs != [] {
      StepsAre(vol, pos, dirs[1..], n);
      assert dirs == [dirs[0]] + dirs[1..];
      if Passable(vol, pos, dirs[0]) && n == pos.Add(dirs[0]) { assert StepAlong(vol, pos, n, dirs[0]); }
    }
  }

  /** One step to a side, at most two up or down. */
  predicate Sideways(dir: Vec3) { Abs(dir.x) + Abs(dir.y) == 1 && Abs(dir.z) <= 2 }

  /** The five directions of one side, from `row` on. */
  lemma RowListed(dir: Vec3, row: nat)
    requires row + 5 <= |DIRS| && Abs(dir.z) <= 2
    requires DIRS[row..row + 5] == [Vec3(dir.x, dir.y, 0), Vec3(dir.x, dir.y, 1), Vec3(dir.x, dir.y, 2)]
                                   + [Vec3(dir.x, dir.y, -1), Vec3(dir.x, dir.y, -2)]
    ensures dir in DIRS
  {
    var k := if dir.z >= 0 then dir.z else 2 - dir.z;
    assert DIRS[row..row + 5][k] == dir;
    assert DIRS[row + k] == DIRS[row..row + 5][k];
  }

  lemma SidewaysListed(dir: Vec3)
    requires Sideways(dir)
    ensures dir in DIRS
  {
    if dir.y == 1 {
      RowListed(dir, 0);
    } else if dir.x == 1 {
      RowListed(dir, 5);
    } else if dir.y == -1 {
      RowListed(dir, 10);
    } else {
      RowListed(dir, 15);
    }
  }

  lemma ListedSideways(dir: Vec3)
    requires dir in DIRS
    ensures Sideways(dir) || dir == Vec3(0, 0, -1)
  {
  }

  /** Nothing solid in the column of `pos` from height `low` to height `high`. */
  ghost predicate Free(vol: World, pos: Vec3, low: int, high: int) {
    forall z :: low <= z <= high ==> Open(vol(Vec3(pos.x, pos.y, z)))
  }

  /** A whole solid block under the feet. */
  predicate Floor(vol: World, pos: Vec3) { vol(Vec3(pos.x, pos.y, pos.z - 1)) == Some(Block(true, true)) }

  /**
   * Where one can walk in one step: to a place with a floor next to this one, not more than two blocks
   * up or down, if there is nothing in the way. Two blocks must be free at both ends. Before a climb all
   * that is passed on the way up must be free as well, and for a drop a third block at the new place; for
   * a drop of two the fourth one, through which the head would go first, need not be.
   */
  ghost predicate CanWalk(vol: World, a: Vec3, b: Vec3) {
    && Floor(vol, a) && Floor(vol, b)
    && Abs(b.x - a.x) + Abs(b.y - a.y) == 1 && -2 <= b.z - a.z <= 2
    && Free(vol, a, a.z, (if b.z > a.z then b.z else a.z) + 1)
    && Free(vol, b, b.z, b.z + if b.z < a.z then 2 else 1)
  }

  lemma WalkableMeans(vol: World, pos: Vec3)
    ensures Walkable(vol, pos) <==> Floor(vol, pos) && Free(vol, pos, pos.z, pos.z + 1)
  {
    assert pos.Up(0) == pos == Vec3(pos.x, pos.y, pos.z);
    assert pos.Up(1) == Vec3(pos.x, pos.y, pos.z + 1);
  }

  lemma PassableMeans(vol: World, a: Vec3, b: Vec3, dir: Vec3)
    requires b == a.Add(dir) && Sideways(dir)
    ensures Passable(vol, a, dir) <==> CanWalk(vol, a, b)
  {
    WalkableMeans(vol, a);
    WalkableMeans(vol, b);
    assert a.Up(2) == Vec3(a.x, a.y, a.z + 2) && a.Up(3) == Vec3(a.x, a.y, a.z + 3);
    assert b.Up(2) == Vec3(b.x, b.y, b.z + 2);
  }

  /** Straight down one comes into the floor: that direction is never taken. */
  lemma NeverStraightDown(vol: World, a: Vec3)
    ensures !Passable(vol, a, Vec3(0, 0, -1))
  {
    assert a.Add(Vec3(0, 0, -1)) == a.Up(-1);
  }

  /** The neighbours of a place are exactly the places where one can walk in one step. */
  lemma StepsExactly(vol: World, a: Vec3, b: Vec3)
    ensures b in Neighbors(vol)(a) <==> CanWalk(vol, a, b)
  {
    StepsAre(vol, a, DIRS, b);
    var dir := Vec3(b.x - a.x, b.y - a.y, b.z - a.z);
    assert forall d: Vec3 :: b == a.Add(d) ==> d == dir;
    NeverStraightDown(vol, a);
    if dir in DIRS { ListedSideways(dir); }
    if Sideways(dir) {
      SidewaysListed(dir);
      PassableMeans(vol, a, b, dir);
      assert Passable(vol, a, dir) ==> StepAlong(vol, a, b, dir);
    }
  }

  /** A path on which one can walk: every node is a place to stand, and every step can be walked. */
  ghost predicate WalkablePath(vol: World, path: seq<Vec3>) {
    && (forall i :: 0 <= i < |path| ==> Walkable(vol, path[i]))
    && forall i :: 0 < i < |path| ==> CanWalk(vol, path[i - 1], path[i])
  }

  lemma WalkIsWalkable(vol: World, path: seq<Vec3>, start: Vec3)
    requires Walk(Neighbors(vol), path, start) && Walkable(vol, start)
    ensures WalkablePath(vol, path)
  {
    forall i | 0 < i < |path| ensures CanWalk(vol, path[i - 1], path[i]) && Walkable(vol, path[i]) {
      assert Edge(Neighbors(vol), path[i - 1], path[i]);
      StepsExactly(vol, path[i - 1], path[i]);
      WalkableMeans(vol, path[i]);
    }
  }

  // ----- the search -----

  /** `crow_line.distance_to_point` is `away`: straight paths are preferred, and steep climbs avoided. */
  function Transition(away: Vec2 -> Distance, a: Vec3, b: Vec3): (t: real)
    ensures t >= 1.0
  {
    1.0 + away(b.XY()) * 0.025 + Max(b.z - a.z - 1, 0) as real * 10.0
  }

  /** For the same distance from the line, a climb of two blocks costs 10 more than any other step. */
  lemma ClimbCosts(away: Vec2 -> Distance, a: Vec3, b: Vec3, c: Vec3, d: Vec3)
    requires Abs(b.z - a.z) <= 2 && Abs(d.z - c.z) <= 2 && away(b.XY()) == away(d.XY())
    ensures b.z - a.z == 2 && d.z - c.z < 2 ==> Transition(away, a, b) == Transition(away, c, d) + 10.0
    ensures (b.z - a.z == 2 <==> d.z - c.z == 2) ==> Transition(away, a, b) == Transition(away, c, d)
  {
  }

  /** A step that is no climb of two costs 1 on the line, and 1/40 more for each block that it leads away from it. */
  lemma StrayCosts(away: Vec2 -> Distance, a: Vec3, b: Vec3)
    requires b.z - a.z < 2
    ensures 40.0 * (Transition(away, a, b) - 1.0) == away(b.XY())
  {
  }

  function DistanceSquared(a: Vec3, b: Vec3): nat {
    Square(a.x - b.x) + Square(a.y - b.y) + Square(a.z - b.z)
  }

  function Square(n: int): nat { Abs(n) * Abs(n) }

  function Query(vol: World, away: Vec2 -> Distance, sqrt: nat -> real, end: Vec3): Problem<Vec3> {
    Problem(pos => sqrt(DistanceSquared(pos, end)), Neighbors(vol), (a, b) => Transition(away, a, b), pos => pos == end)
  }

  lemma SquareIs(n: int)
    ensures Square(n) == n * n
  {
  }

  /** The heuristic is the straight distance to the target. */
  lemma HeuristicIs(vol: World, away: Vec2 -> Distance, sqrt: nat -> real, end: Vec3, n: Vec3, d: nat)
    requires d == (n.x - end.x) * (n.x - end.x) + (n.y - end.y) * (n.y - end.y) + (n.z - end.z) * (n.z - end.z)
    ensures Query(vol, away, sqrt, end).heuristic(n) == sqrt(d)
  {
    SquareIs(n.x - end.x);
    SquareIs(n.y - end.y);
    SquareIs(n.z - end.z);
    assert d == DistanceSquared(n, end);
  }

  /** The only goal is `end`. */
  ghost predicate Only(pr: Problem<Vec3>, end: Vec3) { forall n :: pr.satisfied(n) <==> n == end }

  lemma QueryRight(vol: World, away: Vec2 -> Distance, sqrt: nat -> real, end: Vec3, pr: Problem<Vec3>)
    requires pr == Query(vol, away, sqrt, end)
    ensures pr.neighbors == Neighbors(vol) && NonNegative(pr.transition) && Only(pr, end)
  {
  }

  const MAX_ITERS: nat := 25_000
  const ITERS_PER_CALL: nat := 100

  /** The search was begun at `origin`, and has not found anything yet. */
  ghost predicate Searching<H(!new)>(heap: Heap<H, Vec3>, s: Search<H, Vec3>, origin: Vec3, nbrs: Vec3 -> seq<Vec3>) {
    Sound(heap, s, origin, nbrs) && Explored(heap, s, nbrs) && s.maxIters == MAX_ITERS
  }

  /** It was begun in this world, at a place to stand. */
  ghost predicate Resumable<H(!new)>(astar: Option<Astar<H, Vec3>>, vol: World)
    reads if astar.Some? then {astar.value} else {}
  {
    astar.Some? ==>
      && Searching(astar.value.heap, astar.value.Now(), astar.value.start, Neighbors(vol))
      && Walkable(vol, astar.value.start)
  }

  /** The path can be walked, from the place where its search was begun. */
  ghost predicate From(vol: World, path: seq<Vec3>, start: Vec3) {
    WalkablePath(vol, path) && (path != [] ==> path[0] == start)
  }

  lemma PathFrom<H(!new)>(s: Search<H, Vec3>, start: Vec3, vol: World, path: seq<Vec3>, node: Option<Vec3>)
    requires Tree(s, start, Neighbors(vol)) && Walkable(vol, start) && PathTo(s.cameFrom, path, node)
    requires node.Some? ==> node.value in s.visited
    ensures From(vol, path, start) && (node.Some? ==> path != [] && path[|path| - 1] == node.value)
  {
    if node.Some? {
      TraceIsWalk(s, start, Neighbors(vol), path, node.value);
      WalkIsWalkable(vol, path, start);
    }
  }

  /** Every path returned can be walked, and a complete one leads to the goal. */
  lemma ResultFrom<H(!new)>(s: Search<H, Vec3>, start: Vec3, vol: World, pr: Problem<Vec3>, end: Vec3,
                            outcome: Outcome<Vec3>, result: PathResult<Vec3>)
    requires Tree(s, start, Neighbors(vol)) && Walkable(vol, start) && Reports(s, outcome, result)
    requires outcome.Found? ==> outcome.node in s.visited && outcome.node == end
    ensures From(vol, PathOf(result), start)
    ensures result.Path? ==> PathOf(result) != [] && PathOf(result)[|PathOf(result)| - 1] == end
  {
    match result
    case Path(p) => PathFrom(s, start, vol, p, Some(outcome.node));
    case NoPath(p) => PathFrom(s, start, vol, p, s.cheapestNode);
    case ExhaustedPath(p) => PathFrom(s, start, vol, p, s.cheapestNode);
    case PendingPath =>
  }

  /**
   * What a call finds, and what it means when it gives up, whatever targets the search had before. It
   * runs out of iterations only if all those of the search are used up.
   */
  ghost predicate Decided<H(!new)>(nbrs: Vec3 -> seq<Vec3>, heap: Heap<H, Vec3>, s: Search<H, Vec3>, origin: Vec3,
                                   end: Vec3, r: Outcome<Vec3>)
  {
    && (s.iter + 100 < 25_000 ==> r != Exhausted)
    && (r == Unreachable ==> (Reaches(nbrs, origin, end) <==> end in Expanded(heap, s)))
    && (r.Found? ==> end !in Expanded(heap, s))
  }

  lemma CallDecides<H(!new)>(heap: Heap<H, Vec3>, s: Search<H, Vec3>, origin: Vec3, end: Vec3, pr: Problem<Vec3>,
                             s': Search<H, Vec3>, r: Outcome<Vec3>)
    requires Searching(heap, s, origin, pr.neighbors)
    requires Only(pr, end)
    requires (s', r) == Poll(heap, s, ITERS_PER_CALL, pr)
    ensures Decided(pr.neighbors, heap, s, origin, end, r)
  {
    var limit := Limit(s, ITERS_PER_CALL);
    if r == Unreachable { NoneIsUnreachable(heap, s, limit, pr, origin, end, s', r); }
    if r.Found? { FoundIsNew(heap, s, limit, pr); }
    if s.iter + ITERS_PER_CALL < MAX_ITERS { RunStopsAt(heap, s, limit, pr); }
  }

  /** A call does 100 iterations, unless it ends the search; and a search 25000 in all its calls. */
  lemma CallCounts<H(!new)>(heap: Heap<H, Vec3>, s: Search<H, Vec3>, pr: Problem<Vec3>, s': Search<H, Vec3>,
                            r: Outcome<Vec3>)
    requires (s', r) == Poll(heap, s, ITERS_PER_CALL, pr) && s.maxIters == MAX_ITERS && s.iter <= MAX_ITERS
    ensures r == Pending ==> s'.iter == s.iter + 100 < 25_000
    ensures r == Exhausted ==> s'.iter == 25_000 <= s.iter + 100
    ensures r == Unreachable || r.Found? ==> s.iter <= s'.iter < s.iter + 100 && s'.iter < 25_000
  {
    PollCounts(heap, s, ITERS_PER_CALL, pr, s', r);
  }

  /** A path is returned unless the search is to be continued, and it is complete if a goal was found. */
  predicate Matches(r: Outcome<Vec3>, path: Option<seq<Vec3>>, complete: bool) {
    (path == None <==> r == Pending) && (complete <==> r.Found?)
  }

  /**
   * What `find_path` answers to a search in the state `s` that was begun at `origin` and now looks for
   * `end`. An incomplete path is returned although `end` can be reached exactly if the search had
   * expanded `end` when it looked for another place, or has used up its iterations.
   */
  ghost predicate Answers<H(!new)>(nbrs: Vec3 -> seq<Vec3>, heap: Heap<H, Vec3>, s: Search<H, Vec3>, origin: Vec3,
                                   end: Vec3, path: Option<seq<Vec3>>, complete: bool)
  {
    && (complete ==> end !in Expanded(heap, s))
    && (path.Some? && !complete && s.iter + 100 < 25_000 ==>
          (Reaches(nbrs, origin, end) <==> end in Expanded(heap, s)))
  }

  /** The path can be walked, and a complete one leads to `end`. */
  ghost predicate Leads(vol: World, origin: Vec3, end: Vec3, path: Option<seq<Vec3>>, complete: bool) {
    && (path.Some? ==> From(vol, path.value, origin))
    && (complete ==> path.Some? && path.value != [] && path.value[|path.value| - 1] == end)
  }

  /** The state of the search that is to be continued, if any. */
  ghost function Prior<H(!new)>(astar: Option<Astar<H, Vec3>>): Option<Search<H, Vec3>>
    reads if astar.Some? then {astar.value} else {}
  {
    if astar.Some? then Some(astar.value.Now()) else None
  }

  /** The state in which the search goes on: that of a new one if there is none. */
  ghost function Begun<H(!new)>(heap: Heap<H, Vec3>, prior: Option<Search<H, Vec3>>, start: Vec3, h: real)
    : Search<H, Vec3>
  {
    if prior.Some? then prior.value else Start(heap, MAX_ITERS, start, h)
  }

  ghost function Origin<H(!new)>(astar: Option<Astar<H, Vec3>>, start: Vec3): Vec3 {
    if astar.Some? then astar.value.start else start
  }

  /** What is said about one call of `poll`. */
  ghost predicate Polled<H(!new)>(vol: World, heap: Heap<H, Vec3>, s: Search<H, Vec3>, origin: Vec3, end: Vec3,
                                  pr: Problem<Vec3>, path: Option<seq<Vec3>>, complete: bool) {
    && Leads(vol, origin, end, path, complete) && Answers(Neighbors(vol), heap, s, origin, end, path, complete)
    && Matches(Poll(heap, s, ITERS_PER_CALL, pr).1, path, complete)
  }

  /** The path of a result, and whether it is complete. */
  predicate Returned(result: PathResult<Vec3>, path: Option<seq<Vec3>>, complete: bool) {
    match result
    case Path(p) => path == Some(p) && complete
    case PendingPath => path == None && !complete
    case _ => path == Some(result.path) && !complete
  }

  lemma SearchGoesOn<H(!new)>(heap: Heap<H, Vec3>, s: Search<H, Vec3>, origin: Vec3, pr: Problem<Vec3>,
                              r: Outcome<Vec3>, s': Search<H, Vec3>)
    requires Searching(heap, s, origin, pr.neighbors) && NonNegative(pr.transition)
    requires (s', r) == Poll(heap, s, ITERS_PER_CALL, pr) && r == Pending
    ensures Searching(heap, s', origin, pr.neighbors)
  {
    PollKeeps(heap, s, ITERS_PER_CALL, pr, origin, s', r);
  }

  lemma ReturnedLeads<H(!new)>(vol: World, s: Search<H, Vec3>, origin: Vec3, end: Vec3, pr: Problem<Vec3>,
                               r: Outcome<Vec3>, result: PathResult<Vec3>, path: Option<seq<Vec3>>, complete: bool)
    requires Tree(s, origin, Neighbors(vol)) && Walkable(vol, origin) && Reports(s, r, result)
    requires (r.Found? ==> r.node in s.visited && r.node == end) && Returned(result, path, complete)
    ensures Leads(vol, origin, end, path, complete) && Matches(r, path, complete)
  {
    ResultFrom(s, origin, vol, pr, end, r, result);
  }

  /** What is known of an outcome is what the answer says. */
  lemma OutcomeAnswers<H(!new)>(nbrs: Vec3 -> seq<Vec3>, heap: Heap<H, Vec3>, s: Search<H, Vec3>, origin: Vec3,
                                end: Vec3, r: Outcome<Vec3>, path: Option<seq<Vec3>>, complete: bool)
    requires Matches(r, path, complete) && Decided(nbrs, heap, s, origin, end, r)
    ensures Answers(nbrs, heap, s, origin, end, path, complete)
  {
  }

  lemma PollConcludes<H(!new)>(vol: World, heap: Heap<H, Vec3>, s: Search<H, Vec3>, origin: Vec3, end: Vec3,
                               pr: Problem<Vec3>, r: Outcome<Vec3>, s': Search<H, Vec3>, result: PathResult<Vec3>,
                               path: Option<seq<Vec3>>, complete: bool)
    requires Searching(heap, s, origin, pr.neighbors) && NonNegative(pr.transition)
    requires pr.neighbors == Neighbors(vol) && Walkable(vol, origin) && Only(pr, end)
    requires (s', r) == Poll(heap, s, ITERS_PER_CALL, pr) && Reports(s', r, result) && Returned(result, path, complete)
    ensures path == None ==> Searching(heap, s', origin, pr.neighbors)
    ensures Polled(vol, heap, s, origin, end, pr, path, complete)
  {
    PollKeeps(heap, s, ITERS_PER_CALL, pr, origin, s', r);
    ReturnedLeads(vol, s', origin, end, pr, r, result, path, complete);
    CallDecides(heap, s, origin, end, pr, s', r);
    OutcomeAnswers(pr.neighbors, heap, s, origin, end, r, path, complete);
    if r == Pending { SearchGoesOn(heap, s, origin, pr, r, s'); }
  }

  method FindPath<H(!new)>(heap: Heap<H, Vec3>, astar: Option<Astar<H, Vec3>>, vol: World, startPos: Vec3,
                           endPos: Vec3,
                           away: Vec2 -> Distance, sqrt: nat -> real)
    returns (path: Option<seq<Vec3>>, complete: bool, astar': Option<Astar<H, Vec3>>)
    requires heap.Lawful() && Resumable(astar, vol) && (astar.Some? ==> astar.value.heap == heap)
    modifies if astar.Some? then {astar.value} else {}
    ensures Resumable(astar', vol) && (astar'.Some? ==> astar'.value.heap == heap)
    ensures Ground(vol, startPos) == None || Ground(vol, endPos) == None ==>
      path == None && !complete && astar' == astar
    ensures Ground(vol, startPos).Some? && Ground(vol, endPos).Some? ==>
      var start, end := Ground(vol, startPos).value, Ground(vol, endPos).value;
      var pr := Query(vol, away, sqrt, end);
      && (path.Some? <==> astar' == None)
      && Polled(vol, heap, Begun(heap, old(Prior(astar)), start, pr.heuristic(start)), Origin(astar, start), end, pr,
                path, complete)
  {
    var start := GetWalkableZ(vol, startPos);
    var end := GetWalkableZ(vol, endPos);
    if start == None || end == None {
      return None, false, astar;
    }
    var newAstar;
    match astar {
      case None =>
        GroundIsClosest(vol, startPos);
        newAstar := new Astar(heap, MAX_ITERS, start.value, Query(vol, away, sqrt, end.value));
      case Some(a) =>
        newAstar := a;
    }
    path, complete := PollFor(newAstar, vol, away, sqrt, end.value);
    astar' := if path.Some? then None else Some(newAstar);
  }

  /** Polling with the closures of `find_path`, and what its result is turned into. */
  method PollFor<H(!new)>(astar: Astar<H, Vec3>, vol: World, away: Vec2 -> Distance, sqrt: nat -> real, end: Vec3)
    returns (path: Option<seq<Vec3>>, complete: bool)
    requires Searching(astar.heap, astar.Now(), astar.start, Neighbors(vol)) && Walkable(vol, astar.start)
    modifies astar
    ensures path == None ==> Searching(astar.heap, astar.Now(), astar.start, Neighbors(vol))
    ensures Polled(vol, astar.heap, old(astar.Now()), astar.start, end, Query(vol, away, sqrt, end), path, complete)
  {
    var pr := Query(vol, away, sqrt, end);
    QueryRight(vol, away, sqrt, end, pr);
    ghost var s := astar.Now();
    var result, outcome := astar.Poll(ITERS_PER_CALL, pr);
    match result {
      case Path(p) => path, complete := Some(p), true;
      case NoPath(p) => path, complete := Some(p), false;
      case ExhaustedPath(p) => path, complete := Some(p), false;
      case PendingPath => path, complete := None, false;
    }
    PollConcludes(vol, astar.heap, s, astar.start, end, pr, outcome, astar.Now(), result, path, complete);
  }
}
