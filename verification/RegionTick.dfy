/** What one tick of the region map does to the places of the entities, step by step. */
module RegionTick {
  import opened Types
  import opened Vek
  import opened Regions
  import opened RegionIndex

  type Positions = map<nat, Position>

  /**
   * After a tick exactly the entities with a position are tracked, and each is in the region it was
   * in before, if the tether allows that, and else in the region of its position.
   */
  function NextPlaces(was: Places, pos: Positions, alive: set<nat>): Places {
    map id | id in pos && (id in was || id in alive) ::
      if id in was && Stays(pos[id], was[id]) then was[id] else PosKey(pos[id])
  }

  // ----- one step -----

  /** Everyone is where `loc` says, and the logs tell the difference to `was`. */
  ghost predicate Ticking(m: Map, was: Places, loc: Places, existing: set<Vec2>) {
    Located(m, loc) && Logged(m, was, loc, existing) && existing <= m.Keys
  }

  predicate DropsAt(m: Map, drops: set<Vec2>, key: Vec2) { key in m && Removable(m[key]) ==> key in drops }

  /** The regions to be dropped are among `drops`. */
  ghost predicate Drops(m: Map, drops: set<Vec2>) { drops <= m.Keys && forall key :: DropsAt(m, drops, key) }

  lemma NoDrops(m: Map)
    requires Drops(m, {})
    ensures forall key :: key in m ==> !Removable(m[key])
  {
    forall key | key in m ensures !Removable(m[key]) { assert DropsAt(m, {}, key); }
  }

  lemma AddStep(m: Map, was: Places, loc: Places, existing: set<Vec2>, id: nat, key: Vec2, m': Map)
    requires Ticking(m, was, loc, existing) && id !in loc && id !in was && m' == Enter(m, id, key, None)
    ensures Ticking(m', was, loc[id := key], existing)
  {
    EnterLocated(m, loc, id, key, None, m');
    EnterLogged(m, was, loc, existing, id, key, m');
  }

  lemma MoveStep(m: Map, was: Places, loc: Places, existing: set<Vec2>, drops: set<Vec2>, id: nat, a: Vec2, b: Vec2,
                 m': Map)
    requires Ticking(m, was, loc, existing) && Drops(m, drops)
    requires Where(loc, id) == Some(a) && Where(was, id) == Some(a) && a in m && a != b && m' == Transfer(m, id, a, b)
    ensures Ticking(m', was, loc[id := b], existing) && Drops(m', drops)
  {
    TransferLocated(m, loc, id, a, b, m');
    TransferLogged(m, was, loc, existing, id, a, b, m');
    forall key ensures DropsAt(m', drops, key) { assert DropsAt(m, drops, key); }
  }

  lemma RemoveStep(m: Map, was: Places, loc: Places, existing: set<Vec2>, drops: set<Vec2>, id: nat, key: Vec2,
                   m': Map)
    requires Ticking(m, was, loc, existing) && Drops(m, drops)
    requires Where(loc, id) == Some(key) && Where(was, id) == Some(key) && key in m && m' == Leave(m, id, key, None)
    ensures Ticking(m', was, loc - {id}, existing) && Drops(m', drops)
  {
    LeaveLocated(m, loc, id, key, None, m');
    LeaveLogged(m, was, loc, existing, id, key, m');
    forall k ensures DropsAt(m', drops, k) { assert DropsAt(m, drops, k); }
  }

  /** A region whose log is read by nobody any more. */
  lemma DropStep(m: Map, was: Places, loc: Places, existing: set<Vec2>, key: Vec2, rest: set<Vec2>)
    requires Located(m, loc) && Logged(m, was, loc, existing) && Drops(m, rest + {key}) && key !in rest
    ensures Removable(m[key]) ==>
      Located(m - {key}, loc) && Logged(m - {key}, was, loc, existing) && Drops(m - {key}, rest)
    ensures !Removable(m[key]) ==> Drops(m, rest)
  {
    assert key in rest + {key};
    if Removable(m[key]) { DropLogged(m, was, loc, existing, key); }
    var m' := m - {key};
    forall k ensures DropsAt(m', rest, k) && (k != key ==> DropsAt(m, rest, k)) { assert DropsAt(m, rest + {key}, k); }
  }

  /** Who has a place is in a region. */
  lemma PlaceExists(m: Map, loc: Places, id: nat)
    requires Located(m, loc) && id in loc
    ensures loc[id] in m && id in m[loc[id]].bitset
  {
    assert Placed(m, loc, loc[id], id);
  }

  /** Who lies in the region at an index is placed there. */
  lemma PlaceOf(rs: seq<Slot>, loc: Places, i: nat, id: nat)
    requires DistinctKeys(rs) && Located(View(rs), loc) && i < |rs| && id in rs[i].region.bitset
    ensures Where(loc, id) == Some(rs[i].key)
  {
    ViewAt(rs, i);
    assert Placed(View(rs), loc, rs[i].key, id);
  }

  /** A lookup by key tells whether an entity is there. */
  lemma HoldsAt(rs: seq<Slot>, loc: Places, key: Vec2, n: Option<nat>, id: nat)
    requires DistinctKeys(rs) && Located(View(rs), loc) && LinksTo(rs, key, n)
    ensures Where(loc, id) == Some(key) <==> n.Some? && id in rs[n.value].region.bitset
  {
    assert Placed(View(rs), loc, key, id);
    if n.Some? { ViewAt(rs, n.value); } else { LinkNone(rs, key); }
  }

  // ----- adding -----

  function Added(loc: Places, pos: Positions, ids: seq<nat>): Places
    requires forall id :: id in ids ==> id in pos
    decreases ids
  {
    if ids == [] then loc else Added(loc[ids[0] := PosKey(pos[ids[0]])], pos, ids[1..])
  }

  lemma {:induction false} AddedAt(loc: Places, pos: Positions, ids: seq<nat>, id: nat)
    requires forall i :: i in ids ==> i in pos
    ensures Where(Added(loc, pos, ids), id) == if id in ids then Some(PosKey(pos[id])) else Where(loc, id)
    decreases ids
  {
    if ids != [] {
      assert id in ids <==> id == ids[0] || id in ids[1..];
      AddedAt(loc[ids[0] := PosKey(pos[ids[0]])], pos, ids[1..], id);
    }
  }

  lemma NextAdded(loc: Places, pos: Positions, ids: seq<nat>, n: nat)
    requires n < |ids| && forall i :: i in ids ==> i in pos
    ensures ids[n] in pos && (forall i :: i in ids[n..] ==> i in pos) && (forall i :: i in ids[n + 1..] ==> i in pos)
    ensures Added(loc, pos, ids[n..]) == Added(loc[ids[n] := PosKey(pos[ids[n]])], pos, ids[n + 1..])
  {
  }

  // ----- moving -----

  datatype Move = Move(src: nat, id: nat, pos: Position)

  function Moved(loc: Places, moves: seq<Move>): Places
    decreases moves
  {
    if moves == [] then loc
    else var m := moves[|moves| - 1]; Moved(loc[m.id := PosKey(m.pos)], moves[..|moves| - 1])
  }

  function MoveIds(moves: seq<Move>): set<nat> {
    if moves == [] then {} else MoveIds(moves[..|moves| - 1]) + {moves[|moves| - 1].id}
  }

  /** An entity that left the tether of its region, with the index of the region. */
  predicate MoveAt(rs: seq<Slot>, loc: Places, pos: Positions, m: Move) {
    && m.src < |rs| && Where(loc, m.id) == Some(rs[m.src].key)
    && m.id in pos && m.pos == pos[m.id] && !Stays(m.pos, rs[m.src].key)
  }

  /** Entities to move, each listed once. */
  ghost predicate MovesListed(rs: seq<Slot>, loc: Places, pos: Positions, moves: seq<Move>) {
    moves == [] ||
    var last := |moves| - 1;
    && MovesListed(rs, loc, pos, moves[..last]) && MoveAt(rs, loc, pos, moves[last])
    && moves[last].id !in MoveIds(moves[..last])
  }

  /** Moving another entity, or appending regions, leaves the list right. */
  lemma {:induction false} MovesSurvive(rs: seq<Slot>, rs': seq<Slot>, loc: Places, loc': Places, pos: Positions,
                                        moves: seq<Move>, id: nat)
    requires MovesListed(rs, loc, pos, moves) && KeysKept(rs, rs') && OnlyMoved(loc, loc', id) && id !in MoveIds(moves)
    ensures MovesListed(rs', loc', pos, moves)
  {
    if moves != [] {
      var m := moves[|moves| - 1];
      MovesSurvive(rs, rs', loc, loc', pos, moves[..|moves| - 1], id);
      assert Where(loc', m.id) == Where(loc, m.id);
    }
  }

  lemma {:induction false} MovedAt(rs: seq<Slot>, loc: Places, pos: Positions, moves: seq<Move>, id: nat)
    requires MovesListed(rs, loc, pos, moves)
    ensures id in MoveIds(moves) ==> id in pos
    ensures Where(Moved(loc, moves), id) == if id in MoveIds(moves) then Some(PosKey(pos[id])) else Where(loc, id)
    decreases moves
  {
    if moves != [] {
      var m := moves[|moves| - 1];
      var loc' := loc[m.id := PosKey(m.pos)];
      MovesSurvive(rs, rs, loc, loc', pos, moves[..|moves| - 1], m.id);
      MovedAt(rs, loc', pos, moves[..|moves| - 1], id);
    }
  }

  // ----- removing -----

  datatype Removal = Removal(src: nat, id: nat)

  function Removed(loc: Places, removals: seq<Removal>): Places
    decreases removals
  {
    if removals == [] then loc else Removed(loc - {removals[0].id}, removals[1..])
  }

  function RemovalIds(removals: seq<Removal>): set<nat> {
    if removals == [] then {} else {removals[0].id} + RemovalIds(removals[1..])
  }

  /** An entity without a position. */
  predicate RemovalAt(rs: seq<Slot>, loc: Places, pos: Positions, r: Removal) {
    r.src < |rs| && Where(loc, r.id) == Some(rs[r.src].key) && r.id !in pos
  }

  ghost predicate RemovalsListed(rs: seq<Slot>, loc: Places, pos: Positions, removals: seq<Removal>) {
    removals == [] ||
    var rest := removals[1..];
    RemovalsListed(rs, loc, pos, rest) && RemovalAt(rs, loc, pos, removals[0]) && removals[0].id !in RemovalIds(rest)
  }

  lemma {:induction false} RemovalsSurvive(rs: seq<Slot>, rs': seq<Slot>, loc: Places, loc': Places, pos: Positions,
                                           removals: seq<Removal>)
    requires RemovalsListed(rs, loc, pos, removals) && KeysKept(rs, rs')
    requires forall id :: id in RemovalIds(removals) ==> Where(loc', id) == Where(loc, id)
    ensures RemovalsListed(rs', loc', pos, removals)
  {
    if removals != [] {
      RemovalsSurvive(rs, rs', loc, loc', pos, removals[1..]);
      assert removals[0].id in RemovalIds(removals);
    }
  }

  lemma {:induction false} RemovedAt(loc: Places, removals: seq<Removal>, id: nat)
    ensures Where(Removed(loc, removals), id) == if id in RemovalIds(removals) then None else Where(loc, id)
    decreases removals
  {
    if removals != [] { RemovedAt(loc - {removals[0].id}, removals[1..], id); }
  }

  lemma {:induction false} AddRemoval(rs: seq<Slot>, loc: Places, pos: Positions, removals: seq<Removal>, r: Removal)
    requires RemovalsListed(rs, loc, pos, removals) && RemovalAt(rs, loc, pos, r) && r.id !in RemovalIds(removals)
    ensures RemovalsListed(rs, loc, pos, removals + [r]) && RemovalIds(removals + [r]) == RemovalIds(removals) + {r.id}
  {
    if removals == [] {
      assert removals + [r] == [r];
    } else {
      AddRemoval(rs, loc, pos, removals[1..], r);
      assert (removals + [r])[1..] == removals[1..] + [r];
    }
  }

  // ----- collecting -----

  predicate ListedAt(loc: Places, pos: Positions, moving: set<nat>, removing: set<nat>, seen: set<nat>, id: nat) {
    && (id in moving <==> id in seen && id in loc && id in pos && !Stays(pos[id], loc[id]))
    && (id in removing <==> id in seen && id in loc && id !in pos)
  }

  /** The lists hold exactly those who must be moved or removed, among the entities `seen` so far. */
  ghost predicate Listed(rs: seq<Slot>, loc: Places, pos: Positions, moves: seq<Move>, removals: seq<Removal>,
                         seen: set<nat>) {
    && MovesListed(rs, loc, pos, moves) && RemovalsListed(rs, loc, pos, removals)
    && forall id :: ListedAt(loc, pos, MoveIds(moves), RemovalIds(removals), seen, id)
  }

  /** Looking at one entity of the region at index `i`. */
  lemma ListOne(rs: seq<Slot>, loc: Places, pos: Positions, moves: seq<Move>, removals: seq<Removal>, seen: set<nat>,
                i: nat, id: nat, moves': seq<Move>, removals': seq<Removal>)
    requires Listed(rs, loc, pos, moves, removals, seen) && i < |rs| && Where(loc, id) == Some(rs[i].key) && id !in seen
    requires moves' == if id in pos && !Stays(pos[id], rs[i].key) then moves + [Move(i, id, pos[id])] else moves
    requires removals' == if id !in pos then removals + [Removal(i, id)] else removals
    ensures Listed(rs, loc, pos, moves', removals', seen + {id})
  {
    assert ListedAt(loc, pos, MoveIds(moves), RemovalIds(removals), seen, id);
    if id !in pos { AddRemoval(rs, loc, pos, removals, Removal(i, id)); }
    if id in pos && !Stays(pos[id], rs[i].key) {
      assert moves'[..|moves|] == moves;
      assert MoveIds(moves') == MoveIds(moves) + {id};
    }
    forall n ensures ListedAt(loc, pos, MoveIds(moves'), RemovalIds(removals'), seen + {id}, n) {
      assert ListedAt(loc, pos, MoveIds(moves), RemovalIds(removals), seen, n);
    }
  }

  /** The entities of the first `n` regions. */
  function Scanned(rs: seq<Slot>, n: nat): set<nat>
    requires n <= |rs|
  {
    if n == 0 then {} else Scanned(rs, n - 1) + rs[n - 1].region.bitset
  }

  lemma {:induction false} ScannedIs(rs: seq<Slot>, loc: Places, n: nat, id: nat)
    requires DistinctKeys(rs) && Located(View(rs), loc) && n <= |rs|
    ensures id in Scanned(rs, n) <==> exists j :: 0 <= j < n && Where(loc, id) == Some(rs[j].key)
  {
    if n > 0 {
      ScannedIs(rs, loc, n - 1, id);
      ViewAt(rs, n - 1);
      assert Placed(View(rs), loc, rs[n - 1].key, id);
    }
  }

  lemma ScannedApart(rs: seq<Slot>, loc: Places, n: nat)
    requires DistinctKeys(rs) && Located(View(rs), loc) && n < |rs|
    ensures Scanned(rs, n) !! rs[n].region.bitset
  {
    forall id | id in Scanned(rs, n) ensures id !in rs[n].region.bitset {
      ScannedIs(rs, loc, n, id);
      var j :| 0 <= j < n && Where(loc, id) == Some(rs[j].key);
      if id in rs[n].region.bitset {
        PlaceOf(rs, loc, n, id);
        SameKey(rs, j, n);
      }
    }
  }

  lemma ScannedAll(rs: seq<Slot>, loc: Places)
    requires DistinctKeys(rs) && Located(View(rs), loc)
    ensures Scanned(rs, |rs|) == loc.Keys
  {
    forall id: nat ensures id in Scanned(rs, |rs|) <==> id in loc {
      ScannedIs(rs, loc, |rs|, id);
      if id in loc {
        PlaceExists(View(rs), loc, id);
        var j := IndexIn(rs, loc[id]);
      }
    }
  }

  /** The keys of the regions without entities and events among the first `n`. */
  function EmptyKeys(rs: seq<Slot>, n: nat): seq<Vec2>
    requires n <= |rs|
  {
    if n == 0 then []
    else if Removable(BodyOf(rs[n - 1].region)) then EmptyKeys(rs, n - 1) + [rs[n - 1].key]
    else EmptyKeys(rs, n - 1)
  }

  lemma {:induction false} EmptyKeysAre(rs: seq<Slot>, n: nat, key: Vec2)
    requires DistinctKeys(rs) && n <= |rs|
    ensures key in EmptyKeys(rs, n) <==> exists i :: 0 <= i < n && Removable(BodyOf(rs[i].region)) && rs[i].key == key
    ensures NoRepeats(EmptyKeys(rs, n))
  {
    if n > 0 {
      EmptyKeysAre(rs, n - 1, key);
      EmptyKeysAre(rs, n - 1, rs[n - 1].key);
      if rs[n - 1].key in EmptyKeys(rs, n - 1) {
        var i :| 0 <= i < n - 1 && Removable(BodyOf(rs[i].region)) && rs[i].key == rs[n - 1].key;
        SameKey(rs, i, n - 1);
      }
    }
  }

  predicate NoRepeats(keys: seq<Vec2>) { forall i, j :: 0 <= i < j < |keys| ==> keys[i] != keys[j] }

  function KeySet(keys: seq<Vec2>): set<Vec2> { set k | k in keys }

  lemma EmptyDrops(rs: seq<Slot>)
    requires DistinctKeys(rs)
    ensures Drops(View(rs), KeySet(EmptyKeys(rs, |rs|))) && NoRepeats(EmptyKeys(rs, |rs|))
  {
    var m, drops := View(rs), KeySet(EmptyKeys(rs, |rs|));
    EmptyKeysAre(rs, |rs|, Vec2(0, 0));
    forall key ensures DropsAt(m, drops, key) {
      EmptyKeysAre(rs, |rs|, key);
      if key in m {
        var i := IndexIn(rs, key);
        ViewAt(rs, i);
      }
    }
    forall key | key in drops ensures key in m {
      EmptyKeysAre(rs, |rs|, key);
      var i :| 0 <= i < |rs| && Removable(BodyOf(rs[i].region)) && rs[i].key == key;
      ViewAt(rs, i);
    }
  }

  lemma KeySetNext(keys: seq<Vec2>, n: nat)
    requires n < |keys| && NoRepeats(keys)
    ensures KeySet(keys[n..]) == KeySet(keys[n + 1..]) + {keys[n]} && keys[n] !in KeySet(keys[n + 1..])
  {
  }

  // ----- the whole tick -----

  lemma PlacesEqual(a: Places, b: Places)
    requires forall id :: Where(a, id) == Where(b, id)
    ensures a == b
  {
    forall id | id in a ensures id in b && a[id] == b[id] { assert Where(a, id) == Where(b, id); }
    forall id | id in b ensures id in a { assert Where(a, id) == Where(b, id); }
  }

  /** Entities with a position that are not tracked yet. */
  function NewIds(tracked: set<nat>, pos: Positions, alive: set<nat>): set<nat> {
    set id | id in pos && id in alive && id !in tracked
  }

  /** Adding, moving and removing amounts to what a tick is for. */
  lemma PhasesCompose(was: Places, pos: Positions, alive: set<nat>, ids: seq<nat>,
                      rs: seq<Slot>, moves: seq<Move>, removals: seq<Removal>)
    requires forall id :: id in ids <==> id in NewIds(was.Keys, pos, alive)
    requires var added := Added(was, pos, ids); Listed(rs, added, pos, moves, removals, added.Keys)
    ensures Removed(Moved(Added(was, pos, ids), moves), removals) == NextPlaces(was, pos, alive)
  {
    var added := Added(was, pos, ids);
    var next := Removed(Moved(added, moves), removals);
    forall id: nat ensures Where(next, id) == Where(NextPlaces(was, pos, alive), id) {
      AddedAt(was, pos, ids, id);
      assert ListedAt(added, pos, MoveIds(moves), RemovalIds(removals), added.Keys, id);
      MovedAt(rs, added, pos, moves, id);
      RemovedAt(Moved(added, moves), removals, id);
    }
    PlacesEqual(next, NextPlaces(was, pos, alive));
  }

  /** Who is to be moved or removed has not just been added. */
  lemma ListedAreOld(was: Places, pos: Positions, ids: seq<nat>, id: nat)
    requires forall i :: i in ids ==> i in pos && i !in was
    ensures var added := Added(was, pos, ids);
      id in added && (id !in pos || !Stays(pos[id], added[id])) ==> Where(was, id) == Where(added, id)
  {
    AddedAt(was, pos, ids, id);
  }

  /** The entities `ids` are where they were. */
  ghost predicate Unmoved(was: Places, loc: Places, ids: set<nat>) {
    forall id :: id in ids ==> Where(loc, id) == Where(was, id)
  }

  lemma AllUnmoved(rs: seq<Slot>, was: Places, pos: Positions, ids: seq<nat>, moves: seq<Move>,
                   removals: seq<Removal>)
    requires forall i :: i in ids ==> i in pos && i !in was
    requires var added := Added(was, pos, ids); Listed(rs, added, pos, moves, removals, added.Keys)
    ensures Unmoved(was, Added(was, pos, ids), MoveIds(moves))
    ensures Unmoved(was, Added(was, pos, ids), RemovalIds(removals))
  {
    var added := Added(was, pos, ids);
    forall id: nat
      ensures id in MoveIds(moves) || id in RemovalIds(removals) ==> Where(added, id) == Where(was, id)
    {
      assert ListedAt(added, pos, MoveIds(moves), RemovalIds(removals), added.Keys, id);
      ListedAreOld(was, pos, ids, id);
    }
  }

  /** The moves leave the removals as they are listed. */
  lemma RemovalsStand(rs: seq<Slot>, rs': seq<Slot>, was: Places, loc: Places, pos: Positions, moves: seq<Move>,
                      removals: seq<Removal>)
    requires Listed(rs, loc, pos, moves, removals, loc.Keys)
    requires KeysKept(rs, rs') && Unmoved(was, loc, RemovalIds(removals))
    ensures RemovalsListed(rs', Moved(loc, moves), pos, removals)
    ensures Unmoved(was, Moved(loc, moves), RemovalIds(removals))
  {
    forall id | id in RemovalIds(removals) ensures Where(Moved(loc, moves), id) == Where(loc, id) {
      assert ListedAt(loc, pos, MoveIds(moves), RemovalIds(removals), loc.Keys, id);
      MovedAt(rs, loc, pos, moves, id);
    }
    RemovalsSurvive(rs, rs', loc, Moved(loc, moves), pos, removals);
  }

  // ----- after the tick -----

  /**
   * After a tick every entity is in the region of its position or in one of the eight around it, if
   * and only if the distance to the region it is left in, if any, can be measured in an `i32`.
   */
  lemma NextPlacesNear(was: Places, pos: Positions, alive: set<nat>, id: nat)
    requires id in NextPlaces(was, pos, alive)
    ensures Near(pos[id], NextPlaces(was, pos, alive)[id]) <==>
      (id in was && Stays(pos[id], was[id]) ==> NoOverflow(pos[id], was[id]))
  {
    if id in was && Stays(pos[id], was[id]) { StaysNear(pos[id], was[id]); }
  }

  /** Inside the square of 512 blocks of a region. */
  predicate InSquare(pos: Vec3, key: Vec2) {
    0 <= pos.x - 512 * key.x < 512 && 0 <= pos.y - 512 * key.y < 512
  }

  /** More than 16 blocks away from the corner of a region in one direction. */
  predicate OffCorner(pos: Vec3, key: Vec2) { Abs(pos.x - 512 * key.x) > 16 || Abs(pos.y - 512 * key.y) > 16 }

  /**
   * Who is tracked after a tick and where: those with a position that live or were tracked before, in the
   * region whose square they are in, or still in the one they were in before. They leave that one exactly
   * if they are outside its square and away from its corner.
   */
  lemma NextPlacesExactly(was: Places, pos: Positions, alive: set<nat>, id: nat)
    ensures id in NextPlaces(was, pos, alive) <==> id in pos && (id in was || id in alive)
    ensures id in NextPlaces(was, pos, alive) && NextPlaces(was, pos, alive)[id] != PosKey(pos[id]) ==>
      id in was && NextPlaces(was, pos, alive)[id] == was[id]
    ensures id in pos ==> InSquare(pos[id], PosKey(pos[id]))
    ensures id in pos && id in was && NoOverflow(pos[id], was[id]) ==>
      (NextPlaces(was, pos, alive)[id] != was[id] <==> !InSquare(pos[id], was[id]) && OffCorner(pos[id], was[id]))
  {
    if id in pos {
      InsideKey(pos[id].x, PosKey(pos[id]).x);
      InsideKey(pos[id].y, PosKey(pos[id]).y);
      if id in was && NoOverflow(pos[id], was[id]) {
        InsideKey(pos[id].x, was[id].x);
        InsideKey(pos[id].y, was[id].y);
        StaysExactly(pos[id], was[id]);
      }
    }
  }

  /** A second tick with the same positions changes nothing: who was switched is inside its new region. */
  lemma TickTwice(was: Places, pos: Positions, alive: set<nat>)
    ensures var next := NextPlaces(was, pos, alive); NextPlaces(next, pos, alive) == next
  {
  }

  // ----- sets in ascending order -----

  predicate Least(s: set<nat>, m: nat) { m in s && forall x :: x in s ==> m <= x }

  lemma HasLeast(s: set<nat>)
    requires s != {}
    ensures exists m :: Least(s, m)
  {
    var n :| n in s;
    if s == {n} {
      assert Least(s, n);
    } else {
      var rest := s - {n};
      HasLeast(rest);
      var m :| Least(rest, m);
      forall x | x in s ensures x == n || x in rest {}
      assert Least(s, if m < n then m else n);
    }
  }

  function Smallest(s: set<nat>): (m: nat)
    requires s != {}
    ensures Least(s, m)
  {
    HasLeast(s);
    var m :| Least(s, m);
    m
  }

  predicate Increasing(r: seq<nat>) { forall i, j :: 0 <= i < j < |r| ==> r[i] < r[j] }

  /** Bit sets are walked through from the lowest bit to the highest. */
  function Ascending(s: set<nat>): (r: seq<nat>) {
    if s == {} then [] else [Smallest(s)] + Ascending(s - {Smallest(s)})
  }

  lemma {:induction false} AscendingWalk(s: set<nat>)
    ensures (forall x :: x in Ascending(s) <==> x in s) && Increasing(Ascending(s))
  {
    if s != {} {
      var m := Smallest(s);
      var r := Ascending(s - {m});
      AscendingWalk(s - {m});
      forall i | 0 <= i < |r| ensures m < r[i] { assert r[i] in r; }
    }
  }
}
