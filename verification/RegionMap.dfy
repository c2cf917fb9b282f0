/** `RegionMap` of `common/src/region.rs`. */
module RegionMaps {
  import opened Types
  import opened Vek
  import opened Regions
  import opened RegionIndex
  import opened RegionTick

  class RegionMap {
    var regions: seq<Slot>
    var trackedEntities: set<nat>
    var entitiesToMove: seq<Move>
    var entitiesToRemove: seq<Removal>
    var tick: nat
    /** The region of every entity. */
    ghost var loc: Places

    /** Keys are unique and neighbour entries are right. */
    ghost predicate Shape()
      reads this`regions
    {
      DistinctKeys(regions) && Linked(regions)
    }

    ghost function Now(): Map
      requires DistinctKeys(regions)
      reads this`regions
    {
      View(regions)
    }

    /** Every tracked entity lies in exactly one region, and no other entity in any. */
    ghost predicate Valid()
      reads this
    {
      Shape() && Located(Now(), loc) && trackedEntities == loc.Keys && entitiesToMove == [] && entitiesToRemove == []
    }

    constructor ()
      ensures Valid() && regions == [] && loc == map[] && tick == 0
    {
      regions, trackedEntities, entitiesToMove, entitiesToRemove, tick, loc := [], {}, [], [], 0, map[];
    }

    // ----- regions -----

    method Insert(key: Vec2) returns (index: nat)
      requires Shape() && key !in Now()
      modifies this`regions
      ensures Shape() && Now() == old(Now())[key := Body({}, [])]
      ensures KeysKept(old(regions), regions) && index == |old(regions)|
      ensures |regions| == index + 1 && regions[index].key == key
    {
      ghost var before := regions;
      LinkNone(before, key);
      index := |regions|;
      regions := regions + [Slot(key, Region({}, NO_NEIGHBORS, []))];
      var neighbors, i := NO_NEIGHBORS, 0;
      InsertStart(before, key);
      while i < 8
        invariant 0 <= i <= 8 && Inserting(before, regions, key, neighbors, i)
      {
        ghost var rs, entries := regions, neighbors;
        var found := IndexOf(regions, key.Add(Offset(i)));
        if found.Some? {
          neighbors := neighbors[i := found];
          regions := SetNeighbor(regions, found.value, Opposite(i), Some(index));
        }
        InsertRound(before, rs, key, entries, i, found, regions, neighbors);
        i := i + 1;
      }
      ghost var rs := regions;
      regions := regions[index := Slot(key, regions[index].region.(neighbors := neighbors))];
      InsertDone(before, rs, key, neighbors, regions);
    }

    /** The loop over eight neighbour entries: the regions they name get `v` as their entry for the way back. */
    method Relink(neighbors: seq<Option<nat>>, v: Option<nat>, ghost key: Vec2)
      requires DistinctKeys(regions) && Sized(regions) && |neighbors| == 8
      requires forall d :: 0 <= d < 8 ==> LinksTo(regions, key.Add(Offset(d)), neighbors[d])
      modifies this`regions
      ensures SameCells(old(regions), regions) && Patched(old(regions), regions, key, v, 8)
    {
      ghost var base := regions;
      var i := 0;
      while i < 8
        invariant 0 <= i <= 8
        invariant SameCells(base, regions) && Patched(base, regions, key, v, i)
      {
        ghost var rs := regions;
        assert LinksTo(base, key.Add(Offset(i)), neighbors[i]);
        if neighbors[i].Some? {
          regions := SetNeighbor(regions, neighbors[i].value, Opposite(i), v);
        }
        PatchRound(base, rs, key, v, i, neighbors[i], regions);
        i := i + 1;
      }
    }

    method RemoveIndex(index: nat)
      requires Shape() && index < |regions| && regions[index].region.bitset == {}
      modifies this`regions
      ensures Shape() && Now() == old(Now()) - {old(regions[index].key)} && Swapped(old(regions), regions, index)
    {
      ghost var before := regions;
      if index != |regions| - 1 {
        var movedNeighbors := regions[|regions| - 1].region.neighbors;
        EntriesLink(before, |before| - 1);
        Relink(movedNeighbors, Some(index), before[|before| - 1].key);
      }
      RemovedLinkedBut(before, regions, index);
      RemovedView(before, regions, index);
      var neighbors := regions[index].region.neighbors;
      ghost var relinked := regions;
      regions := SwapRemove(regions, index);
      ghost var mid := regions;
      Relink(neighbors, None, before[index].key);
      ClearedLinked(mid, regions, before[index].key);
      SameView(mid, regions);
      RemovalSwaps(before, relinked, index, regions);
    }

    method Remove(key: Vec2)
      requires Shape() && (key in Now() ==> Now()[key].bitset == {})
      modifies this`regions
      ensures Shape() && Now() == old(Now()) - {key}
    {
      var n := IndexOf(regions, key);
      if n.Some? {
        ViewAt(regions, n.value);
        RemoveIndex(n.value);
      } else {
        LinkNone(regions, key);
      }
    }

    // ----- entities -----

    method AddEntity(id: nat, pos: Position, from: Option<Vec2>)
      requires Shape()
      modifies this`regions
      ensures Shape() && KeysKept(old(regions), regions) && Now() == Enter(old(Now()), id, PosKey(pos), from)
    {
      var key := PosKey(pos);
      var n := IndexOf(regions, key);
      ghost var m := Now();
      if n.Some? {
        ViewAt(regions, n.value);
        Add(n.value, id, from);
        return;
      }
      LinkNone(regions, key);
      var index := Insert(key);
      ViewAt(regions, index);
      EnterFresh(m, id, key, from);
      Add(index, id, None);
    }

    /** `Region::add` in the region at an index. */
    method Add(index: nat, id: nat, from: Option<Vec2>)
      requires Shape() && index < |regions| && regions[index].key in Now()
      modifies this`regions
      ensures Shape() && KeysKept(old(regions), regions)
      ensures Now() == Enter(old(Now()), id, old(regions[index].key), from)
    {
      var r := regions[index].region;
      var b := Body(r.bitset + {id}, r.events + [Entered(id, from)]);
      ViewAt(regions, index);
      SetBodyView(regions, index, b, SetBody(regions, index, b));
      regions := SetBody(regions, index, b);
    }

    /** `Region::remove` in the region at an index. */
    method Leave(index: nat, id: nat, to: Option<Vec2>)
      requires Shape() && index < |regions| && regions[index].key in Now()
      modifies this`regions
      ensures Shape() && KeysKept(old(regions), regions)
      ensures Now() == Regions.Leave(old(Now()), id, old(regions[index].key), to)
    {
      var r := regions[index].region;
      var b := Body(r.bitset - {id}, r.events + [Left(id, to)]);
      ViewAt(regions, index);
      SetBodyView(regions, index, b, SetBody(regions, index, b));
      regions := SetBody(regions, index, b);
    }

    method ClearEvents()
      requires Shape()
      modifies this`regions
      ensures Shape() && Now() == Cleared(old(Now())) && KeysKept(old(regions), regions) && |regions| == |old(regions)|
    {
      ghost var before := regions;
      var i := 0;
      while i < |regions|
        invariant 0 <= i <= |regions| && ClearedUpTo(before, regions, i)
      {
        regions := regions[i := Slot(regions[i].key, regions[i].region.(events := []))];
        i := i + 1;
      }
      ClearedWhole(before, regions);
    }

    /** Adds the untracked entities `ids`. */
    method AddNew(ids: seq<nat>, pos: Positions, ghost was: Places, ghost existing: set<Vec2>)
      requires Shape() && Increasing(ids) && (forall id :: id in ids ==> id in pos && id !in was)
      requires loc == was && trackedEntities == loc.Keys && Ticking(Now(), was, loc, existing)
      modifies this`regions, this`trackedEntities, this`loc
      ensures Shape() && Ticking(Now(), was, loc, existing) && trackedEntities == loc.Keys
      ensures loc == Added(was, pos, ids)
    {
      var n := 0;
      while n < |ids|
        invariant 0 <= n <= |ids| && Shape() && Ticking(Now(), was, loc, existing) && trackedEntities == loc.Keys
        invariant forall id :: id in ids[n..] ==> id in pos && id !in loc
        invariant Added(loc, pos, ids[n..]) == Added(was, pos, ids)
      {
        var id := ids[n];
        NextAdded(loc, pos, ids, n);
        ghost var m, cur := Now(), loc;
        trackedEntities := trackedEntities + {id};
        AddEntity(id, pos[id], None);
        loc := loc[id := PosKey(pos[id])];
        AddStep(m, was, cur, existing, id, PosKey(pos[id]), Now());
        n := n + 1;
      }
    }

    // ----- collecting what has to change -----

    /** Decides about one entity of a region: it stays, is to be moved, or is to be removed. */
    method ScanEntity(i: nat, id: nat, pos: Positions, ghost seen: set<nat>)
      requires Shape() && Located(Now(), loc) && i < |regions| && id in regions[i].region.bitset && id !in seen
      requires Listed(regions, loc, pos, entitiesToMove, entitiesToRemove, seen)
      modifies this`entitiesToMove, this`entitiesToRemove
      ensures Listed(regions, loc, pos, entitiesToMove, entitiesToRemove, seen + {id})
    {
      ghost var moves, removals := entitiesToMove, entitiesToRemove;
      if id in pos {
        var currentRegion := regions[i].key;
        if !Stays(pos[id], currentRegion) {
          entitiesToMove := entitiesToMove + [Move(i, id, pos[id])];
        }
      } else {
        entitiesToRemove := entitiesToRemove + [Removal(i, id)];
      }
      PlaceOf(regions, loc, i, id);
      ListOne(regions, loc, pos, moves, removals, seen, i, id, entitiesToMove, entitiesToRemove);
    }

    method ScanRegion(i: nat, pos: Positions, ghost seen: set<nat>)
      requires Shape() && Located(Now(), loc) && i < |regions| && seen !! regions[i].region.bitset
      requires Listed(regions, loc, pos, entitiesToMove, entitiesToRemove, seen)
      modifies this`entitiesToMove, this`entitiesToRemove
      ensures Listed(regions, loc, pos, entitiesToMove, entitiesToRemove, seen + regions[i].region.bitset)
    {
      var bitset := regions[i].region.bitset;
      var ids, n := Ascending(bitset), 0;
      AscendingWalk(bitset);
      ghost var done := seen;
      while n < |ids|
        invariant 0 <= n <= |ids| && forall id :: id in done <==> id in seen || id in ids[..n]
        invariant Listed(regions, loc, pos, entitiesToMove, entitiesToRemove, done)
      {
        var id := ids[n];
        assert ids[..n + 1] == ids[..n] + [id];
        ScanEntity(i, id, pos, done);
        done := done + {id};
        n := n + 1;
      }
      assert ids[..n] == ids;
      assert done == seen + bitset;
    }

    method Collect(pos: Positions) returns (regionsToRemove: seq<Vec2>)
      requires Shape() && Located(Now(), loc) && entitiesToMove == [] && entitiesToRemove == []
      modifies this`entitiesToMove, this`entitiesToRemove
      ensures Listed(regions, loc, pos, entitiesToMove, entitiesToRemove, loc.Keys)
      ensures regionsToRemove == EmptyKeys(regions, |regions|)
    {
      regionsToRemove := [];
      var i := 0;
      while i < |regions|
        invariant 0 <= i <= |regions| && regionsToRemove == EmptyKeys(regions, i)
        invariant Listed(regions, loc, pos, entitiesToMove, entitiesToRemove, Scanned(regions, i))
      {
        ScannedApart(regions, loc, i);
        ScanRegion(i, pos, Scanned(regions, i));
        if Removable(BodyOf(regions[i].region)) {
          regionsToRemove := regionsToRemove + [regions[i].key];
        }
        i := i + 1;
      }
      ScannedAll(regions, loc);
    }

    // ----- changing what was collected -----

    /** In the middle of a tick that started with `was` and the regions `existing`. */
    ghost predicate InTick(was: Places, existing: set<Vec2>, drops: set<Vec2>)
      reads this`regions, this`loc
    {
      Shape() && Ticking(Now(), was, loc, existing) && Drops(Now(), drops)
    }

    method MoveEntity(move: Move, ghost was: Places, ghost existing: set<Vec2>, ghost drops: set<Vec2>)
      requires InTick(was, existing, drops) && move.src < |regions|
      requires Where(loc, move.id) == Where(was, move.id) == Some(regions[move.src].key) != Some(PosKey(move.pos))
      modifies this`regions, this`loc
      ensures InTick(was, existing, drops) && KeysKept(old(regions), regions)
      ensures loc == old(loc)[move.id := PosKey(move.pos)]
    {
      ghost var m, cur := Now(), loc;
      var prevKey := regions[move.src].key;
      ViewAt(regions, move.src);
      Leave(move.src, move.id, Some(PosKey(move.pos)));
      AddEntity(move.id, move.pos, Some(prevKey));
      loc := loc[move.id := PosKey(move.pos)];
      MoveStep(m, was, cur, existing, drops, move.id, prevKey, PosKey(move.pos), Now());
    }

    /** Moves the listed entities, the last one first. */
    method MoveListed(ghost pos: Positions, ghost was: Places, ghost existing: set<Vec2>, ghost drops: set<Vec2>)
      requires InTick(was, existing, drops) && trackedEntities == loc.Keys
      requires MovesListed(regions, loc, pos, entitiesToMove) && Unmoved(was, loc, MoveIds(entitiesToMove))
      modifies this`regions, this`entitiesToMove, this`loc
      ensures InTick(was, existing, drops) && trackedEntities == loc.Keys && KeysKept(old(regions), regions)
      ensures loc == Moved(old(loc), old(entitiesToMove)) && entitiesToMove == []
    {
      while entitiesToMove != []
        invariant InTick(was, existing, drops) && trackedEntities == loc.Keys && KeysKept(old(regions), regions)
        invariant MovesListed(regions, loc, pos, entitiesToMove) && Unmoved(was, loc, MoveIds(entitiesToMove))
        invariant Moved(loc, entitiesToMove) == Moved(old(loc), old(entitiesToMove))
        decreases |entitiesToMove|
      {
        ghost var rs, cur := regions, loc;
        var last := |entitiesToMove| - 1;
        var move := entitiesToMove[last];
        assert move.id in MoveIds(entitiesToMove);
        entitiesToMove := entitiesToMove[..last];
        MoveEntity(move, was, existing, drops);
        MovesSurvive(rs, regions, cur, loc, pos, entitiesToMove, move.id);
      }
    }

    method RemoveEntity(removal: Removal, ghost was: Places, ghost existing: set<Vec2>, ghost drops: set<Vec2>)
      requires InTick(was, existing, drops) && trackedEntities == loc.Keys
      requires removal.src < |regions|
      requires Where(loc, removal.id) == Where(was, removal.id) == Some(regions[removal.src].key)
      modifies this`regions, this`loc, this`trackedEntities
      ensures InTick(was, existing, drops) && trackedEntities == loc.Keys
      ensures KeysKept(old(regions), regions) && loc == old(loc) - {removal.id}
    {
      ghost var m, cur, key := Now(), loc, regions[removal.src].key;
      ViewAt(regions, removal.src);
      Leave(removal.src, removal.id, None);
      trackedEntities := trackedEntities - {removal.id};
      loc := loc - {removal.id};
      RemoveStep(m, was, cur, existing, drops, removal.id, key, Now());
    }

    /** Removes the listed entities, the first one first. */
    method RemoveListed(ghost pos: Positions, ghost was: Places, ghost existing: set<Vec2>, ghost drops: set<Vec2>)
      requires InTick(was, existing, drops) && trackedEntities == loc.Keys
      requires RemovalsListed(regions, loc, pos, entitiesToRemove) && Unmoved(was, loc, RemovalIds(entitiesToRemove))
      modifies this`regions, this`entitiesToRemove, this`loc, this`trackedEntities
      ensures InTick(was, existing, drops) && trackedEntities == loc.Keys
      ensures loc == Removed(old(loc), old(entitiesToRemove)) && entitiesToRemove == []
    {
      while entitiesToRemove != []
        invariant InTick(was, existing, drops) && trackedEntities == loc.Keys
        invariant RemovalsListed(regions, loc, pos, entitiesToRemove) && Unmoved(was, loc, RemovalIds(entitiesToRemove))
        invariant Removed(loc, entitiesToRemove) == Removed(old(loc), old(entitiesToRemove))
        decreases |entitiesToRemove|
      {
        ghost var rs, cur := regions, loc;
        var removal := entitiesToRemove[0];
        assert removal.id in RemovalIds(entitiesToRemove);
        entitiesToRemove := entitiesToRemove[1..];
        RemoveEntity(removal, was, existing, drops);
        RemovalsSurvive(rs, regions, cur, loc, pos, entitiesToRemove);
      }
    }

    /** Removes those of the listed regions that are still without entities and events. */
    method Prune(regionsToRemove: seq<Vec2>, ghost was: Places, ghost existing: set<Vec2>)
      requires Shape() && Located(Now(), loc) && Logged(Now(), was, loc, existing)
      requires Drops(Now(), KeySet(regionsToRemove))
      requires NoRepeats(regionsToRemove)
      modifies this`regions
      ensures Shape() && Located(Now(), loc) && Logged(Now(), was, loc, existing) && Drops(Now(), {})
    {
      var n := 0;
      while n < |regionsToRemove|
        invariant 0 <= n <= |regionsToRemove| && Shape()
        invariant Located(Now(), loc) && Logged(Now(), was, loc, existing) && Drops(Now(), KeySet(regionsToRemove[n..]))
      {
        var key := regionsToRemove[n];
        KeySetNext(regionsToRemove, n);
        DropStep(Now(), was, loc, existing, key, KeySet(regionsToRemove[n + 1..]));
        var index := IndexOf(regions, key);
        LinkNone(regions, key);
        ViewAt(regions, index.value);
        if Removable(BodyOf(regions[index.value].region)) {
          Remove(key);
        }
        n := n + 1;
      }
      assert KeySet(regionsToRemove[n..]) == {};
    }

    method Tick(pos: Positions, alive: set<nat>)
      requires Valid()
      modifies this
      ensures Valid() && tick == old(tick) + 1 && loc == NextPlaces(old(loc), pos, alive)
      ensures Logged(Now(), old(loc), loc, old(Now().Keys))
      ensures forall key :: key in Now() ==> !Removable(Now()[key])
    {
      ghost var was, existing, m := loc, Now().Keys, Now();
      tick := tick + 1;
      ClearEvents();
      ClearLogs(m, was, existing);
      var ids := Ascending(NewIds(trackedEntities, pos, alive));
      AscendingWalk(NewIds(trackedEntities, pos, alive));
      AddNew(ids, pos, was, existing);
      var regionsToRemove := Collect(pos);
      EmptyDrops(regions);
      ghost var rs, added, moves, removals := regions, loc, entitiesToMove, entitiesToRemove;
      AllUnmoved(rs, was, pos, ids, moves, removals);
      MoveListed(pos, was, existing, KeySet(regionsToRemove));
      RemovalsStand(rs, regions, was, added, pos, moves, removals);
      RemoveListed(pos, was, existing, KeySet(regionsToRemove));
      Prune(regionsToRemove, was, existing);
      PhasesCompose(was, pos, alive, ids, rs, moves, removals);
      NoDrops(Now());
    }

    // ----- lookup -----

    /** The entity lies in the region of the position or in one around it. */
    ghost predicate Close(id: nat, pos: Position)
      reads this`loc
    {
      Where(loc, id).Some? && Near(pos, Where(loc, id).value)
    }

    /** `scanned` tells whether all regions had to be looked through. */
    method FindRegion(id: nat, pos: Position) returns (r: Option<Vec2>, ghost scanned: bool)
      requires Valid()
      ensures r == Where(loc, id)
      ensures scanned <==> !Close(id, pos)
    {
      scanned := false;
      r := FindNear(id, PosKey(pos));
      if r == None {
        scanned := true;
        r := Scan(id);
      }
    }

    /** Looks into the region `key` and those around it. */
    method FindNear(id: nat, key: Vec2) returns (r: Option<Vec2>)
      requires Valid()
      ensures r.Some? ==> r == Where(loc, id)
      ensures r.Some? <==>
        Where(loc, id) == Some(key) || exists d :: 0 <= d < 8 && Where(loc, id) == Some(key.Add(Offset(d)))
    {
      var n := IndexOf(regions, key);
      HoldsAt(regions, loc, key, n, id);
      var i := 0;
      if n.Some? {
        var region := regions[n.value].region;
        if id in region.bitset {
          return Some(key);
        }
        while i < 8
          invariant 0 <= i <= 8 && forall d :: 0 <= d < i ==> Where(loc, id) != Some(key.Add(Offset(d)))
        {
          EntriesLink(regions, n.value);
          HoldsAt(regions, loc, key.Add(Offset(i)), region.neighbors[i], id);
          if region.neighbors[i].Some? {
            var slot := regions[region.neighbors[i].value];
            if id in slot.region.bitset {
              return Some(slot.key);
            }
          }
          i := i + 1;
        }
      } else {
        while i < 8
          invariant 0 <= i <= 8 && forall d :: 0 <= d < i ==> Where(loc, id) != Some(key.Add(Offset(d)))
        {
          var o := IndexOf(regions, key.Add(Offset(i)));
          HoldsAt(regions, loc, key.Add(Offset(i)), o, id);
          if o.Some? {
            if id in regions[o.value].region.bitset {
              return Some(key.Add(Offset(i)));
            }
          }
          i := i + 1;
        }
      }
      return None;
    }

    /** Looks through all regions. */
    method Scan(id: nat) returns (r: Option<Vec2>)
      requires Valid()
      ensures r == Where(loc, id)
    {
      var i := 0;
      while i < |regions|
        invariant 0 <= i <= |regions| && id !in Scanned(regions, i)
      {
        if id in regions[i].region.bitset {
          PlaceOf(regions, loc, i, id);
          return Some(regions[i].key);
        }
        i := i + 1;
      }
      ScannedAll(regions, loc);
      return None;
    }
  }
}
