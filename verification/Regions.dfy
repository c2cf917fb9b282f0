/** Regions and the events a tick logs in them (`common/src/region.rs`), independent of how they are stored. */
module Regions {
  import opened Types
  import opened Vek

  /** How far an entity may be from a region's corner before it is switched to another region. */
  const TETHER_LENGTH: nat := 16
  /** The region size in blocks, `1 << REGION_LOG2`. */
  const REGION_SIZE: nat := 512

  datatype Event =
    | Left(id: nat, to: Option<Vec2>)
    | Entered(id: nat, from: Option<Vec2>)

  // ----- positions and keys -----

  predicate InI32(n: int) { -0x8000_0000 <= n < 0x8000_0000 }

  /** A position in blocks, after the cast to `i32`. */
  type Position = p: Vec3 | InI32(p.x) && InI32(p.y) && InI32(p.z) witness Vec3(0, 0, 0)

  /** `e >> REGION_LOG2`: an arithmetic shift rounds down. */
  function PosKey(pos: Vec3): Vec2 { Vec2(pos.x / REGION_SIZE, pos.y / REGION_SIZE) }

  /** `e << REGION_LOG2`: the lower left corner of the region. */
  function KeyPos(key: Vec2): Vec2 { Vec2(key.x * REGION_SIZE, key.y * REGION_SIZE) }

  /** The result of an `i32` operation that wraps around. */
  function Wrap32(n: int): int { (n + 0x8000_0000) % 0x1_0000_0000 - 0x8000_0000 }

  /** The distance that decides about a switch, with the wrap-around of `i32` subtraction. */
  function Distance(pos: Vec3, key: Vec2): nat {
    var corner := KeyPos(key);
    Max(Abs(Wrap32(pos.x - corner.x)), Abs(Wrap32(pos.y - corner.y)))
  }

  /** An entity of region `key` at `pos` is left where it is. */
  predicate Stays(pos: Vec3, key: Vec2) { PosKey(pos) == key || Distance(pos, key) <= TETHER_LENGTH }

  /** Offsets of the neighbours, counter-clockwise. */
  function Offset(d: nat): Vec2
    requires d < 8
  {
    match d
    case 0 => Vec2(0, 1)
    case 1 => Vec2(-1, 1)
    case 2 => Vec2(-1, 0)
    case 3 => Vec2(-1, -1)
    case 4 => Vec2(0, -1)
    case 5 => Vec2(1, -1)
    case 6 => Vec2(1, 0)
    case _ => Vec2(1, 1)
  }

  function Opposite(d: nat): (e: nat)
    requires d < 8
    ensures e < 8
  {
    (d + 4) % 8
  }

  lemma OffsetOpposite(d: nat)
    requires d < 8
    ensures Opposite(Opposite(d)) == d
    ensures Offset(Opposite(d)).Add(Offset(d)) == Vec2(0, 0)
  {
  }

  /** The region is the one of the position or one of its eight neighbours. */
  predicate Near(pos: Vec3, key: Vec2) {
    key == PosKey(pos) || exists d :: 0 <= d < 8 && key == PosKey(pos).Add(Offset(d))
  }

  /** The subtraction that measures the distance does not overflow. */
  predicate NoOverflow(pos: Vec3, key: Vec2) {
    InI32(pos.x - KeyPos(key).x) && InI32(pos.y - KeyPos(key).y)
  }

  lemma OffsetInRange(dx: int, dy: int) returns (d: nat)
    requires -1 <= dx <= 1 && -1 <= dy <= 1 && (dx != 0 || dy != 0)
    ensures d < 8 && Offset(d) == Vec2(dx, dy)
  {
    d := if dx == 0 then (if dy == 1 then 0 else 4)
         else if dx == -1 then (if dy == 1 then 1 else if dy == 0 then 2 else 3)
         else (if dy == -1 then 5 else if dy == 0 then 6 else 7);
  }

  lemma WrapsNot(n: int)
    requires InI32(n)
    ensures Wrap32(n) == n
  {
  }

  lemma DistanceExact(pos: Position, key: Vec2)
    requires NoOverflow(pos, key)
    ensures Distance(pos, key) == Max(Abs(pos.x - KeyPos(key).x), Abs(pos.y - KeyPos(key).y))
  {
    WrapsNot(pos.x - KeyPos(key).x);
    WrapsNot(pos.y - KeyPos(key).y);
  }

  /** A coordinate within the tether of a region's edge lies in that region or in the one below. */
  lemma CloseKeys(n: int, k: int)
    requires Abs(n - k * REGION_SIZE) <= TETHER_LENGTH
    ensures k - 1 <= n / REGION_SIZE <= k
  {
  }

  lemma NearInRange(n: int, k: int)
    requires -1 <= k - n / REGION_SIZE <= 1
    ensures InI32(n - k * REGION_SIZE)
  {
  }

  /**
   * An entity that is left where it is stays next to its position, exactly as long as the distance
   * can be measured in an `i32`.
   */
  lemma StaysNear(pos: Position, key: Vec2)
    requires Stays(pos, key)
    ensures Near(pos, key) <==> NoOverflow(pos, key)
  {
    var home := PosKey(pos);
    if Near(pos, key) {
      NearInRange(pos.x, key.x);
      NearInRange(pos.y, key.y);
    }
    if NoOverflow(pos, key) && home != key {
      DistanceExact(pos, key);
      CloseKeys(pos.x, key.x);
      CloseKeys(pos.y, key.y);
      var d := OffsetInRange(key.x - home.x, key.y - home.y);
      assert key == home.Add(Offset(d));
    }
  }

  /** Across the whole width of the world the measured distance wraps around to a small one. */
  lemma OverflowExample()
    ensures var pos, key := Vec3(0x7FFF_FFFF, 0, 0), Vec2(-0x40_0000, 0);
      Stays(pos, key) && !Near(pos, key)
  {
    var pos, key := Vec3(0x7FFF_FFFF, 0, 0), Vec2(-0x40_0000, 0);
    assert PosKey(pos) == Vec2(0x3F_FFFF, 0);
    assert pos.x - KeyPos(key).x == 0xFFFF_FFFF;
    assert Wrap32(0xFFFF_FFFF) == -1;
    assert Distance(pos, key) == 1;
  }

  /** How far a position lies outside a region. */
  function Outside(pos: Vec3, key: Vec2): nat {
    var corner := KeyPos(key);
    Max(Max(Max(corner.x - pos.x, pos.x - (corner.x + REGION_SIZE as int - 1)), 0),
        Max(Max(corner.y - pos.y, pos.y - (corner.y + REGION_SIZE as int - 1)), 0))
  }

  /**
   * The tether is measured from the region's corner, not from its border as documented: whoever
   * is kept is close to the border, and those who are close to the border but switched all the same
   * are exactly those outside it and more than the tether away from the corner.
   */
  lemma TetherFromCorner(pos: Position, key: Vec2)
    requires NoOverflow(pos, key)
    ensures Stays(pos, key) ==> Outside(pos, key) <= TETHER_LENGTH
    ensures Outside(pos, key) <= TETHER_LENGTH && !Stays(pos, key) <==>
      && 0 < Outside(pos, key) <= TETHER_LENGTH
      && Max(Abs(pos.x - KeyPos(key).x), Abs(pos.y - KeyPos(key).y)) > TETHER_LENGTH
  {
    DistanceExact(pos, key);
    InsideKey(pos.x, key.x);
    InsideKey(pos.y, key.y);
  }

  /**
   * Who is left in a region, in blocks: those inside its square of 512 blocks, and those at most 16 blocks
   * away from its corner in both directions. So beyond the lower border an entity is kept up to 16 blocks
   * out, but only in the first 17 blocks along that border.
   */
  lemma StaysExactly(pos: Position, key: Vec2)
    requires NoOverflow(pos, key)
    ensures var x, y := pos.x - 512 * key.x, pos.y - 512 * key.y;
      Stays(pos, key) <==> (0 <= x < 512 && 0 <= y < 512) || (-16 <= x <= 16 && -16 <= y <= 16)
  {
    DistanceExact(pos, key);
    InsideKey(pos.x, key.x);
    InsideKey(pos.y, key.y);
  }

  /** One block beyond the border, and switched: the region's far side is more than the tether from its corner. */
  lemma TetherExample()
    ensures var pos, key := Vec3(512, 0, 0), Vec2(0, 0);
      Outside(pos, key) == 1 && !Stays(pos, key) && NoOverflow(pos, key)
  {
    WrapsNot(512);
    WrapsNot(0);
  }

  lemma InsideKey(n: int, k: int)
    ensures n / REGION_SIZE == k <==> k * REGION_SIZE <= n < k * REGION_SIZE + REGION_SIZE
  {
  }

  // ----- regions by key -----

  datatype Body = Body(bitset: set<nat>, events: seq<Event>)

  /** The regions, without the order they are stored in. */
  type Map = map<Vec2, Body>

  function Bits(m: Map, key: Vec2): set<nat> { if key in m then m[key].bitset else {} }

  function Events(m: Map, key: Vec2): seq<Event> { if key in m then m[key].events else [] }

  predicate Removable(b: Body) { b.bitset == {} && b.events == [] }

  /** `Region::add` in the region at `key`, which is created if it does not exist. */
  function Enter(m: Map, id: nat, key: Vec2, from: Option<Vec2>): Map {
    if key in m then m[key := Body(m[key].bitset + {id}, m[key].events + [Entered(id, from)])]
    else m[key := Body({id}, [Entered(id, None)])]
  }

  /** `Region::remove` in the region at `key`. */
  function Leave(m: Map, id: nat, key: Vec2, to: Option<Vec2>): Map
    requires key in m
  {
    m[key := Body(m[key].bitset - {id}, m[key].events + [Left(id, to)])]
  }

  lemma EnterFresh(m: Map, id: nat, key: Vec2, from: Option<Vec2>)
    requires key !in m
    ensures Enter(m[key := Body({}, [])], id, key, None) == Enter(m, id, key, from)
  {
    var blank := m[key := Body({}, [])];
    assert blank[key].bitset + {id} == {id} && blank[key].events + [Entered(id, None)] == [Entered(id, None)];
  }

  function Transfer(m: Map, id: nat, a: Vec2, b: Vec2): Map
    requires a in m
  {
    Enter(Leave(m, id, a, Some(b)), id, b, Some(a))
  }

  function Cleared(m: Map): Map { map k | k in m :: Body(m[k].bitset, []) }

  // ----- where entities are, and what the events say about it -----

  type Places = map<nat, Vec2>

  function Where(loc: Places, id: nat): Option<Vec2> { if id in loc then Some(loc[id]) else None }

  predicate Placed(m: Map, loc: Places, key: Vec2, id: nat) { id in Bits(m, key) <==> Where(loc, id) == Some(key) }

  /** Every entity of `loc` lies in exactly one region, the one `loc` says; no other entity lies anywhere. */
  ghost predicate Located(m: Map, loc: Places) { forall key: Vec2, id: nat :: Placed(m, loc, key, id) }

  function Count(events: seq<Event>, e: Event): nat { multiset(events)[e] }

  lemma CountAppend(events: seq<Event>, x: Event, e: Event)
    ensures Count(events + [x], e) == Count(events, e) + if x == e then 1 else 0
  {
  }

  /** `id` opened the log of a region that did not exist before. */
  predicate First(events: seq<Event>, id: nat) { events != [] && events[0] == Entered(id, None) }

  /** How often the log of region `key` should hold an event, if `was` turned into `loc`. */
  function Expected(e: Event, key: Vec2, events: seq<Event>, was: Places, loc: Places, existing: set<Vec2>): nat {
    match e
    case Left(id, to) =>
      if Where(was, id) == Some(key) && Where(loc, id) != Some(key) && to == Where(loc, id) then 1 else 0
    case Entered(id, from) =>
      if Where(loc, id) == Some(key) && Where(was, id) != Some(key)
         && from == (if key !in existing && First(events, id) then None else Where(was, id)) then 1 else 0
  }

  /**
   * The logs are the exact difference between `was` and `loc`: every change is logged once in each
   * region concerned, and nothing else is. A move names both ends, except that the entity a region
   * was created for, because it was not among `existing`, is logged without its origin.
   */
  ghost predicate Logged(m: Map, was: Places, loc: Places, existing: set<Vec2>) {
    forall key: Vec2, e: Event ::
      Count(Events(m, key), e) == Expected(e, key, Events(m, key), was, loc, existing)
  }

  lemma ClearLogs(m: Map, loc: Places, existing: set<Vec2>)
    requires Located(m, loc)
    ensures Located(Cleared(m), loc) && Logged(Cleared(m), loc, loc, existing)
  {
    assert forall key :: Bits(Cleared(m), key) == Bits(m, key) && Events(Cleared(m), key) == [];
    var m' := Cleared(m);
    forall key: Vec2, id: nat ensures Placed(m', loc, key, id) { assert Placed(m, loc, key, id); }
  }

  lemma EnterEffect(m: Map, id: nat, key: Vec2, from: Option<Vec2>, m': Map)
    requires m' == Enter(m, id, key, from)
    ensures forall k :: k != key ==> Bits(m', k) == Bits(m, k) && Events(m', k) == Events(m, k)
    ensures Bits(m', key) == Bits(m, key) + {id}
    ensures Events(m', key) == Events(m, key) + [Entered(id, if key in m then from else None)]
    ensures m'.Keys == m.Keys + {key}
  {
  }

  lemma LeaveEffect(m: Map, id: nat, key: Vec2, to: Option<Vec2>, m': Map)
    requires key in m && m' == Leave(m, id, key, to)
    ensures forall k :: k != key ==> Bits(m', k) == Bits(m, k) && Events(m', k) == Events(m, k)
    ensures Bits(m', key) == Bits(m, key) - {id}
    ensures Events(m', key) == Events(m, key) + [Left(id, to)]
    ensures m'.Keys == m.Keys
  {
  }

  lemma EnterLocated(m: Map, loc: Places, id: nat, key: Vec2, from: Option<Vec2>, m': Map)
    requires Located(m, loc) && id !in loc && m' == Enter(m, id, key, from)
    ensures Located(m', loc[id := key])
  {
    EnterEffect(m, id, key, from, m');
    var loc' := loc[id := key];
    forall k: Vec2, n: nat ensures Placed(m', loc', k, n) { assert Placed(m, loc, k, n); }
  }

  lemma LeaveLocated(m: Map, loc: Places, id: nat, key: Vec2, to: Option<Vec2>, m': Map)
    requires Located(m, loc) && id in loc && loc[id] == key && key in m && m' == Leave(m, id, key, to)
    ensures Located(m', loc - {id})
  {
    LeaveEffect(m, id, key, to, m');
    var loc' := loc - {id};
    forall k: Vec2, n: nat ensures Placed(m', loc', k, n) { assert Placed(m, loc, k, n); }
  }

  /** `loc` and `loc'` agree on everyone but `id`. */
  ghost predicate OnlyMoved(loc: Places, loc': Places, id: nat) {
    forall n: nat :: n != id ==> Where(loc', n) == Where(loc, n)
  }

  /** Logging an entry is what the change of place calls for in the region entered. */
  lemma EntryCounts(e: Event, key: Vec2, events: seq<Event>, was: Places, loc: Places, loc': Places,
                    existing: set<Vec2>, id: nat, from: Option<Vec2>)
    requires OnlyMoved(loc, loc', id) && Where(loc, id) != Some(key) && Where(loc', id) == Some(key)
    requires Where(was, id) != Some(key) && !First(events, id)
    requires from == Where(was, id) || (events == [] && key !in existing && from == None)
    ensures Expected(e, key, events + [Entered(id, from)], was, loc', existing)
         == Expected(e, key, events, was, loc, existing) + if e == Entered(id, from) then 1 else 0
  {
  }

  /** Logging a departure is what it calls for in the region left. */
  lemma DepartureCounts(e: Event, key: Vec2, events: seq<Event>, was: Places, loc: Places, loc': Places,
                        existing: set<Vec2>, id: nat, to: Option<Vec2>)
    requires OnlyMoved(loc, loc', id) && Where(loc, id) == Some(key) && Where(loc', id) == to && to != Some(key)
    requires Where(was, id) == Some(key)
    ensures Expected(e, key, events + [Left(id, to)], was, loc', existing)
         == Expected(e, key, events, was, loc, existing) + if e == Left(id, to) then 1 else 0
  {
  }

  /** Other regions are not concerned. */
  lemma OthersCount(e: Event, key: Vec2, events: seq<Event>, was: Places, loc: Places, loc': Places,
                    existing: set<Vec2>, id: nat)
    requires OnlyMoved(loc, loc', id) && Where(loc, id) != Some(key) && Where(loc', id) != Some(key)
    requires Where(was, id) != Some(key)
    ensures Expected(e, key, events, was, loc', existing) == Expected(e, key, events, was, loc, existing)
  {
  }

  /** Whoever is not in a region has not opened its log. */
  lemma NotFirst(m: Map, was: Places, loc: Places, existing: set<Vec2>, id: nat, key: Vec2)
    requires Logged(m, was, loc, existing) && Where(loc, id) != Some(key)
    ensures !First(Events(m, key), id)
  {
    var events, e := Events(m, key), Entered(id, None);
    assert Count(events, e) == Expected(e, key, events, was, loc, existing) == 0;
    assert events != [] ==> events[0] in events;
  }

  /** One entry in the log of `key` keeps the count of event `e` in the log of `k`. */
  lemma EntryAt(k: Vec2, e: Event, events: seq<Event>, events': seq<Event>, key: Vec2,
                was: Places, loc: Places, loc': Places, existing: set<Vec2>, id: nat)
    requires OnlyMoved(loc, loc', id) && Where(loc, id) == None
    requires Where(loc', id) == Some(key) && Where(was, id) == None
    requires events' == if k == key then events + [Entered(id, None)] else events
    requires Count(events, e) == Expected(e, k, events, was, loc, existing) && !First(events, id)
    ensures Count(events', e) == Expected(e, k, events', was, loc', existing)
  {
    if k == key {
      CountAppend(events, Entered(id, None), e);
      EntryCounts(e, k, events, was, loc, loc', existing, id, None);
    } else {
      OthersCount(e, k, events, was, loc, loc', existing, id);
    }
  }

  lemma DepartureAt(k: Vec2, e: Event, events: seq<Event>, events': seq<Event>, key: Vec2,
                    was: Places, loc: Places, loc': Places, existing: set<Vec2>, id: nat)
    requires OnlyMoved(loc, loc', id) && Where(loc, id) == Some(key) && Where(loc', id) == None
    requires Where(was, id) == Some(key)
    requires events' == if k == key then events + [Left(id, None)] else events
    requires Count(events, e) == Expected(e, k, events, was, loc, existing)
    ensures Count(events', e) == Expected(e, k, events', was, loc', existing)
  {
    if k == key {
      CountAppend(events, Left(id, None), e);
      DepartureCounts(e, k, events, was, loc, loc', existing, id, None);
    } else {
      OthersCount(e, k, events, was, loc, loc', existing, id);
    }
  }

  lemma TransferAt(k: Vec2, e: Event, events: seq<Event>, events': seq<Event>, a: Vec2, b: Vec2,
                   was: Places, loc: Places, loc': Places, existing: set<Vec2>, id: nat, from: Option<Vec2>)
    requires OnlyMoved(loc, loc', id) && a != b
    requires Where(loc, id) == Some(a) && Where(loc', id) == Some(b) && Where(was, id) == Some(a)
    requires events' == if k == a then events + [Left(id, Some(b))]
                        else if k == b then events + [Entered(id, from)] else events
    requires k == b ==> !First(events, id) && (from == Some(a) || (events == [] && b !in existing && from == None))
    requires Count(events, e) == Expected(e, k, events, was, loc, existing)
    ensures Count(events', e) == Expected(e, k, events', was, loc', existing)
  {
    if k == a {
      CountAppend(events, Left(id, Some(b)), e);
      DepartureCounts(e, k, events, was, loc, loc', existing, id, Some(b));
    } else if k == b {
      CountAppend(events, Entered(id, from), e);
      EntryCounts(e, k, events, was, loc, loc', existing, id, from);
    } else {
      OthersCount(e, k, events, was, loc, loc', existing, id);
    }
  }

  /** A new entity. */
  lemma EnterLogged(m: Map, was: Places, loc: Places, existing: set<Vec2>, id: nat, key: Vec2, m': Map)
    requires Logged(m, was, loc, existing)
    requires id !in loc && id !in was && m' == Enter(m, id, key, None)
    ensures Logged(m', was, loc[id := key], existing)
  {
    EnterEffect(m, id, key, None, m');
    forall k: Vec2, e: Event
      ensures Count(Events(m', k), e) == Expected(e, k, Events(m', k), was, loc[id := key], existing)
    {
      NotFirst(m, was, loc, existing, id, k);
      EntryAt(k, e, Events(m, k), Events(m', k), key, was, loc, loc[id := key], existing, id);
    }
  }

  /** An entity that is gone. */
  lemma LeaveLogged(m: Map, was: Places, loc: Places, existing: set<Vec2>, id: nat, key: Vec2, m': Map)
    requires Logged(m, was, loc, existing)
    requires Where(loc, id) == Some(key) && Where(was, id) == Some(key) && key in m && m' == Leave(m, id, key, None)
    ensures Logged(m', was, loc - {id}, existing)
  {
    LeaveEffect(m, id, key, None, m');
    forall k: Vec2, e: Event
      ensures Count(Events(m', k), e) == Expected(e, k, Events(m', k), was, loc - {id}, existing)
    {
      DepartureAt(k, e, Events(m, k), Events(m', k), key, was, loc, loc - {id}, existing, id);
    }
  }

  lemma TransferLocated(m: Map, loc: Places, id: nat, a: Vec2, b: Vec2, m': Map)
    requires Located(m, loc) && Where(loc, id) == Some(a) && a in m && m' == Transfer(m, id, a, b)
    ensures Located(m', loc[id := b])
  {
    var left := Leave(m, id, a, Some(b));
    LeaveLocated(m, loc, id, a, Some(b), left);
    EnterLocated(left, loc - {id}, id, b, Some(a), m');
    assert (loc - {id})[id := b] == loc[id := b];
  }

  /** An entity that moves. */
  lemma TransferLogged(m: Map, was: Places, loc: Places, existing: set<Vec2>, id: nat, a: Vec2, b: Vec2, m': Map)
    requires Logged(m, was, loc, existing)
    requires Where(loc, id) == Some(a) && Where(was, id) == Some(a) && a in m && a != b
    requires existing <= m.Keys && m' == Transfer(m, id, a, b)
    ensures Logged(m', was, loc[id := b], existing)
  {
    var left := Leave(m, id, a, Some(b));
    LeaveEffect(m, id, a, Some(b), left);
    EnterEffect(left, id, b, Some(a), m');
    NotFirst(m, was, loc, existing, id, b);
    var from := if b in m then Some(a) else None;
    forall k: Vec2, e: Event
      ensures Count(Events(m', k), e) == Expected(e, k, Events(m', k), was, loc[id := b], existing)
    {
      TransferAt(k, e, Events(m, k), Events(m', k), a, b, was, loc, loc[id := b], existing, id, from);
    }
  }

  /** A region without entities and events can be dropped. */
  lemma DropLogged(m: Map, was: Places, loc: Places, existing: set<Vec2>, key: Vec2)
    requires Located(m, loc) && Logged(m, was, loc, existing) && key in m && Removable(m[key])
    ensures Located(m - {key}, loc) && Logged(m - {key}, was, loc, existing)
  {
    assert forall k :: Bits(m - {key}, k) == Bits(m, k) && Events(m - {key}, k) == Events(m, k);
    var m' := m - {key};
    forall k: Vec2, id: nat ensures Placed(m', loc, k, id) { assert Placed(m, loc, k, id); }
  }

  // ----- reading the logs -----

  /** What a reader of the log makes of the region's entities. */
  function Replay(ids: set<nat>, events: seq<Event>): set<nat> {
    if events == [] then ids
    else
      var before := Replay(ids, events[..|events| - 1]);
      match events[|events| - 1]
      case Left(id, _) => before - {id}
      case Entered(id, _) => before + {id}
  }

  predicate Silent(events: seq<Event>, id: nat) { forall e :: e in events ==> e.id != id }

  lemma {:induction false} ReplayAt(ids: set<nat>, events: seq<Event>, id: nat)
    ensures Silent(events, id) ==> (id in Replay(ids, events) <==> id in ids)
    ensures !Silent(events, id) && (forall e :: e in events && e.id == id ==> e.Left?) ==> id !in Replay(ids, events)
    ensures !Silent(events, id) && (forall e :: e in events && e.id == id ==> e.Entered?) ==> id in Replay(ids, events)
  {
    if events != [] {
      var rest, last := events[..|events| - 1], events[|events| - 1];
      assert events == rest + [last];
      ReplayAt(ids, rest, id);
    }
  }

  lemma LoggedEvent(m: Map, was: Places, loc: Places, existing: set<Vec2>, key: Vec2, e: Event)
    requires Logged(m, was, loc, existing)
    ensures e in Events(m, key) <==> Expected(e, key, Events(m, key), was, loc, existing) == 1
  {
  }

  /** Replaying the log of any region turns its entities before the tick into those after it. */
  lemma EventsReplay(before: Map, was: Places, m: Map, loc: Places, existing: set<Vec2>, key: Vec2)
    requires Located(before, was) && Located(m, loc) && Logged(m, was, loc, existing)
    ensures Replay(Bits(before, key), Events(m, key)) == Bits(m, key)
  {
    var events := Events(m, key);
    forall id: nat ensures id in Replay(Bits(before, key), events) <==> id in Bits(m, key) {
      assert Placed(before, was, key, id) && Placed(m, loc, key, id);
      ReplayAt(Bits(before, key), events, id);
      var from := if key !in existing && First(events, id) then None else Where(was, id);
      LoggedEvent(m, was, loc, existing, key, Left(id, Where(loc, id)));
      LoggedEvent(m, was, loc, existing, key, Entered(id, from));
      forall e | e in events && e.id == id
        ensures e.Left? ==> Where(was, id) == Some(key) != Where(loc, id)
        ensures e.Entered? ==> Where(was, id) != Some(key) == Where(loc, id)
      {
        LoggedEvent(m, was, loc, existing, key, e);
      }
    }
  }

  /**
   * A departure to another region is logged there as an entry, once, with the region it came from;
   * only who opened the log of a new region is logged without origin.
   */
  lemma MovePaired(m: Map, was: Places, loc: Places, existing: set<Vec2>, id: nat, a: Vec2, b: Vec2)
    requires Logged(m, was, loc, existing) && Left(id, Some(b)) in Events(m, a)
    ensures a != b && Where(was, id) == Some(a) && Where(loc, id) == Some(b)
    ensures forall from :: Entered(id, from) in Events(m, b) <==>
      from == if b !in existing && First(Events(m, b), id) then None else Some(a)
    ensures Count(Events(m, a), Left(id, Some(b))) == 1
    ensures forall from :: Count(Events(m, b), Entered(id, from)) <= 1
  {
    LoggedEvent(m, was, loc, existing, a, Left(id, Some(b)));
    assert Count(Events(m, a), Left(id, Some(b))) == 1;
    forall from ensures (Entered(id, from) in Events(m, b) <==>
        from == if b !in existing && First(Events(m, b), id) then None else Some(a))
      && Count(Events(m, b), Entered(id, from)) <= 1
    {
      LoggedEvent(m, was, loc, existing, b, Entered(id, from));
    }
  }
}
