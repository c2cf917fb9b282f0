/**
 * How `RegionMap` stores its regions: an insertion-ordered map whose removals move the last entry,
 * with every region holding the indices of its eight neighbours.
 */
module RegionIndex {
  import opened Types
  import opened Vek
  import opened Regions

  datatype Region = Region(bitset: set<nat>, neighbors: seq<Option<nat>>, events: seq<Event>)

  /** What of a region does not depend on where it is stored. */
  function BodyOf(r: Region): Body { Body(r.bitset, r.events) }

  datatype Slot = Slot(key: Vec2, region: Region)

  const NO_NEIGHBORS: seq<Option<nat>> := [None, None, None, None, None, None, None, None]

  predicate Differ(rs: seq<Slot>, i: nat, j: nat)
    requires i < |rs| && j < |rs|
  {
    rs[i].key != rs[j].key
  }

  ghost predicate DistinctKeys(rs: seq<Slot>) { forall i, j :: 0 <= i < j < |rs| ==> Differ(rs, i, j) }

  lemma SameKey(rs: seq<Slot>, i: nat, j: nat)
    requires DistinctKeys(rs) && i < |rs| && j < |rs| && rs[i].key == rs[j].key
    ensures i == j
  {
    assert i < j ==> Differ(rs, i, j);
    assert j < i ==> Differ(rs, j, i);
  }

  lemma AllDiffer(rs: seq<Slot>)
    requires DistinctKeys(rs)
    ensures forall i, j :: 0 <= i < j < |rs| ==> rs[i].key != rs[j].key
  {
    forall i, j | 0 <= i < j < |rs| ensures rs[i].key != rs[j].key { assert Differ(rs, i, j); }
  }

  /** `n` is the index of the region at `key`, or nothing if there is none. */
  ghost predicate LinksTo(rs: seq<Slot>, key: Vec2, n: Option<nat>) {
    match n
    case None => forall j :: 0 <= j < |rs| ==> rs[j].key != key
    case Some(j) => j < |rs| && rs[j].key == key
  }

  ghost predicate Sized(rs: seq<Slot>) { forall i :: 0 <= i < |rs| ==> |rs[i].region.neighbors| == 8 }

  function Neighbor(rs: seq<Slot>, i: nat, d: nat): Option<nat>
    requires i < |rs| && d < |rs[i].region.neighbors|
  {
    rs[i].region.neighbors[d]
  }

  /** The neighbour entries hold exactly the indices of the neighbouring regions. */
  ghost predicate Linked(rs: seq<Slot>) {
    && Sized(rs)
    && forall i, d :: 0 <= i < |rs| && 0 <= d < 8 ==> LinksTo(rs, rs[i].key.Add(Offset(d)), Neighbor(rs, i, d))
  }

  /** The same regions apart from their neighbour entries. */
  ghost predicate SameCells(rs: seq<Slot>, other: seq<Slot>) {
    && |rs| == |other|
    && forall i :: 0 <= i < |rs| ==> SameBody(rs[i], other[i])
  }

  predicate SameBody(s: Slot, t: Slot) {
    s.key == t.key && s.region.bitset == t.region.bitset && s.region.events == t.region.events
  }

  /** Keys at the same indices, possibly with more regions behind. */
  ghost predicate KeysKept(rs: seq<Slot>, other: seq<Slot>) {
    |rs| <= |other| && forall i :: 0 <= i < |rs| ==> other[i].key == rs[i].key
  }

  /** The regions without their order. */
  ghost function View(rs: seq<Slot>): Map
    requires DistinctKeys(rs)
  {
    AllDiffer(rs);
    map i | 0 <= i < |rs| :: rs[i].key := BodyOf(rs[i].region)
  }

  lemma ViewAt(rs: seq<Slot>, i: nat)
    requires DistinctKeys(rs) && i < |rs|
    ensures rs[i].key in View(rs) && View(rs)[rs[i].key] == BodyOf(rs[i].region)
  {
    AllDiffer(rs);
  }

  lemma IndexIn(rs: seq<Slot>, key: Vec2) returns (i: nat)
    requires DistinctKeys(rs) && key in View(rs)
    ensures i < |rs| && rs[i].key == key
  {
    i :| 0 <= i < |rs| && rs[i].key == key;
  }

  /** Hash lookup (`get_full`). */
  function IndexOf(rs: seq<Slot>, key: Vec2): (n: Option<nat>)
    ensures LinksTo(rs, key, n)
  {
    if rs == [] then None
    else if rs[|rs| - 1].key == key then Some(|rs| - 1)
    else IndexOf(rs[..|rs| - 1], key)
  }

  /** A key without an index is the key of no region. */
  lemma LinkNone(rs: seq<Slot>, key: Vec2)
    requires DistinctKeys(rs)
    ensures LinksTo(rs, key, None) <==> key !in View(rs)
  {
  }

  function SetNeighbor(rs: seq<Slot>, i: nat, d: nat, n: Option<nat>): seq<Slot>
    requires i < |rs| && d < |rs[i].region.neighbors|
  {
    rs[i := Slot(rs[i].key, rs[i].region.(neighbors := rs[i].region.neighbors[d := n]))]
  }

  /** `swap_remove_index`: the last region takes the place of the removed one. */
  function SwapRemove(rs: seq<Slot>, index: nat): seq<Slot>
    requires index < |rs|
  {
    var last := |rs| - 1;
    if index == last then rs[..last] else rs[..last][index := rs[last]]
  }

  lemma StepBack(a: Vec2, b: Vec2, d: nat)
    requires d < 8
    ensures a.Add(Offset(d)) == b <==> a == b.Add(Offset(Opposite(d)))
  {
  }

  lemma LinkFound(rs: seq<Slot>, i: nat, j: nat, d: nat)
    requires DistinctKeys(rs) && Linked(rs) && i < |rs| && j < |rs| && d < 8
    ensures Neighbor(rs, i, d) == Some(j) <==> rs[j].key == rs[i].key.Add(Offset(d))
  {
    assert LinksTo(rs, rs[i].key.Add(Offset(d)), Neighbor(rs, i, d));
    FoundAt(rs, rs[i].key.Add(Offset(d)), Neighbor(rs, i, d), j);
  }

  /** Links go both ways. */
  lemma LinksSymmetric(rs: seq<Slot>, i: nat, j: nat, d: nat)
    requires DistinctKeys(rs) && Linked(rs) && i < |rs| && j < |rs| && d < 8
    ensures Neighbor(rs, i, d) == Some(j) <==> rs[j].key == rs[i].key.Add(Offset(d))
    ensures Neighbor(rs, i, d) == Some(j) <==> Neighbor(rs, j, Opposite(d)) == Some(i)
  {
    StepBack(rs[i].key, rs[j].key, d);
    LinkFound(rs, i, j, d);
    LinkFound(rs, j, i, Opposite(d));
  }

  lemma SameView(rs: seq<Slot>, other: seq<Slot>)
    requires DistinctKeys(rs) && SameCells(rs, other)
    ensures DistinctKeys(other) && View(other) == View(rs)
  {
    AllDiffer(rs);
    assert DistinctKeys(other);
  }

  lemma EntriesLink(rs: seq<Slot>, i: nat)
    requires Linked(rs) && i < |rs|
    ensures forall d :: 0 <= d < 8 ==> LinksTo(rs, rs[i].key.Add(Offset(d)), Neighbor(rs, i, d))
  {
  }

  /** Replacing what a region holds, but not its place or its links. */
  function SetBody(rs: seq<Slot>, i: nat, b: Body): seq<Slot>
    requires i < |rs|
  {
    rs[i := Slot(rs[i].key, rs[i].region.(bitset := b.bitset, events := b.events))]
  }

  lemma SetBodyView(rs: seq<Slot>, i: nat, b: Body, rs': seq<Slot>)
    requires DistinctKeys(rs) && Linked(rs) && i < |rs| && rs' == SetBody(rs, i, b)
    ensures DistinctKeys(rs') && Linked(rs') && KeysKept(rs, rs') && |rs'| == |rs|
    ensures View(rs') == View(rs)[rs[i].key := b]
  {
    SetBodyLinked(rs, i, b, rs');
    AllDiffer(rs);
    assert DistinctKeys(rs');
    var m, m' := View(rs)[rs[i].key := b], View(rs');
    assert KeysKept(rs, rs');
    forall key | key in m' ensures key in m && m[key] == m'[key] {
      var j := IndexIn(rs', key);
      ViewAt(rs, j);
      ViewAt(rs', j);
    }
    forall key | key in m ensures key in m' {
      ViewAt(rs, i);
      var j := IndexIn(rs, key);
      ViewAt(rs', j);
    }
  }

  lemma SetBodyLinked(rs: seq<Slot>, i: nat, b: Body, rs': seq<Slot>)
    requires Linked(rs) && i < |rs| && rs' == SetBody(rs, i, b)
    ensures Linked(rs')
  {
    forall j, d | 0 <= j < |rs'| && 0 <= d < 8
      ensures LinksTo(rs', rs'[j].key.Add(Offset(d)), Neighbor(rs', j, d))
    {
      assert LinksTo(rs, rs[j].key.Add(Offset(d)), Neighbor(rs, j, d));
    }
  }

  /** Clearing the logs of the first `n` regions. */
  ghost predicate ClearedUpTo(rs: seq<Slot>, rs': seq<Slot>, n: nat) {
    && |rs'| == |rs|
    && forall j :: 0 <= j < |rs| ==>
      rs'[j] == if j < n then Slot(rs[j].key, rs[j].region.(events := [])) else rs[j]
  }

  lemma ClearedLinks(rs: seq<Slot>, rs': seq<Slot>)
    requires DistinctKeys(rs) && Linked(rs) && ClearedUpTo(rs, rs', |rs|)
    ensures DistinctKeys(rs') && Linked(rs') && KeysKept(rs, rs')
  {
    AllDiffer(rs);
    forall j | 0 <= j < |rs| ensures rs'[j].key == rs[j].key && rs'[j].region.neighbors == rs[j].region.neighbors {}
    forall j, d | 0 <= j < |rs'| && 0 <= d < 8
      ensures LinksTo(rs', rs'[j].key.Add(Offset(d)), Neighbor(rs', j, d))
    {
      assert LinksTo(rs, rs[j].key.Add(Offset(d)), Neighbor(rs, j, d));
    }
  }

  lemma ClearedWhole(rs: seq<Slot>, rs': seq<Slot>)
    requires DistinctKeys(rs) && Linked(rs) && ClearedUpTo(rs, rs', |rs|)
    ensures DistinctKeys(rs') && Linked(rs') && KeysKept(rs, rs') && View(rs') == Cleared(View(rs))
  {
    ClearedLinks(rs, rs');
    forall key | key in View(rs') ensures key in View(rs) && View(rs')[key] == Body(View(rs)[key].bitset, []) {
      var j := IndexIn(rs', key);
      ViewAt(rs, j);
      ViewAt(rs', j);
    }
    forall key | key in View(rs) ensures key in View(rs') {
      var j := IndexIn(rs, key);
      ViewAt(rs', j);
    }
  }

  // ----- rewriting the entries that lead to one region -----

  /**
   * The first `n` rounds of the three loops that rewrite neighbour entries: of the regions in
   * `base`, the entries that lead to `key` hold `v`, if their direction was visited; all others are as before.
   */
  ghost predicate Patched(base: seq<Slot>, rs: seq<Slot>, key: Vec2, v: Option<nat>, n: nat) {
    && |base| <= |rs| && Sized(base) && Sized(rs)
    && forall j, d :: 0 <= j < |base| && 0 <= d < 8 ==>
      Neighbor(rs, j, d) ==
        if base[j].key.Add(Offset(d)) == key && Opposite(d) < n then v else Neighbor(base, j, d)
  }

  lemma SetNeighborAt(rs: seq<Slot>, i: nat, e: nat, v: Option<nat>, j: nat, d: nat)
    requires Sized(rs) && i < |rs| && j < |rs| && d < 8 && e < 8
    ensures Sized(SetNeighbor(rs, i, e, v))
    ensures Neighbor(SetNeighbor(rs, i, e, v), j, d) == if i == j && d == e then v else Neighbor(rs, j, d)
  {
  }

  lemma FoundAt(rs: seq<Slot>, key: Vec2, found: Option<nat>, j: nat)
    requires DistinctKeys(rs) && LinksTo(rs, key, found) && j < |rs|
    ensures found == Some(j) <==> rs[j].key == key
  {
    if rs[j].key == key && found.Some? { SameKey(rs, found.value, j); }
  }

  /** The entries rewritten up to round `n` and those rewritten in round `n`. */
  lemma RoundAt(cell: Vec2, key: Vec2, d: nat, n: nat)
    requires d < 8 && n < 8
    ensures cell.Add(Offset(d)) == key && Opposite(d) < n + 1 <==>
      (cell.Add(Offset(d)) == key && Opposite(d) < n) || (cell == key.Add(Offset(n)) && d == Opposite(n))
  {
    StepBack(cell, key, d);
    OffsetOpposite(d);
    OffsetOpposite(n);
  }

  /** One round: look the neighbour up in direction `n`; if it exists, rewrite its opposite entry. */
  lemma PatchRound(base: seq<Slot>, rs: seq<Slot>, key: Vec2, v: Option<nat>, n: nat, found: Option<nat>,
                   rs': seq<Slot>)
    requires DistinctKeys(base) && Patched(base, rs, key, v, n) && n < 8
    requires LinksTo(base, key.Add(Offset(n)), found)
    requires rs' == if found == None then rs else SetNeighbor(rs, found.value, Opposite(n), v)
    ensures Patched(base, rs', key, v, n + 1)
  {
    if found.Some? { SetNeighborAt(rs, found.value, Opposite(n), v, 0, 0); }
    forall j, d | 0 <= j < |base| && 0 <= d < 8
      ensures Neighbor(rs', j, d) ==
        if base[j].key.Add(Offset(d)) == key && Opposite(d) < n + 1 then v else Neighbor(base, j, d)
    {
      FoundAt(base, key.Add(Offset(n)), found, j);
      RoundAt(base[j].key, key, d, n);
      if found.Some? { SetNeighborAt(rs, found.value, Opposite(n), v, j, d); }
    }
  }

  // ----- insertion -----

  /** The first `n` entries found for a region at `key`; the others are still blank. */
  ghost predicate EntriesFor(rs: seq<Slot>, key: Vec2, neighbors: seq<Option<nat>>, n: nat) {
    && |neighbors| == 8
    && forall d :: 0 <= d < 8 ==> if d < n then LinksTo(rs, key.Add(Offset(d)), neighbors[d]) else neighbors[d] == None
  }

  /** Looking up a neighbour of the new region finds only earlier regions. */
  lemma InsertLookup(before: seq<Slot>, rs: seq<Slot>, key: Vec2, d: nat, found: Option<nat>)
    requires d < 8 && KeysKept(before, rs) && |rs| == |before| + 1 && rs[|before|].key == key
    requires LinksTo(rs, key.Add(Offset(d)), found)
    ensures LinksTo(before, key.Add(Offset(d)), found)
  {
  }

  lemma InsertDistinct(before: seq<Slot>, rs: seq<Slot>, key: Vec2)
    requires DistinctKeys(before) && LinksTo(before, key, None)
    requires KeysKept(before, rs) && |rs| == |before| + 1 && rs[|before|].key == key
    ensures DistinctKeys(rs)
  {
    forall i, j | 0 <= i < j < |rs| ensures Differ(rs, i, j) {
      if j < |before| { assert Differ(before, i, j); }
    }
  }

  lemma InsertView(before: seq<Slot>, rs: seq<Slot>, key: Vec2)
    requires DistinctKeys(before) && LinksTo(before, key, None) && DistinctKeys(rs)
    requires |rs| == |before| + 1 && (forall j :: 0 <= j < |before| ==> SameBody(before[j], rs[j]))
    requires SameBody(rs[|before|], Slot(key, Region({}, NO_NEIGHBORS, [])))
    ensures View(rs) == View(before)[key := Body({}, [])]
  {
  }

  /** Once all directions are linked, every entry is right again. */
  lemma InsertLinked(before: seq<Slot>, rs: seq<Slot>, key: Vec2, neighbors: seq<Option<nat>>)
    requires Linked(before) && Patched(before, rs, key, Some(|before|), 8) && LinksTo(before, key, None)
    requires KeysKept(before, rs) && |rs| == |before| + 1 && rs[|before|].key == key
    requires EntriesFor(before, key, neighbors, 8) && rs[|before|].region.neighbors == neighbors
    ensures Linked(rs)
  {
    forall j, d | 0 <= j < |rs| && 0 <= d < 8
      ensures LinksTo(rs, rs[j].key.Add(Offset(d)), Neighbor(rs, j, d))
    {
      if j < |before| {
        assert LinksTo(before, before[j].key.Add(Offset(d)), Neighbor(before, j, d));
      } else {
        assert LinksTo(before, key.Add(Offset(d)), neighbors[d]);
      }
    }
  }

  /** Between the rounds of an insertion. */
  ghost predicate Inserting(before: seq<Slot>, rs: seq<Slot>, key: Vec2, neighbors: seq<Option<nat>>, n: nat) {
    && SameCells(before + [Slot(key, Region({}, NO_NEIGHBORS, []))], rs)
    && Patched(before, rs, key, Some(|before|), n) && EntriesFor(before, key, neighbors, n)
  }

  lemma InsertStart(before: seq<Slot>, key: Vec2)
    requires Linked(before)
    ensures Inserting(before, before + [Slot(key, Region({}, NO_NEIGHBORS, []))], key, NO_NEIGHBORS, 0)
  {
  }

  lemma InsertRound(before: seq<Slot>, rs: seq<Slot>, key: Vec2, neighbors: seq<Option<nat>>, n: nat,
                    found: Option<nat>,
                    rs': seq<Slot>, neighbors': seq<Option<nat>>)
    requires DistinctKeys(before) && Inserting(before, rs, key, neighbors, n) && n < 8
    requires LinksTo(rs, key.Add(Offset(n)), found)
    requires neighbors' == if found == None then neighbors else neighbors[n := found]
    requires found.Some? ==> found.value < |rs|
    requires rs' == if found == None then rs else SetNeighbor(rs, found.value, Opposite(n), Some(|before|))
    ensures Inserting(before, rs', key, neighbors', n + 1)
  {
    assert rs[|before|].key == key;
    InsertLookup(before, rs, key, n, found);
    PatchRound(before, rs, key, Some(|before|), n, found, rs');
  }

  lemma InsertDonePatched(before: seq<Slot>, rs: seq<Slot>, key: Vec2, r: Region, rs': seq<Slot>)
    requires Patched(before, rs, key, Some(|before|), 8) && |rs| == |before| + 1 && |r.neighbors| == 8
    requires rs' == rs[|before| := Slot(key, r)]
    ensures Patched(before, rs', key, Some(|before|), 8)
  {
    forall j, d | 0 <= j < |before| && 0 <= d < 8 ensures Neighbor(rs', j, d) == Neighbor(rs, j, d) {}
  }

  lemma InsertDoneCells(before: seq<Slot>, rs: seq<Slot>, key: Vec2, r: Region, rs': seq<Slot>)
    requires |rs| == |before| + 1 && SameCells(before + [Slot(key, Region({}, NO_NEIGHBORS, []))], rs)
    requires rs' == rs[|before| := Slot(key, r)]
    requires r.bitset == rs[|before|].region.bitset && r.events == rs[|before|].region.events
    ensures KeysKept(before, rs') && rs[|before|].key == key
    ensures forall j :: 0 <= j < |before| ==> SameBody(before[j], rs'[j])
    ensures SameBody(rs'[|before|], Slot(key, Region({}, NO_NEIGHBORS, [])))
  {
  }

  lemma InsertDone(before: seq<Slot>, rs: seq<Slot>, key: Vec2, neighbors: seq<Option<nat>>, rs': seq<Slot>)
    requires DistinctKeys(before) && Linked(before)
    requires Inserting(before, rs, key, neighbors, 8) && LinksTo(before, key, None)
    requires |rs| == |before| + 1 && rs' == rs[|before| := Slot(key, rs[|before|].region.(neighbors := neighbors))]
    ensures DistinctKeys(rs') && Linked(rs') && KeysKept(before, rs')
    ensures |rs'| == |before| + 1 && rs'[|before|].key == key
    ensures View(rs') == View(before)[key := Body({}, [])]
  {
    var r := rs[|before|].region.(neighbors := neighbors);
    InsertDonePatched(before, rs, key, r, rs');
    InsertDoneCells(before, rs, key, r, rs');
    InsertLinked(before, rs', key, neighbors);
    InsertDistinct(before, rs', key);
    InsertView(before, rs', key);
  }

  // ----- removal -----

  /** Every entry names the place its region has after the removal; entries for the removed region are left. */
  ghost predicate LinkedBut(rs: seq<Slot>, gone: Vec2) {
    && Sized(rs)
    && forall j, d :: 0 <= j < |rs| && 0 <= d < 8 && rs[j].key.Add(Offset(d)) != gone ==>
      LinksTo(rs, rs[j].key.Add(Offset(d)), Neighbor(rs, j, d))
  }

  /** Where the regions of the shortened map come from. */
  function Origin(rs: seq<Slot>, index: nat, j: nat): nat
    requires index < |rs| && j < |rs| - 1
  {
    if j == index then |rs| - 1 else j
  }

  /** The last region has taken the place of the one at `index`; all others are where they were. */
  ghost predicate Swapped(rs: seq<Slot>, rs': seq<Slot>, index: nat) {
    index < |rs| && |rs'| == |rs| - 1 && forall j :: 0 <= j < |rs'| ==> SameBody(rs[Origin(rs, index, j)], rs'[j])
  }

  lemma RemovalSwaps(before: seq<Slot>, rs: seq<Slot>, index: nat, rs': seq<Slot>)
    requires SameCells(before, rs) && index < |before| && SameCells(SwapRemove(rs, index), rs')
    ensures Swapped(before, rs', index)
  {
    forall j | 0 <= j < |rs'| ensures SameBody(before[Origin(before, index, j)], rs'[j]) {
      SwapRemoveAt(rs, index, j);
      assert SameBody(before[Origin(before, index, j)], rs[Origin(before, index, j)]);
      assert SameBody(SwapRemove(rs, index)[j], rs'[j]);
    }
  }

  lemma SwapRemoveAt(rs: seq<Slot>, index: nat, j: nat)
    requires index < |rs| && j < |rs| - 1
    ensures |SwapRemove(rs, index)| == |rs| - 1
    ensures SwapRemove(rs, index)[j] == rs[Origin(rs, index, j)] && Origin(rs, index, j) != index
  {
  }

  lemma SwapRemoveDistinct(rs: seq<Slot>, index: nat)
    requires DistinctKeys(rs) && index < |rs|
    ensures DistinctKeys(SwapRemove(rs, index)) && LinksTo(SwapRemove(rs, index), rs[index].key, None)
  {
    var rs' := SwapRemove(rs, index);
    forall i, j | 0 <= i < j < |rs'| ensures Differ(rs', i, j) {
      SwapRemoveAt(rs, index, i);
      SwapRemoveAt(rs, index, j);
      if rs'[i].key == rs'[j].key { SameKey(rs, Origin(rs, index, i), Origin(rs, index, j)); }
    }
    forall j | 0 <= j < |rs'| ensures rs'[j].key != rs[index].key {
      SwapRemoveAt(rs, index, j);
      if rs'[j].key == rs[index].key { SameKey(rs, Origin(rs, index, j), index); }
    }
  }

  lemma RemovedFrom(rs: seq<Slot>, index: nat, rs': seq<Slot>, key: Vec2)
    requires DistinctKeys(rs) && DistinctKeys(rs') && index < |rs| && rs' == SwapRemove(rs, index) && key in View(rs')
    ensures key != rs[index].key && key in View(rs) && View(rs)[key] == View(rs')[key]
  {
    var j := IndexIn(rs', key);
    SwapRemoveAt(rs, index, j);
    ViewAt(rs', j);
    ViewAt(rs, Origin(rs, index, j));
    if key == rs[index].key { SameKey(rs, Origin(rs, index, j), index); }
  }

  lemma RemovedKeeps(rs: seq<Slot>, index: nat, rs': seq<Slot>, key: Vec2)
    requires DistinctKeys(rs) && DistinctKeys(rs') && index < |rs| && rs' == SwapRemove(rs, index)
    requires key in View(rs) && key != rs[index].key
    ensures key in View(rs')
  {
    var i := IndexIn(rs, key);
    var j := if i == |rs| - 1 then index else i;
    SwapRemoveAt(rs, index, j);
    ViewAt(rs', j);
  }

  lemma SwapRemoveView(rs: seq<Slot>, index: nat, rs': seq<Slot>)
    requires DistinctKeys(rs) && index < |rs| && rs' == SwapRemove(rs, index) && DistinctKeys(rs')
    ensures View(rs') == View(rs) - {rs[index].key}
  {
    forall key | key in View(rs') ensures key != rs[index].key && key in View(rs) && View(rs)[key] == View(rs')[key] {
      RemovedFrom(rs, index, rs', key);
    }
    forall key | key in View(rs) && key != rs[index].key ensures key in View(rs') {
      RemovedKeeps(rs, index, rs', key);
    }
  }

  lemma RemovedView(before: seq<Slot>, rs: seq<Slot>, index: nat)
    requires DistinctKeys(before) && SameCells(before, rs) && index < |before|
    ensures var rs' := SwapRemove(rs, index);
      DistinctKeys(rs') && LinksTo(rs', before[index].key, None) && View(rs') == View(before) - {before[index].key}
  {
    SameView(before, rs);
    SwapRemoveDistinct(rs, index);
    SwapRemoveView(rs, index, SwapRemove(rs, index));
  }

  /** Where a region ends up. */
  lemma SwapRemoveLink(before: seq<Slot>, rs: seq<Slot>, index: nat, key: Vec2, n: Option<nat>)
    requires DistinctKeys(before) && SameCells(before, rs) && index < |before|
    requires key != before[index].key && LinksTo(before, key, n)
    ensures LinksTo(SwapRemove(rs, index), key, if n == Some(|before| - 1) then Some(index) else n)
  {
  }

  lemma RemovedLinkedBut(before: seq<Slot>, rs: seq<Slot>, index: nat)
    requires DistinctKeys(before) && Linked(before) && SameCells(before, rs) && index < |before|
    requires if index == |before| - 1 then rs == before
             else Patched(before, rs, before[|before| - 1].key, Some(index), 8)
    ensures LinkedBut(SwapRemove(rs, index), before[index].key)
    ensures Sized(rs) && forall d :: 0 <= d < 8 ==>
      LinksTo(SwapRemove(rs, index), before[index].key.Add(Offset(d)), Neighbor(rs, index, d))
  {
    var rs', last, gone := SwapRemove(rs, index), |rs| - 1, before[index].key;
    forall i, d | 0 <= i < |rs| && 0 <= d < 8 && rs[i].key.Add(Offset(d)) != gone
      ensures LinksTo(rs', rs[i].key.Add(Offset(d)), Neighbor(rs, i, d))
    {
      MovedLink(before, rs, index, i, d);
    }
    forall j | 0 <= j < |rs'| ensures rs'[j] == rs[if j == index then last else j] {}
    forall d | 0 <= d < 8 ensures gone.Add(Offset(d)) != gone {}
  }

  /** One entry of the regions before the removal, read with the indices after it. */
  lemma MovedLink(before: seq<Slot>, rs: seq<Slot>, index: nat, i: nat, d: nat)
    requires DistinctKeys(before) && Linked(before) && SameCells(before, rs)
    requires index < |before| && i < |before| && d < 8
    requires if index == |before| - 1 then rs == before
             else Patched(before, rs, before[|before| - 1].key, Some(index), 8)
    requires before[i].key.Add(Offset(d)) != before[index].key
    ensures Sized(rs) && LinksTo(SwapRemove(rs, index), before[i].key.Add(Offset(d)), Neighbor(rs, i, d))
  {
    var key, n := before[i].key.Add(Offset(d)), Neighbor(before, i, d);
    EntriesLink(before, i);
    FoundAt(before, key, n, |before| - 1);
    PatchedAt(before, rs, index, i, d);
    SwapRemoveLink(before, rs, index, key, n);
  }

  lemma PatchedAt(before: seq<Slot>, rs: seq<Slot>, index: nat, i: nat, d: nat)
    requires Linked(before) && SameCells(before, rs) && index < |before| && i < |before| && d < 8
    requires if index == |before| - 1 then rs == before
             else Patched(before, rs, before[|before| - 1].key, Some(index), 8)
    requires before[i].key.Add(Offset(d)) != before[index].key
    ensures Sized(rs)
    ensures Neighbor(rs, i, d) ==
      if before[i].key.Add(Offset(d)) == before[|before| - 1].key then Some(index) else Neighbor(before, i, d)
  {
  }

  lemma ClearedLinked(mid: seq<Slot>, rs: seq<Slot>, gone: Vec2)
    requires LinkedBut(mid, gone) && LinksTo(mid, gone, None) && SameCells(mid, rs)
    requires Patched(mid, rs, gone, None, 8)
    ensures Linked(rs)
  {
  }
}
