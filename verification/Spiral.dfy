/** The rectangular spiral of `common/src/spiral.rs`: an iterator over the integer plane. */
module Spiral {
  import opened Vek

  /** Number of positions on ring `layer`. */
  function LayerSize(layer: int): int {
    Max(layer * 8 + 4 * Min(layer, 1) - 4, 1)
  }

  // ----- an independent description: where a point lies on the spiral -----

  /** The ring a point lies on: its Chebyshev distance from the origin. */
  function Ring(p: Vec2): (l: nat)
    ensures Abs(p.x) <= l && Abs(p.y) <= l
    ensures Abs(p.x) == l || Abs(p.y) == l
  {
    Max(Abs(p.x), Abs(p.y))
  }

  /** Number of points strictly inside ring `l`. */
  function Inside(l: nat): nat {
    if l == 0 then 0 else (2 * l - 1) * (2 * l - 1)
  }

  /** Distance walked along the ring, from its lower left corner, to reach `p`. */
  function Walked(p: Vec2): nat {
    var l: int := Ring(p);
    if p.y == -l && p.x < l then p.x + l
    else if p.x == l && p.y < l then 3 * l + p.y
    else if p.y == l && p.x > -l then 5 * l - p.x
    else 7 * l - p.y
  }

  /** The position of `p` in the enumeration, counted from 0. */
  function Index(p: Vec2): nat { Inside(Ring(p)) + if Ring(p) == 0 then 0 else Walked(p) }

  lemma InsideGrows(l: nat)
    ensures Inside(l + 1) == Inside(l) + LayerSize(l)
    ensures Inside(l + 1) == (2 * l + 1) * (2 * l + 1)
  {
  }

  lemma {:induction false} InsideMonotone(a: nat, b: nat)
    requires a <= b
    ensures Inside(a) <= Inside(b)
    decreases b - a
  {
    if a < b {
      InsideGrows(a);
      InsideMonotone(a + 1, b);
    }
  }

  /** The closed form of the iterator: the `i`-th position of ring `layer`. */
  function PosAt(layer: int, i: int): Vec2 {
    var side := LayerSize(layer) / 4;
    Vec2(
      -layer + Min(Max(i - side * 0, 0), layer * 2) - Min(Max(i - side * 2, 0), layer * 2),
      -layer + Min(Max(i - side * 1, 0), layer * 2) - Min(Max(i - side * 3, 0), layer * 2))
  }

  /** The closed form walks ring `layer` in order. */
  lemma PosAtIndex(layer: nat, i: nat)
    requires i < LayerSize(layer)
    ensures Index(PosAt(layer, i)) == Inside(layer) + i
  {
    var p := PosAt(layer, i);
    if layer > 0 {
      assert LayerSize(layer) / 4 == 2 * layer;
      assert Ring(p) == layer && Walked(p) == i by {
        if i < 2 * layer {
          assert p == Vec2(i - layer, 0 - layer);
        } else if i < 4 * layer {
          assert p == Vec2(layer, i - 3 * layer);
        } else if i < 6 * layer {
          assert p == Vec2(5 * layer - i, layer);
        } else {
          assert p == Vec2(0 - layer, 7 * layer - i);
        }
      }
    }
  }

  lemma IndexWithinRing(p: Vec2)
    ensures Inside(Ring(p)) <= Index(p) < Inside(Ring(p) + 1)
  {
    InsideGrows(Ring(p));
  }

  /** The enumeration finishes a ring before it starts the next one. */
  lemma RingByRing(p: Vec2, q: Vec2)
    requires Ring(p) < Ring(q)
    ensures Index(p) < Index(q)
  {
    IndexWithinRing(p);
    IndexWithinRing(q);
    InsideMonotone(Ring(p) + 1, Ring(q));
  }

  /** No point is enumerated twice. */
  lemma IndexInjective(p: Vec2, q: Vec2)
    requires Index(p) == Index(q)
    ensures p == q
  {
    if Ring(p) < Ring(q) {
      RingByRing(p, q);
    } else if Ring(q) < Ring(p) {
      RingByRing(q, p);
    }
  }

  /** The first `(2r+1)^2` items are exactly the points of the square `[-r,r]^2`. */
  lemma SquarePrefix(r: nat, p: Vec2)
    ensures Index(p) < (2 * r + 1) * (2 * r + 1) <==> Abs(p.x) <= r && Abs(p.y) <= r
  {
    IndexWithinRing(p);
    InsideGrows(r);
    if Ring(p) <= r {
      InsideMonotone(Ring(p) + 1, r + 1);
    } else {
      InsideMonotone(r + 1, Ring(p));
    }
  }

  /** The filter of `radius`. */
  predicate InDisc(p: Vec2, radius: int) {
    p.MagnitudeSquared() < (radius + 1) * (radius + 1)
  }

  /** Listed in spiral order, hence without repetition. */
  ghost predicate Ascending(points: seq<Vec2>) {
    forall a, b :: 0 <= a < b < |points| ==> Index(points[a]) < Index(points[b])
  }

  /** One step of the take-and-filter chain. */
  function Filtered(points: seq<Vec2>, pos: Vec2, radius: int): (r: seq<Vec2>)
    ensures forall p :: p in r <==> p in points || (Index(p) == Index(pos) && InDisc(p, radius))
    ensures Ascending(points) && (forall p :: p in points ==> Index(p) < Index(pos)) ==> Ascending(r)
  {
    assert forall p :: Index(p) == Index(pos) ==> p == pos by {
      forall p | Index(p) == Index(pos) ensures p == pos { IndexInjective(p, pos); }
    }
    if InDisc(pos, radius) then points + [pos] else points
  }

  lemma SquaresOrdered(a: nat, b: nat)
    ensures a * a < b * b <==> a < b
  {
  }

  /** A disc never leaves the square that `radius` enumerates for it, whatever the sign of `r`. */
  lemma DiscInPrefix(r: int, p: Vec2)
    requires InDisc(p, r)
    ensures Index(p) < (2 * r + 1) * (2 * r + 1)
  {
    var s := if r >= 0 then r else -r - 1;
    assert (2 * r + 1) * (2 * r + 1) == (2 * s + 1) * (2 * s + 1);
    var m := if r >= 0 then r + 1 else s;
    assert m * m == (r + 1) * (r + 1);
    assert Abs(p.x) * Abs(p.x) == p.x * p.x && Abs(p.y) * Abs(p.y) == p.y * p.y;
    assert Abs(p.x) * Abs(p.x) < m * m && Abs(p.y) * Abs(p.y) < m * m;
    SquaresOrdered(Abs(p.x), m);
    SquaresOrdered(Abs(p.y), m);
    SquarePrefix(s, p);
  }

  // ----- the iterator -----

  class Spiral2d {
    var layer: int
    var i: int

    ghost predicate Valid()
      reads this
    {
      layer >= 0 && 0 <= i <= LayerSize(layer)
    }

    /** How many items have been produced so far. */
    ghost function Yielded(): nat
      reads this
      requires Valid()
    {
      Inside(layer) + i
    }

    constructor ()
      ensures Valid() && Yielded() == 0
    {
      layer := 0;
      i := 0;
    }

    /** `Iterator::next`; it never ends. */
    method Next() returns (pos: Vec2)
      requires Valid()
      modifies this
      ensures Valid() && Yielded() == old(Yielded()) + 1
      ensures Index(pos) == old(Yielded())
    {
      InsideGrows(layer);
      var layerSize := LayerSize(layer);
      if i >= layerSize {
        layer := layer + 1;
        i := 0;
      }
      PosAtIndex(layer, i);
      pos := PosAt(layer, i);
      i := i + 1;
    }

    /** `radius` from any point of the iteration: which points come out, in which order. */
    method Radius(radius: int) returns (points: seq<Vec2>)
      requires Valid()
      modifies this
      ensures Valid() && Yielded() == old(Yielded()) + (2 * radius + 1) * (2 * radius + 1)
      ensures forall p :: p in points <==> old(Yielded()) <= Index(p) < Yielded() && InDisc(p, radius)
      ensures Ascending(points)
    {
      points := [];
      var take := (radius * 2 + 1) * (radius * 2 + 1);
      for n := 0 to take
        invariant Valid() && Yielded() == old(Yielded()) + n
        invariant forall p :: p in points <==> old(Yielded()) <= Index(p) < Yielded() && InDisc(p, radius)
        invariant Ascending(points)
      {
        var pos := Next();
        points := Filtered(points, pos, radius);
      }
    }
  }

  /** `Spiral2d::new().radius(r)`: every point of the open disc of radius `r + 1`, each once. */
  method Disc(radius: int) returns (points: seq<Vec2>)
    ensures forall p: Vec2 :: p in points <==> p.x * p.x + p.y * p.y < (radius + 1) * (radius + 1)
    ensures Ascending(points)
  {
    var spiral := new Spiral2d();
    points := spiral.Radius(radius);
    forall p | InDisc(p, radius)
      ensures Index(p) < (2 * radius + 1) * (2 * radius + 1)
    {
      DiscInPrefix(radius, p);
    }
    forall p: Vec2 ensures p in points <==> p.x * p.x + p.y * p.y < (radius + 1) * (radius + 1) {
      assert p in points <==> InDisc(p, radius);
    }
  }
}
