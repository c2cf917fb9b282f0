/** The table of prices: 100 points, doubled every five priorities. */
module Prices {
  import opened Types
  import opened Prios

  function Power(x: nat, k: nat): nat { if k == 0 then 1 else x * Power(x, k - 1) }

  /** The price of `p` is the integer nearest to 100 times the `k`-th root of 2 to the power of `p`. */
  predicate Nearest(p: Prio, k: nat) {
    Power(2 * PRIOS[p] - 1, k) <= Power(200, k) * Power(2, p) <= Power(2 * PRIOS[p] + 1, k)
  }

  // ----- powers -----

  lemma Swap(a: nat, b: nat, x: nat, y: nat)
    ensures a * b * (x * y) == (a * x) * (b * y)
  {
    var z := x * y;
    assert a * b * z == a * (b * z);
    assert b * z == x * (b * y);
    assert a * (x * (b * y)) == (a * x) * (b * y);
  }

  lemma Grow(a: nat, b: nat, x: nat, y: nat)
    requires a <= b && x <= y
    ensures a * x <= b * y
  {
    assert a * x <= b * x;
    assert b * x <= b * y;
  }

  lemma Shrink(a: nat, b: nat, x: nat)
    requires x > 0 && a * x <= b * x
    ensures a <= b
  {
    if b < a { Grow(b + 1, a, x, x); }
  }

  lemma {:induction false} PowerOfProduct(a: nat, b: nat, k: nat)
    ensures Power(a * b, k) == Power(a, k) * Power(b, k)
  {
    if k > 0 {
      PowerOfProduct(a, b, k - 1);
      Swap(a, b, Power(a, k - 1), Power(b, k - 1));
    }
  }

  lemma {:induction false} PowerMonotone(a: nat, b: nat, k: nat)
    requires a <= b
    ensures Power(a, k) <= Power(b, k)
  {
    if k > 0 {
      PowerMonotone(a, b, k - 1);
      Grow(a, b, Power(a, k - 1), Power(b, k - 1));
    }
  }

  lemma {:induction false} PowerPositive(x: nat, k: nat)
    requires x > 0
    ensures Power(x, k) > 0
  {
    if k > 0 { PowerPositive(x, k - 1); }
  }

  lemma Associate(x: nat, y: nat, z: nat)
    ensures x * (y * z) == x * y * z
  {
  }

  lemma {:induction false} PowerOfSum(x: nat, j: nat, k: nat)
    ensures Power(x, j + k) == Power(x, j) * Power(x, k)
  {
    if j > 0 {
      PowerOfSum(x, j - 1, k);
      Associate(x, Power(x, j - 1), Power(x, k));
    }
  }

  lemma {:induction false} PowerOfPower(x: nat, j: nat, k: nat)
    ensures Power(Power(x, j), k) == Power(x, j * k)
  {
    if k > 0 {
      PowerOfPower(x, j, k - 1);
      PowerOfSum(x, j, j * (k - 1));
      assert j + j * (k - 1) == j * k;
    }
  }

  // ----- the table -----

  const MILLION: nat := 1_000_000

  /** 200 million times the fifth roots of 1, 2, 4, 8 and 16, rounded down. */
  const ROOTS: seq<nat> := [200_000_000, 229_739_670, 263_901_582, 303_143_313, 348_220_225]

  const SCALES: seq<nat> := [1, 2, 4, 8, 16, 32, 64, 128, 256, 512, 1024, 2048, 4096]

  lemma {:induction false} ScalesDouble(i: nat)
    requires i < |SCALES|
    ensures SCALES[i] == Power(2, i)
  {
    if i > 0 { ScalesDouble(i - 1); }
  }

  predicate RootOf(root: nat, n: nat, k: nat) {
    Power(root, k) <= Power(200 * MILLION, k) * n <= Power(root + 1, k)
  }

  lemma FirstRoots(i: nat, k: nat)
    requires i < 3 && k == 5
    ensures RootOf(ROOTS[i], SCALES[i], k)
  {
    assert RootOf(200_000_000, 1, 5) && RootOf(229_739_670, 2, 5) && RootOf(263_901_582, 4, 5);
  }

  lemma LastRoots(i: nat, k: nat)
    requires 3 <= i < 5 && k == 5
    ensures RootOf(ROOTS[i], SCALES[i], k)
  {
    assert RootOf(303_143_313, 8, 5) && RootOf(348_220_225, 16, 5);
  }

  /** The price of `p` is within half a point of `scale` times the root for `p`. */
  predicate Fits(p: Prio, scale: nat) {
    && (2 * PRIOS[p] - 1) * MILLION <= scale * ROOTS[p % 5]
    && scale * (ROOTS[p % 5] + 1) <= (2 * PRIOS[p] + 1) * MILLION
  }

  lemma FitsEarly(p: Prio, scale: nat)
    requires p < 20 && scale == SCALES[p / 5]
    ensures Fits(p, scale)
  {
    if p < 5 {
      assert Fits(p, 1);
    } else if p < 10 {
      assert Fits(p, 2);
    } else if p < 15 {
      assert Fits(p, 4);
    } else {
      assert Fits(p, 8);
    }
  }

  lemma FitsMiddle(p: Prio, scale: nat)
    requires 20 <= p < 40 && scale == SCALES[p / 5]
    ensures Fits(p, scale)
  {
    if p < 25 {
      assert Fits(p, 16);
    } else if p < 30 {
      assert Fits(p, 32);
    } else if p < 35 {
      assert Fits(p, 64);
    } else {
      assert Fits(p, 128);
    }
  }

  lemma FitsLate(p: Prio, scale: nat)
    requires 40 <= p && scale == SCALES[p / 5]
    ensures Fits(p, scale)
  {
    if p < 45 {
      assert Fits(p, 256);
    } else if p < 50 {
      assert Fits(p, 512);
    } else if p < 55 {
      assert Fits(p, 1024);
    } else if p < 60 {
      assert Fits(p, 2048);
    } else {
      assert Fits(p, 4096);
    }
  }

  lemma Regroup(s: nat, c: nat, m: nat, n: nat)
    ensures s * (c * m * n) == c * (s * n) * m
  {
    assert c * m * n == c * (m * n);
    Swap(s, c, 1, m * n);
    Swap(c, s * n, 1, m);
  }

  lemma Squeeze(x: nat, y: nat, c: nat, m: nat, s: nat, n: nat, a: nat, b: nat)
    requires m > 0 && x * m <= s * a && s * b <= y * m
    requires a <= c * m * n <= b
    ensures x <= c * (s * n) <= y
  {
    Grow(s, s, a, c * m * n);
    Grow(s, s, c * m * n, b);
    Regroup(s, c, m, n);
    Shrink(x, c * (s * n), m);
    Shrink(c * (s * n), y, m);
  }

  lemma PowersOfProducts(a: nat, b: nat, c: nat, d: nat, k: nat)
    requires a * b <= c * d
    ensures Power(a, k) * Power(b, k) <= Power(c, k) * Power(d, k)
  {
    var x, y := a * b, c * d;
    assert Power(x, k) <= Power(y, k) by { PowerMonotone(x, y, k); }
    assert Power(x, k) == Power(a, k) * Power(b, k) by { PowerOfProduct(a, b, k); }
    assert Power(y, k) == Power(c, k) * Power(d, k) by { PowerOfProduct(c, d, k); }
  }

  /** The bounds of a price, from those of its root. */
  lemma Bounds(x: nat, y: nat, scale: nat, root: nat, n: nat, k: nat)
    requires RootOf(root, n, k)
    requires x * MILLION <= scale * root && scale * (root + 1) <= y * MILLION
    ensures Power(x, k) <= Power(200, k) * (Power(scale, k) * n) <= Power(y, k)
  {
    PowerPositive(MILLION, k);
    PowerOfProduct(200, MILLION, k);
    PowersOfProducts(x, MILLION, scale, root, k);
    PowersOfProducts(scale, root + 1, y, MILLION, k);
    Squeeze(Power(x, k), Power(y, k), Power(200, k), Power(MILLION, k), Power(scale, k), n,
            Power(root, k), Power(root + 1, k));
  }

  lemma PriceFits(p: Prio, scale: nat)
    requires scale == SCALES[p / 5]
    ensures Fits(p, scale)
  {
    if p < 20 { FitsEarly(p, scale); } else if p < 40 { FitsMiddle(p, scale); } else { FitsLate(p, scale); }
  }

  lemma PowerSplit(p: nat, octave: nat, i: nat, j: nat, k: nat)
    requires j == octave * k && p == j + i
    ensures Power(2, p) == Power(Power(2, octave), k) * Power(2, i)
  {
    PowerOfPower(2, octave, k);
    PowerOfSum(2, j, i);
  }

  lemma Conclude(p: Prio, x: nat, y: nat, octave: nat, i: nat, j: nat, k: nat, scale: nat, n: nat, root: nat)
    requires x == 2 * PRIOS[p] - 1 && y == 2 * PRIOS[p] + 1
    requires j == octave * k && p == j + i && scale == Power(2, octave) && n == Power(2, i) && RootOf(root, n, k)
    requires x * MILLION <= scale * root && scale * (root + 1) <= y * MILLION
    ensures Nearest(p, k)
  {
    var doubled := Power(2, p);
    assert doubled == Power(scale, k) * n by { PowerSplit(p, octave, i, j, k); }
    Bounds(x, y, scale, root, n, k);
  }

  lemma RootsRight(i: nat, k: nat)
    requires i < 5 && k == 5
    ensures RootOf(ROOTS[i], SCALES[i], k)
  {
    if i < 3 { FirstRoots(i, k); } else { LastRoots(i, k); }
  }

  /** Every price is 100 times the fifth root of 2 to the power of the priority, rounded. */
  lemma PricesNearest(p: Prio, k: nat)
    requires k == 5
    ensures Nearest(p, k)
  {
    var octave, i := p / 5, p % 5;
    var scale, n, root, price := SCALES[octave], SCALES[i], ROOTS[i], PRIOS[p];
    PriceFits(p, scale);
    RootsRight(i, k);
    ScalesDouble(octave);
    ScalesDouble(i);
    Conclude(p, 2 * price - 1, 2 * price + 1, octave, i, p - i, k, scale, n, root);
  }
}
