/** Facts about products and quotients. */
module Arithmetic {
  lemma Monotone(a: int, b: int, w: nat)
    requires a <= b
    ensures a * w <= b * w
  {
  }

  lemma Quotient(x: nat, w: nat, k: int)
    requires w > 0 && k * w <= x < (k + 1) * w
    ensures x / w == k
  {
    var j := x / w;
    assert j * w <= x < (j + 1) * w;
    if j < k { Monotone(j + 1, k, w); }
    if k < j { Monotone(k + 1, j, w); }
  }
}
