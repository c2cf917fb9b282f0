/** Little-endian byte strings: the `to_le_bytes`/`from_le_bytes` pairs of the network types. */
module Bytes {
  import opened Types
  import A = Arithmetic

  function Pow256(k: nat): (p: nat)
    ensures p > 0
  {
    if k == 0 then 1 else 256 * Pow256(k - 1)
  }

  /** The low `k` bytes of `n`, least significant first. */
  function LE(n: nat, k: nat): (s: seq<u8>)
    ensures |s| == k
  {
    if k == 0 then [] else [n % 256] + LE(n / 256, k - 1)
  }

  function FromLE(s: seq<u8>): (n: nat)
    ensures n < Pow256(|s|)
  {
    if s == [] then 0 else s[0] + 256 * FromLE(s[1..])
  }

  function U16(s: seq<u8>): u16
    requires |s| == 2
  {
    FromLE(s)
  }

  function U32(s: seq<u8>): u32
    requires |s| == 4
  {
    FromLE(s)
  }

  function U64(s: seq<u8>): u64
    requires |s| == 8
  {
    FromLE(s)
  }

  function U128(s: seq<u8>): u128
    requires |s| == 16
  {
    assert Pow256(8) == 0x1_0000_0000_0000_0000;
    assert Pow256(12) == 0x1_0000_0000_0000_0000_0000_0000;
    FromLE(s)
  }

  /** The digit of `n` to the base 256 that stands for 256 to the power of `i`. */
  function Digit(n: nat, i: nat): u8 { n / Pow256(i) % 256 }

  lemma DivideTwice(n: nat, p: nat, q: nat, r: nat)
    requires p > 0 && q == n / 256 && r == q / p
    ensures r == n / (256 * p)
  {
    var d := 256 * p;
    assert r * d == 256 * (r * p) && (r + 1) * d == 256 * (r * p + p);
    A.Quotient(n, d, r);
  }

  lemma DigitShift(n: nat, i: nat, j: nat)
    requires i == j + 1
    ensures Digit(n, i) == Digit(n / 256, j)
  {
    DivideTwice(n, Pow256(j), n / 256, n / 256 / Pow256(j));
  }

  /** The byte order: byte `i` is the digit for 256 to the power of `i`. */
  lemma {:induction false} LEAt(n: nat, k: nat, i: nat)
    requires i < k
    ensures LE(n, k)[i] == Digit(n, i)
  {
    if i == 0 {
      assert Pow256(0) == 1;
    } else {
      LEAt(n / 256, k - 1, i - 1);
      DigitShift(n, i, i - 1);
    }
  }

  /** Reading back what was written gives the number, if it fits in `k` bytes. */
  lemma {:induction false} ReadBack(n: nat, k: nat)
    requires n < Pow256(k)
    ensures FromLE(LE(n, k)) == n
  {
    if k > 0 {
      ReadBack(n / 256, k - 1);
      assert LE(n, k)[1..] == LE(n / 256, k - 1);
    }
  }

  lemma DivMod256(d: u8, n: nat)
    ensures (d + 256 * n) % 256 == d && (d + 256 * n) / 256 == n
  {
  }

  /** Writing back what was read gives the bytes. */
  lemma {:induction false} WriteBack(s: seq<u8>)
    ensures LE(FromLE(s), |s|) == s
  {
    if s != [] {
      var n := FromLE(s[1..]);
      WriteBack(s[1..]);
      DivMod256(s[0], n);
      assert FromLE(s) == s[0] + 256 * n;
    }
  }

  lemma U16ReadBack(n: u16)
    ensures U16(LE(n, 2)) == n
  {
    ReadBack(n, 2);
  }

  lemma U32ReadBack(n: u32)
    ensures U32(LE(n, 4)) == n
  {
    ReadBack(n, 4);
  }

  lemma U64ReadBack(n: u64)
    ensures U64(LE(n, 8)) == n
  {
    ReadBack(n, 8);
  }

  lemma U128ReadBack(n: u128)
    ensures U128(LE(n, 16)) == n
  {
    assert U128(LE(n, 16)) == FromLE(LE(n, 16));
    assert Pow256(8) == 0x1_0000_0000_0000_0000;
    assert Pow256(12) == 0x1_0000_0000_0000_0000_0000_0000;
    ReadBack(n, 16);
  }
}
