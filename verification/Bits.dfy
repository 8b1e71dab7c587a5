/** Powers of two, bitwise and, and division: the arithmetic under prefix matching. */
module Bits {
  import opened Basics

  function Pow2(n: nat): (r: nat)
    ensures r > 0
  {
    if n == 0 then 1 else 2 * Pow2(n - 1)
  }

  /** Bitwise and, bit by bit. */
  function And(a: nat, b: nat): (r: nat)
    ensures r <= a
  {
    if a == 0 then 0 else (a % 2) * (b % 2) + 2 * And(a / 2, b / 2)
  }

  /** Reads bytes as one big-endian number. */
  function BigEndian(b: seq<byte>): (r: nat)
    ensures r < Pow2(8 * |b|)
  {
    if b == [] then 0
    else
      PowSplit(8, 8 * |b[1..]|);
      assert Pow2(8) == 256;
      var p := Pow2(8 * |b[1..]|);
      assert b[0] * p <= 255 * p;
      b[0] * p + BigEndian(b[1..])
  }

  lemma {:induction false} PowSplit(m: nat, n: nat)
    ensures Pow2(m + n) == Pow2(m) * Pow2(n)
  {
    if m == 0 {
    } else {
      PowSplit(m - 1, n);
      assert Pow2(m + n) == 2 * Pow2(m - 1 + n);
    }
  }

  function Quotient(x: nat, d: nat): nat
    requires d > 0
  {
    x / d
  }

  lemma MulMono(d: nat, a: int, b: int)
    requires a <= b
    ensures d * a <= d * b
  {
    assert d * (b - a) >= 0;
  }

  lemma DivUnique(x: int, d: nat, q: int, r: nat)
    requires r < d && x == d * q + r
    ensures q == x / d
  {
    var q' := x / d;
    assert d * q' <= x < d * q' + d;
    if q < q' {
      MulMono(d, q + 1, q');
    } else if q' < q {
      MulMono(d, q' + 1, q);
    }
  }

  lemma MulAssoc(a: nat, b: nat, c: nat)
    ensures a * (b * c) == (a * b) * c
  {}

  /** Dividing twice is dividing by the product. */
  lemma DivTwice(x: nat, a: nat, b: nat)
    requires a > 0 && b > 0
    ensures a * b > 0 && x / a / b == x / (a * b)
  {
    var y, r := x / a, x % a;
    var q, s := y / b, y % b;
    EuclidSplit(x, a);
    EuclidSplit(y, b);
    MulAssoc(a, b, q);
    Distribute(a, b * q, s);
    Distribute(a, s, 1);
    MulMono(a, s + 1, b);
    MulMono(a, 1, b);
    DivUnique(x, a * b, q, a * s + r);
  }

  lemma EuclidSplit(x: nat, d: nat)
    requires d > 0
    ensures x == d * (x / d) + x % d && x % d < d
  {}

  lemma Distribute(a: nat, b: nat, c: nat)
    ensures a * (b + c) == a * b + a * c
  {}

  /** Division sees through a high part that is a multiple of the divisor. */
  lemma DivHigh(h: nat, m: nat, d: nat, low: nat)
    requires d > 0
    ensures (h * (d * m) + low) / d == h * m + low / d
  {
    MulAssoc(h, d, m);
    MulAssoc(d, h, m);
    EuclidSplit(low, d);
    Distribute(d, h * m, low / d);
    DivUnique(h * (d * m) + low, d, h * m + low / d, low % d);
  }

  lemma PowMono(j: nat, k: nat)
    requires j <= k
    ensures Pow2(j) <= Pow2(k)
  {
    PowSplit(j, k - j);
    MulMono(Pow2(j), 1, Pow2(k - j));
  }

  lemma AndStep(x: nat, m: nat, low: nat)
    requires low < 2
    ensures And(x, 2 * m + low) == (x % 2) * low + 2 * And(x / 2, m)
  {
    assert (2 * m + low) / 2 == m && (2 * m + low) % 2 == low;
  }

  /** Masking with ones above j zero bits clears the j low bits of a k-bit number. */
  lemma {:induction false} AndHighBits(x: nat, j: nat, k: nat)
    requires j <= k && x < Pow2(k)
    ensures Pow2(j) <= Pow2(k)
    ensures And(x, Pow2(k) - Pow2(j)) == Pow2(j) * (x / Pow2(j))
  {
    PowMono(j, k);
    if k == 0 {
      assert x == 0;
    } else if j > 0 {
      AndHighBits(x / 2, j - 1, k - 1);
      ClearLowBit(x, Pow2(j - 1), Pow2(k - 1) - Pow2(j - 1));
    } else {
      AndHighBits(x / 2, 0, k - 1);
      AndStep(x, Pow2(k - 1) - 1, 1);
    }
  }

  lemma ClearLowBit(x: nat, d: nat, mask: nat)
    requires d > 0 && And(x / 2, mask) == d * (x / 2 / d)
    ensures And(x, 2 * mask) == (2 * d) * (x / (2 * d))
  {
    AndStep(x, mask, 0);
    DivTwice(x, 2, d);
    MulAssoc(2, d, x / 2 / d);
  }
}
