/** Bytes, and the bit operations the sources apply to them, over the integers 0 to 255.

    A right shift by k and a mask of the low k bits are `/` and `%` by 2^k, a left shift multiplies and drops
    what leaves the byte; `Or` is the bitwise operator itself. */
module Bytes {

  type byte = i: int | 0 <= i < 256
  type Bytes = seq<byte>

  const DASH: byte := 0x2D
  const EQUALS: byte := 0x3D
  const ZERO: byte := 0x30
  const ONE: byte := 0x31

  const TWO_64: nat := 0x1_0000_0000_0000_0000
  const TWO_31: int := 0x8000_0000

  function Or(x: nat, y: nat): nat
    decreases x + y
  {
    if x == 0 then y
    else if y == 0 then x
    else (if x % 2 == 1 || y % 2 == 1 then 1 else 0) + 2 * Or(x / 2, y / 2)
  }

  function Bit(n: nat, k: nat): bool {
    if k == 0 then n % 2 == 1 else Bit(n / 2, k - 1)
  }

  // Bit by bit.
  lemma {:induction false} OrBit(x: nat, y: nat, k: nat)
    ensures Bit(Or(x, y), k) <==> Bit(x, k) || Bit(y, k)
  {
    hide Or;
    OrHalf(x, y);
    if x == 0 || y == 0 {
      NoBit(k);
    } else if k > 0 {
      OrBit(x / 2, y / 2, k - 1);
    }
  }

  lemma OrHalf(x: nat, y: nat)
    ensures x == 0 ==> Or(x, y) == y
    ensures y == 0 ==> Or(x, y) == x
    ensures x > 0 && y > 0 ==> Or(x, y) / 2 == Or(x / 2, y / 2) && (Or(x, y) % 2 == 1 <==> x % 2 == 1 || y % 2 == 1)
  {
  }

  lemma {:induction false} NoBit(k: nat)
    ensures !Bit(0, k)
  {
    if k > 0 {
      NoBit(k - 1);
    }
  }

  function Pow2(k: nat): (p: nat)
    ensures p > 0
  {
    if k == 0 then 1 else 2 * Pow2(k - 1)
  }

  lemma {:induction false} OrBound(x: nat, y: nat, k: nat)
    requires x < Pow2(k) && y < Pow2(k)
    ensures Or(x, y) < Pow2(k)
  {
    if x > 0 && y > 0 {
      OrBound(x / 2, y / 2, k - 1);
    }
  }

  // b with x OR-ed into its last byte: `ret.back() |= x`.
  function OrBack(b: Bytes, x: byte): (r: Bytes)
    requires |b| > 0
    ensures |r| == |b|
  {
    assert Pow2(8) == 256 by { assert Pow2(4) == 2 * Pow2(3); assert Pow2(6) == 2 * Pow2(5); }
    OrBound(b[|b| - 1], x, 8);
    b[..|b| - 1] + [Or(b[|b| - 1], x)]
  }

  // Operands whose bits do not overlap add up.
  lemma {:induction false} DisjointOr(h: nat, y: nat, k: nat)
    requires y < Pow2(k)
    ensures Or(h * Pow2(k), y) == h * Pow2(k) + y
    ensures Or(y, h * Pow2(k)) == h * Pow2(k) + y
  {
    if k > 0 && h > 0 && y > 0 {
      var x := h * Pow2(k);
      assert x == 2 * (h * Pow2(k - 1));
      DisjointOr(h, y / 2, k - 1);
    }
  }

  lemma OrSplit(h: nat, y: nat, k: nat, p: nat)
    requires p == Pow2(k) && y < p
    ensures Or(h * p, y) == h * p + y && Or(y, h * p) == h * p + y
  {
    DisjointOr(h, y, k);
  }

  // The three splits of a byte that occur in the sources.
  lemma OrSplits(x: nat, y: nat)
    ensures x % 4 == 0 && y < 4 ==> Or(x, y) == x + y
    ensures x % 16 == 0 && y < 16 ==> Or(x, y) == x + y
    ensures x % 64 == 0 && y < 64 ==> Or(x, y) == x + y && Or(y, x) == x + y
  {
    hide Or;
    assert Pow2(2) == 4;
    assert Pow2(4) == 16 by { assert Pow2(3) == 8; }
    assert Pow2(6) == 64 by { assert Pow2(5) == 2 * Pow2(4); }
    if x % 4 == 0 && y < 4 { OrSplit(x / 4, y, 2, 4); }
    if x % 16 == 0 && y < 16 { OrSplit(x / 16, y, 4, 16); }
    if x % 64 == 0 && y < 64 { OrSplit(x / 64, y, 6, 64); }
  }

  // Quotient and remainder are determined by the division equation.
  lemma Division(v: nat, q: int, d: nat, r: int)
    requires v == q * d + r && 0 <= r < d
    ensures v / d == q && v % d == r
  {
    var e := v / d - q;
    assert v == d * (v / d) + v % d;
    MultipleIsFar(e, d);
    assert e * d == d * (v / d) - q * d;
  }

  lemma MultipleIsFar(e: int, d: nat)
    ensures e >= 1 ==> e * d >= d
    ensures e <= -1 ==> e * d + d <= 0
  {
    if e >= 1 {
      assert e * d == (e - 1) * d + d;
    } else if e <= -1 {
      assert e * d + d == -((-e - 1) * d);
    }
  }
}
