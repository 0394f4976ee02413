/** Powers of two, and quotient and remainder from a decomposition. */
module Arithmetic {

  function One(b: bool): nat {
    if b then 1 else 0
  }

  function Pow2(n: nat): (p: nat)
    ensures p > 0
  {
    if n == 0 then 1 else 2 * Pow2(n - 1)
  }

  /** `x == d * q + r` with a small enough `r` is the division of `x` by `d`. */
  lemma DivisionIs(x: int, d: int, q: int, r: int)
    requires 0 <= r < d && x == d * q + r
    ensures x / d == q && x % d == r
  {
    var k: int := x / d - q;
    assert d * k == r - x % d;
    assert k >= 1 ==> d * k >= d;
    assert k <= -1 ==> d * k <= -d;
  }

  /** `x & ((1 << n) - 1)` */
  function LowBits(x: nat, n: nat): nat {
    if n == 0 then 0 else x % 2 + 2 * LowBits(x / 2, n - 1)
  }

  lemma {:induction false} LowBitsIsMod(x: nat, n: nat)
    ensures LowBits(x, n) == x % Pow2(n)
  {
    if n > 0 {
      LowBitsIsMod(x / 2, n - 1);
      HalvedMod(x, Pow2(n - 1));
    }
  }

  lemma HalvedMod(x: nat, p: nat)
    requires p > 0
    ensures x % (2 * p) == x % 2 + 2 * (x / 2 % p)
  {
    var q, r: int := x / 2 / p, x / 2 % p;
    assert x / 2 == p * q + r;
    DivisionIs(x, 2 * p, q, x % 2 + 2 * r);
  }

  lemma LowBitsOfSmall(x: nat, n: nat)
    ensures LowBits(x, n) == x <==> x < Pow2(n)
  {}

  /** `x << n` */
  function ShiftLeft(x: nat, n: nat): nat {
    if n == 0 then x else 2 * ShiftLeft(x, n - 1)
  }
}
