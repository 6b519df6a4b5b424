/** Double-precision rounding (IEEE 754, round to nearest, ties to even) of whole numbers, exactly. */
module Doubles {
  /** The precision of a double: 53 significant bits. */
  const PRECISION: nat := 0x20_0000_0000_0000

  /** The spacing of doubles around a whole number. */
  function Spacing(x: nat): (p: nat)
    ensures p > 0 && x < PRECISION * p
    ensures p == 1 || PRECISION * p <= 2 * x
  {
    if x < PRECISION then 1 else 2 * Spacing(x / 2)
  }

  /** The multiple of p nearest to x; of two, the even one. */
  function NearestMultiple(x: nat, p: nat): (r: nat)
    requires p > 0
    ensures 2 * x <= 2 * r + p && 2 * r <= 2 * x + p
    ensures p == 1 ==> r == x
  {
    var q, rest := x / p, x % p;
    assert x == q * p + rest;
    if 2 * rest < p || (2 * rest == p && q % 2 == 0) then q * p else q * p + p
  }

  /** The double nearest to a whole number: exact up to 53 bits, and within one part in 2^53 of it. */
  function Rounded(x: nat): (r: nat)
    ensures x < PRECISION ==> r == x
    ensures PRECISION * x <= PRECISION * r + x && PRECISION * r <= PRECISION * x + x
  {
    NearestMultiple(x, Spacing(x))
  }
}
