/**
  The arithmetic of the constant-product pool, on 128-bit unsigned words as the release build has
  them: multiplications that the code does not check wrap, the checked ones fail.
 */
module PoolMath {
  const U128_MAX: int := 0xFFFF_FFFF_FFFF_FFFF_FFFF_FFFF_FFFF_FFFF
  const U128_SIZE: int := 0x1_0000_0000_0000_0000_0000_0000_0000_0000

  type u128 = x: int | 0 <= x < 0x1_0000_0000_0000_0000_0000_0000_0000_0000

  function Wrap(x: nat): (r: u128)
    ensures r <= x
    ensures x <= U128_MAX ==> r == x
  {
    x % U128_SIZE
  }

  function WrapMinus(x: u128, y: u128): (r: u128)
    ensures y <= x ==> r == x - y
  {
    if y <= x then x - y else x - y + U128_SIZE
  }

  // ---------------------------------------------------------------- square root

  predicate IsFloorRoot(n: nat, r: nat) {
    r * r <= n < (r + 1) * (r + 1)
  }

  lemma FloorRootIsUnique(n: nat, r: nat, s: nat)
    requires IsFloorRoot(n, r) && IsFloorRoot(n, s)
    ensures r == s
  {
  }

  /** The exact integer square root, by definition. */
  function FloorRoot(n: nat): (r: nat)
    ensures IsFloorRoot(n, r)
  {
    if n == 0 then 0 else
      var r := FloorRoot(n - 1);
      if (r + 1) * (r + 1) <= n then r + 1 else r
  }

  lemma SquareOfSum(a: int, b: int)
    ensures (a + b) * (a + b) >= 4 * (a * b)
  {
    assert (a + b) * (a + b) - 4 * (a * b) == (a - b) * (a - b);
  }

  lemma MultiplyBoth(a: nat, b: nat)
    requires a >= b
    ensures a * a >= b * b
  {
  }

  lemma Quotient(n: nat, x: nat) returns (q: nat)
    requires x > 0
    ensures q == n / x && x * q <= n < x * (q + 1)
  {
    q := n / x;
  }

  /** A Newton step never falls below the root. */
  lemma NewtonStepStaysAbove(n: nat, x: nat)
    requires x > 0
    ensures var y := (x + n / x) / 2; (y + 1) * (y + 1) > n
  {
    var q := Quotient(n, x);
    var y := (x + q) / 2;
    SquareOfSum(x, q + 1);
    MultiplyBoth(2 * (y + 1), x + q + 1);
    assert (2 * (y + 1)) * (2 * (y + 1)) == 4 * ((y + 1) * (y + 1));
  }

  lemma NewtonStopsAtRoot(n: nat, x: nat)
    requires x > 0 && (x + n / x) / 2 >= x
    ensures x * x <= n
  {
  }

  /** Between 1 and n, the sum of a number and its quotient is at most n + 1. */
  lemma NewtonStepFits(n: nat, x: nat)
    requires 0 < x <= n
    ensures x + n / x <= n + 1
  {
    var q := Quotient(n, x);
    FactorsOutweighSum(x, q);
  }

  lemma FactorsOutweighSum(x: int, q: int)
    requires x >= 1 && q >= 1
    ensures x + q <= x * q + 1
  {
  }

  lemma RootIsPositive(n: nat, y: nat)
    requires n > 0 && (y + 1) * (y + 1) > n
    ensures y > 0
  {
  }

  /** One pass of the loop: the next value is positive, fits the word, and stays above the root. */
  lemma NewtonPass(n: nat, x: nat)
    requires 0 < n && 0 < x <= n
    ensures n / x <= n && x + n / x <= n + 1
    ensures var y := (x + n / x) / 2; y > 0 && (y + 1) * (y + 1) > n
  {
    NewtonStepFits(n, x);
    NewtonStepStaysAbove(n, x);
    RootIsPositive(n, (x + n / x) / 2);
  }

  /**
    Newton's iteration. It terminates, never leaves the word size, and returns the exact floor root.
    At the largest word the first addition wraps and the loop divides by zero, hence the bound.
   */
  method IntegerSqrt(n: u128) returns (root: u128)
    requires n < U128_MAX
    ensures root == FloorRoot(n)
  {
    if n == 0 {
      return 0;
    }
    var x: u128 := n;
    var y: u128 := (x + 1) / 2;
    assert n / n == 1;
    NewtonPass(n, n);
    MultiplyBoth(n + 1, n + 1);
    while y < x
      invariant 0 < x <= n && 0 < y && y == (x + n / x) / 2
      invariant (x + 1) * (x + 1) > n && (y + 1) * (y + 1) > n
      decreases x
    {
      x := y;
      NewtonPass(n, x);
      y := (x + n / x) / 2;
    }
    NewtonStopsAtRoot(n, x);
    FloorRootIsUnique(n, x, FloorRoot(n));
    return x;
  }
}
