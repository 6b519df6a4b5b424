/**
  When a pool accepts an operation, and what it then takes, gives and records. Refusals protect the limits
  the caller set; amounts are the exact ones as long as the products behind them fit the word.
 */
module PoolOutcomes {
  import opened PoolMath
  import opened LiquidityPool
  import opened PoolSafety

  // ---------------------------------------------------------------- fees

  /** Is this the whole part of a fraction? */
  predicate IsQuotient(q: nat, x: nat, d: nat) {
    q * d <= x < (q + 1) * d
  }

  lemma QuotientIsUnique(q: nat, r: nat, x: nat, d: nat)
    requires d > 0 && IsQuotient(q, x, d) && IsQuotient(r, x, d)
    ensures q == r
  {
    if q < r {
      MulLe(q + 1, r, d, d);
    } else if r < q {
      MulLe(r + 1, q, d, d);
    }
  }

  /** As long as the multiplications fit the word, both fees are their rates in hundredths of a percent, rounded down. */
  lemma FeesAreShares(p: Pool, amountIn: u128)
    requires amountIn * p.feeRate <= U128_MAX && amountIn * p.protocolFeeRate <= U128_MAX
    ensures IsQuotient(TotalFee(p, amountIn), amountIn * p.feeRate, 10000)
    ensures IsQuotient(ProtocolFee(p, amountIn), amountIn * p.protocolFeeRate, 10000)
  {
  }

  // ---------------------------------------------------------------- swap

  function ReserveIn(p: Pool, aToB: bool): u128 {
    if aToB then p.reserveA else p.reserveB
  }

  function ReserveOut(p: Pool, aToB: bool): u128 {
    if aToB then p.reserveB else p.reserveA
  }

  /** What the constant product gives for an input after fees, in whole units. */
  function OutputFor(reserveIn: u128, reserveOut: u128, afterFee: u128): nat
    requires reserveIn + afterFee > 0
  {
    Whole(reserveOut * afterFee, reserveIn + afterFee)
  }

  function Whole(x: nat, d: nat): (q: nat)
    requires d > 0
  {
    x / d
  }

  /** It keeps the product of the reserves, one unit more would not, and it is never more than the reserve. */
  lemma OutputIsExact(reserveIn: u128, reserveOut: u128, afterFee: u128)
    requires reserveIn + afterFee > 0
    ensures IsQuotient(OutputFor(reserveIn, reserveOut, afterFee), reserveOut * afterFee, reserveIn + afterFee)
    ensures OutputFor(reserveIn, reserveOut, afterFee) <= reserveOut
  {
    var d := reserveIn + afterFee;
    FloorBoth(reserveOut * afterFee, d);
    MulLe(reserveOut, reserveOut, afterFee, d);
    CancelFactor(OutputFor(reserveIn, reserveOut, afterFee), reserveOut, d);
  }

  lemma FloorBoth(x: nat, d: nat)
    requires d > 0
    ensures IsQuotient(x / d, x, d)
  {
    assert x == x / d * d + x % d;
  }

  /** The conditions under which a swap goes through. */
  predicate Tradable(reserveIn: u128, reserveOut: u128, afterFee: u128, kept: u128, minOut: u128) {
    && reserveIn + afterFee > 0
    && OutputFor(reserveIn, reserveOut, afterFee) > 0 && OutputFor(reserveIn, reserveOut, afterFee) >= minOut
    && reserveOut * afterFee <= U128_MAX && reserveIn + afterFee <= U128_MAX && reserveIn + kept <= U128_MAX
  }

  lemma QuoteExactly(p: Pool, reserveIn: u128, reserveOut: u128, amountIn: u128, minOut: u128, afterFee: u128, kept: u128)
    requires afterFee + TotalFee(p, amountIn) == amountIn && kept + ProtocolFee(p, amountIn) == amountIn
    ensures Quote(p, reserveIn, reserveOut, amountIn, minOut).Ok? <==> Tradable(reserveIn, reserveOut, afterFee, kept, minOut)
    ensures Tradable(reserveIn, reserveOut, afterFee, kept, minOut) ==>
              Quote(p, reserveIn, reserveOut, amountIn, minOut)
              == Ok(SwapOutcome(OutputFor(reserveIn, reserveOut, afterFee), ProtocolFee(p, amountIn)))
  {
    if reserveIn + afterFee > 0 {
      OutputIsExact(reserveIn, reserveOut, afterFee);
    }
  }

  /**
    A swap is accepted if and only if something comes in, something goes out, it is at least the caller's
    minimum, and nothing overflows; and then exactly the quoted output goes out. A refused one changes nothing.
   */
  lemma SwapIsAcceptedExactly(p: Pool, aToB: bool, amountIn: u128, minOut: u128, afterFee: u128, kept: u128)
    requires afterFee + TotalFee(p, amountIn) == amountIn && kept + ProtocolFee(p, amountIn) == amountIn
    ensures var (p', r) := Swap(p, aToB, amountIn, minOut);
            && (r.Ok? <==> amountIn > 0 && Tradable(ReserveIn(p, aToB), ReserveOut(p, aToB), afterFee, kept, minOut))
            && (r.Ok? ==> r.value == SwapOutcome(OutputFor(ReserveIn(p, aToB), ReserveOut(p, aToB), afterFee), ProtocolFee(p, amountIn)))
            && (r.Err? ==> p' == p)
  {
    QuoteExactly(p, ReserveIn(p, aToB), ReserveOut(p, aToB), amountIn, minOut, afterFee, kept);
  }

  /** What an accepted swap writes down: the input side's volume and fee grow, both as words, and nothing else but the reserves changes. */
  lemma SwapRecords(p: Pool, aToB: bool, amountIn: u128, minOut: u128, afterFee: u128, kept: u128)
    requires afterFee + TotalFee(p, amountIn) == amountIn && kept + ProtocolFee(p, amountIn) == amountIn
    requires amountIn > 0 && Tradable(ReserveIn(p, aToB), ReserveOut(p, aToB), afterFee, kept, minOut)
    ensures var fee, out := ProtocolFee(p, amountIn), OutputFor(ReserveIn(p, aToB), ReserveOut(p, aToB), afterFee);
            && out <= ReserveOut(p, aToB)
            && Swap(p, aToB, amountIn, minOut).0
               == (if aToB
                   then p.(reserveA := p.reserveA + kept, reserveB := p.reserveB - out,
                           volumeA := Wrap(p.volumeA + amountIn), protocolFeesA := Wrap(p.protocolFeesA + fee))
                   else p.(reserveB := p.reserveB + kept, reserveA := p.reserveA - out,
                           volumeB := Wrap(p.volumeB + amountIn), protocolFeesB := Wrap(p.protocolFeesB + fee)))
  {
    OutputIsExact(ReserveIn(p, aToB), ReserveOut(p, aToB), afterFee);
    QuoteExactly(p, ReserveIn(p, aToB), ReserveOut(p, aToB), amountIn, minOut, afterFee, kept);
  }

  // ---------------------------------------------------------------- deposit

  /** b is the most that does not exceed the pool's ratio to a. */
  predicate Matches(reserveA: u128, reserveB: u128, a: u128, b: u128) {
    b * reserveA <= a * reserveB < (b + 1) * reserveA
  }

  /**
    A deposit takes one of the desired amounts whole and of the other what matches it in the pool's ratio;
    the first token whole exactly when its match is within what was desired of the second.
   */
  lemma DepositMatchesRatio(p: Pool, desiredA: u128, desiredB: u128)
    requires p.reserveA > 0 && p.reserveB > 0
    requires desiredA * p.reserveB <= U128_MAX && desiredB * p.reserveA <= U128_MAX
    ensures var (a, b) := AddAmounts(p, desiredA, desiredB);
            && a <= desiredA && b <= desiredB
            && ((a == desiredA && Matches(p.reserveA, p.reserveB, a, b))
                || (b == desiredB && Matches(p.reserveB, p.reserveA, b, a)))
            && (desiredA * p.reserveB < (desiredB + 1) * p.reserveA <==> a == desiredA && Matches(p.reserveA, p.reserveB, a, b))
  {
    var matchB := Div(Wrap(desiredA * p.reserveB), p.reserveA);
    assert Matches(p.reserveA, p.reserveB, desiredA, matchB);
    AddWithinDesired(p, desiredA, desiredB);
    if matchB <= desiredB {
      MulLe(matchB + 1, desiredB + 1, p.reserveA, p.reserveA);
    } else {
      MulLe(desiredB + 1, matchB, p.reserveA, p.reserveA);
      TakesLess(p, desiredA, desiredB);
    }
  }

  /** If the match of A is too much, less than all of A is taken, or all of it with what was desired of B, short of its match. */
  lemma TakesLess(p: Pool, desiredA: u128, desiredB: u128)
    requires p.reserveA > 0 && p.reserveB > 0
    requires desiredA * p.reserveB <= U128_MAX && desiredB * p.reserveA <= U128_MAX
    requires desiredA * p.reserveB >= (desiredB + 1) * p.reserveA
    ensures var (a, b) := AddAmounts(p, desiredA, desiredB);
            b == desiredB && Matches(p.reserveB, p.reserveA, b, a) && !(a == desiredA && Matches(p.reserveA, p.reserveB, a, b))
  {
    var matchB := Div(Wrap(desiredA * p.reserveB), p.reserveA);
    if matchB <= desiredB {
      MulLe(matchB + 1, desiredB + 1, p.reserveA, p.reserveA);
    }
  }

  /**
    A deposit is accepted if and only if the pool is funded, both amounts reach the caller's minimums,
    something is minted, and nothing overflows. One that is refused before the first overflow check changes nothing.
   */
  lemma DepositIsAcceptedExactly(p: Pool, desiredA: u128, desiredB: u128, minA: u128, minB: u128)
    requires p.reserveA > 0 && p.reserveB > 0
    ensures var (a, b) := AddAmounts(p, desiredA, desiredB);
            var (p', r) := AddLiquidity(p, desiredA, desiredB, minA, minB);
            && (r.Ok? <==> a >= minA && b >= minB && LpFor(p, a, b) > 0 && p.reserveA + a <= U128_MAX
                           && p.reserveB + b <= U128_MAX && p.totalLp + LpFor(p, a, b) <= U128_MAX)
            && (r.Ok? ==> r.value == AddOutcome(a, b, LpFor(p, a, b)))
            && (r.Err? && r.error != Overflow ==> p' == p)
  {
  }

  /** A pool without reserves takes no deposit, and the attempt divides by zero. */
  lemma EmptyPoolPanics(p: Pool, desiredA: u128, desiredB: u128, minA: u128, minB: u128)
    requires p.reserveA == 0 || p.reserveB == 0
    ensures AddLiquidity(p, desiredA, desiredB, minA, minB) == (p, Err(Panic))
  {
  }

  // ---------------------------------------------------------------- withdrawal

  /**
    A withdrawal is accepted if and only if it burns LP tokens the user holds and both shares reach the
    caller's minimums; the shares are then the exact ones as long as the products fit the word.
   */
  lemma WithdrawalIsAcceptedExactly(p: Pool, held: u128, lpTokens: u128, minA: u128, minB: u128, a: nat, b: nat)
    requires held <= p.totalLp && lpTokens * p.reserveA <= U128_MAX && lpTokens * p.reserveB <= U128_MAX
    requires IsQuotient(a, lpTokens * p.reserveA, p.totalLp) && IsQuotient(b, lpTokens * p.reserveB, p.totalLp)
    ensures var (p', r) := RemoveLiquidity(p, held, lpTokens, minA, minB);
            && (r.Ok? <==> 0 < lpTokens <= held && a >= minA && b >= minB)
            && (r.Ok? ==> r.value == (a, b))
            && (r.Err? ==> p' == p)
  {
    if 0 < lpTokens <= held {
      MulCommutes(lpTokens, p.reserveA);
      MulCommutes(lpTokens, p.reserveB);
      QuotientIsUnique(a, ShareOf(p.reserveA, lpTokens, p.totalLp), lpTokens * p.reserveA, p.totalLp);
      QuotientIsUnique(b, ShareOf(p.reserveB, lpTokens, p.totalLp), lpTokens * p.reserveB, p.totalLp);
    }
  }
}
