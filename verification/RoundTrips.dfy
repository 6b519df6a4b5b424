/** Round trips: nobody gains by swapping in and straight back, or by depositing and withdrawing again. */
module RoundTrips {
  import opened PoolMath
  import opened LiquidityPool
  import opened PoolSafety

  // ---------------------------------------------------------------- swaps

  /** The second leg of a round trip, in numbers: what comes back, in proportion to what the first leg traded. */
  lemma ReturnLeg(reserveIn: nat, reserveOut: nat, kept: nat, afterFee: nat, out: nat, afterFee': nat, back: nat)
    requires reserveIn + afterFee > 0 && 0 < out && out == reserveOut * afterFee / (reserveIn + afterFee)
    requires out <= reserveOut && afterFee' <= out && (reserveOut - out) + afterFee' > 0
    requires back == (reserveIn + kept) * afterFee' / ((reserveOut - out) + afterFee')
    ensures back * (reserveIn + afterFee) <= (reserveIn + kept) * afterFee
  {
    var r, left, d := reserveIn + kept, reserveOut - out, reserveIn + afterFee;
    FloorBelow(reserveOut * afterFee, d, out);
    FloorBelow(r * afterFee', left + afterFee', back);
    CrossGrow(r, left, afterFee', out, back);
    Chain(back, reserveOut, r, out, d, afterFee);
  }

  lemma FloorBelow(x: nat, d: nat, q: nat)
    requires d > 0 && q == x / d
    ensures q * d <= x
  {
  }

  /** The quotient grows with the input. */
  lemma CrossGrow(r: nat, left: nat, afterFee: nat, out: nat, back: nat)
    requires afterFee <= out && left + afterFee > 0
    requires back * (left + afterFee) <= r * afterFee
    ensures back * (left + out) <= r * out
  {
    var more := out - afterFee;
    assert back <= r by {
      MulLe(r, r, afterFee, left + afterFee);
      CancelFactor(back, r, left + afterFee);
    }
    assert back * (left + out) == back * (left + afterFee) + back * more;
    assert r * out == r * afterFee + r * more;
    MulLe(back, r, more, more);
  }

  lemma Chain(back: nat, reserveOut: nat, r: nat, out: nat, d: nat, afterFee: nat)
    requires reserveOut > 0 && back * reserveOut <= r * out && out * d <= reserveOut * afterFee
    ensures back * d <= r * afterFee
  {
    MulLe(back * reserveOut, r * out, d, d);
    MulLe(r, r, out * d, reserveOut * afterFee);
    Rearrange(back, reserveOut, d);
    Rearrange(r, out, d);
    Rearrange(r, reserveOut, afterFee);
    assert (back * d) * reserveOut <= (r * afterFee) * reserveOut;
    CancelFactor(back * d, r * afterFee, reserveOut);
  }

  lemma Rearrange(x: nat, y: nat, z: nat)
    ensures (x * y) * z == (x * z) * y == x * (y * z)
  {
  }

  /** What comes back is at most what the pool kept, or less than what it traded. */
  lemma ReturnBound(reserveIn: nat, kept: nat, afterFee: nat, back: nat)
    requires reserveIn + afterFee > 0 && back * (reserveIn + afterFee) <= (reserveIn + kept) * afterFee
    ensures afterFee <= kept ==> back <= kept
    ensures kept < afterFee ==> back < afterFee
  {
    var d := reserveIn + afterFee;
    if afterFee <= kept {
      MulLe(reserveIn, reserveIn, afterFee, kept);
      assert (reserveIn + kept) * afterFee == reserveIn * afterFee + kept * afterFee;
      assert kept * d == reserveIn * kept + kept * afterFee;
      CancelFactor(back, kept, d);
    } else {
      Overtakes(reserveIn, kept, afterFee, back);
    }
  }

  lemma Overtakes(reserveIn: nat, kept: nat, afterFee: nat, back: nat)
    requires kept < afterFee && back * (reserveIn + afterFee) <= (reserveIn + kept) * afterFee
    ensures back < afterFee
  {
    assert (reserveIn + kept) * afterFee < (reserveIn + afterFee) * afterFee by {
      assert (reserveIn + afterFee) * afterFee == (reserveIn + kept) * afterFee + (afterFee - kept) * afterFee;
      assert (afterFee - kept) * afterFee > 0;
    }
    BelowFactor(back, afterFee, reserveIn + afterFee);
  }

  lemma BelowFactor(x: nat, y: nat, d: nat)
    requires x * d < y * d
    ensures x < y
  {
  }

  /** The most that a round trip gives back. */
  function MostBack(p: Pool, amountIn: u128): int {
    if ProtocolFee(p, amountIn) <= TotalFee(p, amountIn) then amountIn - ProtocolFee(p, amountIn)
    else amountIn - TotalFee(p, amountIn) - 1
  }

  lemma QuoteThereAndBack(p: Pool, p1: Pool, reserveIn: u128, reserveOut: u128, amountIn: u128, minOut: u128, minBack: u128)
    requires RatesOk(p) && p1.feeRate == p.feeRate && p1.protocolFeeRate == p.protocolFeeRate
    requires Quote(p, reserveIn, reserveOut, amountIn, minOut).Ok?
    ensures var out := Quote(p, reserveIn, reserveOut, amountIn, minOut).value.amountOut;
            var kept := amountIn - ProtocolFee(p, amountIn);
            && 0 <= kept && reserveIn + kept <= U128_MAX && out <= reserveOut
            && var back := Quote(p1, reserveOut - out, reserveIn + kept, out, minBack);
               back.Ok? ==> back.value.amountOut <= MostBack(p, amountIn)
  {
    FeeOrder(p, amountIn);
    var out := Quote(p, reserveIn, reserveOut, amountIn, minOut).value.amountOut;
    var kept, afterFee := amountIn - ProtocolFee(p, amountIn), amountIn - TotalFee(p, amountIn);
    var back := Quote(p1, reserveOut - out, reserveIn + kept, out, minBack);
    FeeOrder(p1, out);
    if back.Ok? {
      ReturnLeg(reserveIn, reserveOut, kept, afterFee, out, out - TotalFee(p1, out), back.value.amountOut);
      ReturnBound(reserveIn, kept, afterFee, back.value.amountOut);
    }
  }

  /** A swap and the swap straight back; what comes back, if both go through. */
  function RoundTrip(p: Pool, aToB: bool, amountIn: u128, minOut: u128, minBack: u128): Result<u128> {
    var (p1, there) := Swap(p, aToB, amountIn, minOut);
    if there.Err? then Err(there.error) else
      var back := Swap(p1, !aToB, there.value.amountOut, minBack).1;
      if back.Err? then Err(back.error) else Ok(back.value.amountOut)
  }

  /** Swapping in and straight back never returns more than went in; the bound is the input minus the protocol's fee unless the fee wrapped. */
  lemma NoSwapGain(p: Pool, aToB: bool, amountIn: u128, minOut: u128, minBack: u128)
    requires RatesOk(p)
    ensures var back := RoundTrip(p, aToB, amountIn, minOut, minBack); back.Ok? ==> back.value <= MostBack(p, amountIn) <= amountIn
  {
    FeeOrder(p, amountIn);
    if aToB {
      NoGainFromA(p, amountIn, minOut, minBack);
    } else {
      NoGainFromB(p, amountIn, minOut, minBack);
    }
  }

  lemma NoGainFromA(p: Pool, amountIn: u128, minOut: u128, minBack: u128)
    requires RatesOk(p)
    ensures var back := RoundTrip(p, true, amountIn, minOut, minBack); back.Ok? ==> back.value <= MostBack(p, amountIn)
  {
    if Swap(p, true, amountIn, minOut).1.Ok? {
      QuoteThereAndBack(p, Swap(p, true, amountIn, minOut).0, p.reserveA, p.reserveB, amountIn, minOut, minBack);
    }
  }

  lemma NoGainFromB(p: Pool, amountIn: u128, minOut: u128, minBack: u128)
    requires RatesOk(p)
    ensures var back := RoundTrip(p, false, amountIn, minOut, minBack); back.Ok? ==> back.value <= MostBack(p, amountIn)
  {
    if Swap(p, false, amountIn, minOut).1.Ok? {
      QuoteThereAndBack(p, Swap(p, false, amountIn, minOut).0, p.reserveB, p.reserveA, amountIn, minOut, minBack);
    }
  }

  predicate PaysProtocol(p: Pool, aToB: bool, amountIn: u128, minOut: u128, minBack: u128) {
    var back := RoundTrip(p, aToB, amountIn, minOut, minBack);
    back.Ok? ==> back.value <= amountIn - ProtocolFee(p, amountIn)
  }

  /** Whatever the reserves, the direction and the slippage limits. */
  ghost predicate AlwaysPaysProtocol(p: Pool, amountIn: u128) {
    forall a: u128, b: u128, aToB, minOut: u128, minBack: u128 ::
      PaysProtocol(WithReserves(p, a, b), aToB, amountIn, minOut, minBack)
  }

  /**
    Exactly when no round trip of this amount gets back part of the protocol's fee, for all reserves: the
    fee falls short of the protocol's part by at most one, or so much comes in that nothing but an empty
    reserve can be traded against.
   */
  lemma RoundTripPaysExactly(p: Pool, amountIn: u128)
    requires RatesOk(p) && p.feeRate < BASIS_POINTS && amountIn > 0
    ensures AlwaysPaysProtocol(p, amountIn)
       <==> ProtocolFee(p, amountIn) <= TotalFee(p, amountIn) + 1 || amountIn - TotalFee(p, amountIn) > U128_MAX / 2
  {
    FeeOrder(p, amountIn);
    if ProtocolFee(p, amountIn) <= TotalFee(p, amountIn) + 1 {
      forall a: u128, b: u128, aToB, minOut: u128, minBack: u128
        ensures PaysProtocol(WithReserves(p, a, b), aToB, amountIn, minOut, minBack)
      {
        NoSwapGain(WithReserves(p, a, b), aToB, amountIn, minOut, minBack);
      }
    } else if amountIn - TotalFee(p, amountIn) > U128_MAX / 2 {
      forall a: u128, b: u128, aToB, minOut: u128, minBack: u128
        ensures PaysProtocol(WithReserves(p, a, b), aToB, amountIn, minOut, minBack)
      {
        HugeRoundTrip(WithReserves(p, a, b), aToB, amountIn, minOut, minBack);
      }
    } else {
      UncoveredRoundTripGains(p, amountIn);
    }
  }

  /** Against an empty reserve, all that comes back is what the pool kept. */
  lemma HugeRoundTrip(p: Pool, aToB: bool, amountIn: u128, minOut: u128, minBack: u128)
    requires RatesOk(p) && amountIn - TotalFee(p, amountIn) > U128_MAX / 2
    ensures PaysProtocol(p, aToB, amountIn, minOut, minBack)
  {
    FeeOrder(p, amountIn);
    if aToB {
      HugeFromA(p, amountIn, minOut, minBack);
    } else {
      HugeFromB(p, amountIn, minOut, minBack);
    }
  }

  lemma HugeFromA(p: Pool, amountIn: u128, minOut: u128, minBack: u128)
    requires RatesOk(p) && amountIn - TotalFee(p, amountIn) > U128_MAX / 2
    ensures PaysProtocol(p, true, amountIn, minOut, minBack)
  {
    if Swap(p, true, amountIn, minOut).1.Ok? {
      HugeThereAndBack(p, Swap(p, true, amountIn, minOut).0, p.reserveA, p.reserveB, amountIn, minOut, minBack);
    }
  }

  lemma HugeFromB(p: Pool, amountIn: u128, minOut: u128, minBack: u128)
    requires RatesOk(p) && amountIn - TotalFee(p, amountIn) > U128_MAX / 2
    ensures PaysProtocol(p, false, amountIn, minOut, minBack)
  {
    if Swap(p, false, amountIn, minOut).1.Ok? {
      HugeThereAndBack(p, Swap(p, false, amountIn, minOut).0, p.reserveB, p.reserveA, amountIn, minOut, minBack);
    }
  }

  lemma HugeThereAndBack(p: Pool, p1: Pool, reserveIn: u128, reserveOut: u128, amountIn: u128, minOut: u128, minBack: u128)
    requires RatesOk(p) && p1.feeRate == p.feeRate && p1.protocolFeeRate == p.protocolFeeRate
    requires amountIn - TotalFee(p, amountIn) > U128_MAX / 2
    requires Quote(p, reserveIn, reserveOut, amountIn, minOut).Ok?
    ensures var out := Quote(p, reserveIn, reserveOut, amountIn, minOut).value.amountOut;
            var kept := amountIn - ProtocolFee(p, amountIn);
            && 0 <= kept && reserveIn + kept <= U128_MAX && out <= reserveOut
            && var back := Quote(p1, reserveOut - out, reserveIn + kept, out, minBack);
               back.Ok? ==> back.value.amountOut <= kept
  {
    FeeOrder(p, amountIn);
    var out := Quote(p, reserveIn, reserveOut, amountIn, minOut).value.amountOut;
    var kept := amountIn - ProtocolFee(p, amountIn);
    if reserveIn > 0 {
      HugeQuote(p, reserveIn, reserveOut, amountIn, minOut);
    }
    FeeOrder(p1, out);
    var back := Quote(p1, reserveOut - out, kept, out, minBack);
    if back.Ok? {
      QuoteTakesPart(p1, reserveOut - out, kept, out, minBack);
    }
  }

  lemma QuoteTakesPart(p: Pool, reserveIn: u128, reserveOut: u128, amountIn: u128, minOut: u128)
    requires Quote(p, reserveIn, reserveOut, amountIn, minOut).Ok?
    ensures Quote(p, reserveIn, reserveOut, amountIn, minOut).value.amountOut <= reserveOut
  {
  }

  /** Otherwise these reserves give back more: the first leg takes one unit, the second takes half of everything for it. */
  lemma UncoveredRoundTripGains(p: Pool, amountIn: u128)
    requires RatesOk(p) && p.feeRate < BASIS_POINTS && amountIn > 0
    requires ProtocolFee(p, amountIn) > TotalFee(p, amountIn) + 1 && amountIn - TotalFee(p, amountIn) <= U128_MAX / 2
    ensures TotalFee(p, amountIn) <= amountIn
    ensures !PaysProtocol(WithReserves(p, amountIn - TotalFee(p, amountIn), 2), true, amountIn, 0, 0)
  {
    FeeOrder(p, amountIn);
    var afterFee, kept := amountIn - TotalFee(p, amountIn), amountIn - ProtocolFee(p, amountIn);
    UnitOut(p, amountIn);
    var (q1, there) := Swap(WithReserves(p, afterFee, 2), true, amountIn, 0);
    UnitIn(q1, afterFee + kept);
  }

  /** Against its own size and a reserve of 2, the input buys one unit. */
  lemma UnitOut(p: Pool, amountIn: u128)
    requires RatesOk(p) && amountIn > 0 && 0 < amountIn - TotalFee(p, amountIn) <= U128_MAX / 2
    requires ProtocolFee(p, amountIn) > TotalFee(p, amountIn)
    ensures ProtocolFee(p, amountIn) <= amountIn
    ensures var afterFee, kept := amountIn - TotalFee(p, amountIn), amountIn - ProtocolFee(p, amountIn);
            var (q1, there) := Swap(WithReserves(p, afterFee, 2), true, amountIn, 0);
            there.Ok? && there.value.amountOut == 1
            && q1.reserveA == afterFee + kept && q1.reserveB == 1 && q1.feeRate == p.feeRate && q1.protocolFeeRate == p.protocolFeeRate
  {
    UnitQuote(p, amountIn);
    var afterFee := amountIn - TotalFee(p, amountIn);
    var q := WithReserves(p, afterFee, 2);
    assert Quote(q, afterFee, 2, amountIn, 0) == Quote(p, afterFee, 2, amountIn, 0);
  }

  lemma UnitQuote(p: Pool, amountIn: u128)
    requires RatesOk(p) && 0 < amountIn - TotalFee(p, amountIn) <= U128_MAX / 2 && ProtocolFee(p, amountIn) > TotalFee(p, amountIn)
    ensures ProtocolFee(p, amountIn) <= amountIn
    ensures Quote(p, amountIn - TotalFee(p, amountIn), 2, amountIn, 0) == Ok(SwapOutcome(1, ProtocolFee(p, amountIn)))
  {
    FeeOrder(p, amountIn);
    var afterFee := amountIn - TotalFee(p, amountIn);
    assert 2 * afterFee == afterFee + afterFee <= U128_MAX;
    DivisorItself(afterFee + afterFee);
    assert afterFee + WrapMinus(amountIn, ProtocolFee(p, amountIn)) <= afterFee + afterFee;
  }

  /** One unit against a reserve of one takes half of the other reserve. */
  lemma UnitIn(q: Pool, reserve: u128)
    requires q.reserveA == reserve >= 2 && q.reserveB == 1 && RatesOk(q) && q.feeRate < BASIS_POINTS
    ensures var back := Swap(q, false, 1, 0).1; back.Ok? && back.value.amountOut == reserve / 2
  {
    assert TotalFee(q, 1) == 0 && ProtocolFee(q, 1) == 0;
    assert reserve * 1 / 2 == reserve / 2;
  }

  /** The pool of WrappedFeeBreaksBound: this round trip gets back more than the input minus the protocol's fee. */
  lemma WrappedFeeComesBack()
    ensures var amountIn := 11342745564031282115445820247725607049;
            var p := Pool("pair/x/y", "x", "y", amountIn, 28, 17821247874177495408, "lp/x/y", 0, 0, 30, 20, 10, 0, 0);
            RoundTrip(p, true, amountIn, 0, 0) == Ok(11337074191249266474388097337601744245)
            && amountIn - ProtocolFee(p, amountIn) == 11331402818467250833330374427477881442
  {
    var amountIn := 11342745564031282115445820247725607049;
    var p := Pool("pair/x/y", "x", "y", amountIn, 28, 17821247874177495408, "lp/x/y", 0, 0, 30, 20, 10, 0, 0);
    var (p1, there) := Swap(p, true, amountIn, 0);
    assert there.Ok? && there.value.amountOut == 14;
  }

  lemma ShareGivenBack(reserve: nat, totalLp: nat, amount: nat, lp: nat, word: nat)
    requires totalLp + lp > 0 && lp * reserve <= amount * totalLp
    requires word <= (reserve + amount) * lp
    ensures word / (totalLp + lp) <= amount
  {
  }

  /** Depositing and then withdrawing the minted tokens returns at most each deposited amount. */
  lemma NoDepositGain(p: Pool, desiredA: u128, desiredB: u128, minA: u128, minB: u128, held: u128, minA': u128, minB': u128)
    requires AddLiquidity(p, desiredA, desiredB, minA, minB).1.Ok?
    ensures var (p1, r1) := AddLiquidity(p, desiredA, desiredB, minA, minB);
            var (p2, r2) := RemoveLiquidity(p1, held, r1.value.lpTokens, minA', minB');
            r2.Ok? ==> r2.value.0 <= r1.value.amountA && r2.value.1 <= r1.value.amountB
  {
    var (p1, r1) := AddLiquidity(p, desiredA, desiredB, minA, minB);
    AddShape(p, desiredA, desiredB, minA, minB);
    ReturnedShares(p, p1, r1.value.amountA, r1.value.amountB);
  }

  lemma ReturnedShares(p: Pool, p1: Pool, a: u128, b: u128)
    requires p.reserveA > 0 && p.reserveB > 0 && LpFor(p, a, b) > 0
    requires p1.reserveA == p.reserveA + a && p1.reserveB == p.reserveB + b && p1.totalLp == p.totalLp + LpFor(p, a, b)
    ensures ShareOf(p1.reserveA, LpFor(p, a, b), p1.totalLp) <= a && ShareOf(p1.reserveB, LpFor(p, a, b), p1.totalLp) <= b
  {
    var lp := LpFor(p, a, b);
    MintedShare(p, a, b);
    ShareGivenBack(p.reserveA, p.totalLp, a, lp, Wrap(p1.reserveA * lp));
    ShareGivenBack(p.reserveB, p.totalLp, b, lp, Wrap(p1.reserveB * lp));
  }
}
