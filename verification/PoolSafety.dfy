/** What a liquidity pool keeps over any sequence of swaps, deposits and withdrawals. */
module PoolSafety {
  import opened PoolMath
  import opened LiquidityPool

  /** The protocol's part of the fee is part of the fee. */
  predicate RatesOk(p: Pool) {
    p.protocolFeeRate <= p.feeRate <= BASIS_POINTS
  }

  /** The square of the LP supply never exceeds the product of the reserves. */
  predicate Sound(p: Pool) {
    p.totalLp * p.totalLp <= p.reserveA * p.reserveB && RatesOk(p)
  }

  /** The fee, as computed on words that may wrap, covers the protocol's part of it. */
  predicate FeeCovers(p: Pool, amountIn: u128) {
    ProtocolFee(p, amountIn) <= TotalFee(p, amountIn)
  }

  /** No reserve per LP token falls: cross-multiplied. */
  predicate NoDilution(p: Pool, p': Pool) {
    p'.reserveA * p.totalLp >= p.reserveA * p'.totalLp && p'.reserveB * p.totalLp >= p.reserveB * p'.totalLp
  }

  /** While LP tokens exist, no reserve is empty, so no operation divides by zero. */
  lemma SoundPoolIsFunded(p: Pool)
    requires Sound(p) && p.totalLp > 0
    ensures p.reserveA > 0 && p.reserveB > 0
  {
  }

  // ---------------------------------------------------------------- swap

  lemma FeeOrder(p: Pool, amountIn: u128)
    requires RatesOk(p)
    ensures TotalFee(p, amountIn) <= amountIn
    ensures ProtocolFee(p, amountIn) <= amountIn
  {
    MulLe(amountIn, amountIn, p.feeRate, BASIS_POINTS);
    MulLe(amountIn, amountIn, p.protocolFeeRate, BASIS_POINTS);
    FeeBound(amountIn * p.feeRate, amountIn);
    FeeBound(amountIn * p.protocolFeeRate, amountIn);
  }

  /** As long as the fee multiplication fits the word, the fee covers the protocol's part. */
  lemma SmallInputIsCovered(p: Pool, amountIn: u128)
    requires RatesOk(p) && amountIn * p.feeRate <= U128_MAX
    ensures FeeCovers(p, amountIn)
  {
    MulLe(amountIn, amountIn, p.protocolFeeRate, p.feeRate);
    DivideMonotone(amountIn * p.protocolFeeRate, amountIn * p.feeRate);
  }

  lemma FeeBound(scaled: nat, amountIn: u128)
    requires scaled <= amountIn * BASIS_POINTS
    ensures Div(Wrap(scaled), BASIS_POINTS) <= amountIn
  {
  }

  lemma DivideMonotone(x: u128, y: u128)
    requires x <= y
    ensures Div(x, BASIS_POINTS) <= Div(y, BASIS_POINTS)
  {
  }

  predicate KeepsProduct(p: Pool, aToB: bool, amountIn: u128, minOut: u128) {
    var p' := Swap(p, aToB, amountIn, minOut).0;
    p'.reserveA * p'.reserveB >= p.reserveA * p.reserveB
  }

  function WithReserves(p: Pool, a: u128, b: u128): Pool {
    p.(reserveA := a, reserveB := b)
  }

  /** Whatever the reserves, the direction and the slippage limit. */
  ghost predicate AlwaysKeepsProduct(p: Pool, amountIn: u128) {
    forall a: u128, b: u128, aToB, minOut: u128 :: KeepsProduct(WithReserves(p, a, b), aToB, amountIn, minOut)
  }

  /** The fee covers the protocol's part, or so much comes in that nothing but an empty reserve can be traded against. */
  predicate SafeAmount(p: Pool, amountIn: u128) {
    FeeCovers(p, amountIn) || amountIn - TotalFee(p, amountIn) > U128_MAX / 2
  }

  /** Exactly when a swap of this amount keeps the product of all reserves it may meet. */
  lemma ProductIsKeptExactly(p: Pool, amountIn: u128)
    requires RatesOk(p) && amountIn > 0
    ensures AlwaysKeepsProduct(p, amountIn) <==> SafeAmount(p, amountIn)
  {
    FeeOrder(p, amountIn);
    if SafeAmount(p, amountIn) {
      forall a: u128, b: u128, aToB, minOut: u128 ensures KeepsProduct(WithReserves(p, a, b), aToB, amountIn, minOut) {
        assert SafeAmount(WithReserves(p, a, b), amountIn);
        SwapKeepsProduct(WithReserves(p, a, b), aToB, amountIn, minOut);
      }
    } else {
      UncoveredSwapLosesProduct(p, amountIn);
    }
  }

  /**
    Any swap, in either direction: the LP supply stays, a refused one changes nothing, and the product of
    the reserves falls at most in the ratio of the input kept to the input traded; not at all for a safe amount.
   */
  lemma SwapKeepsProduct(p: Pool, aToB: bool, amountIn: u128, minOut: u128)
    requires RatesOk(p)
    ensures var (p', r) := Swap(p, aToB, amountIn, minOut);
            && p'.totalLp == p.totalLp && RatesOk(p') && (r.Err? ==> p' == p)
            && (SafeAmount(p, amountIn) ==> p'.reserveA * p'.reserveB >= p.reserveA * p.reserveB)
            && (r.Ok? ==> LosesAtMost(p, p', if aToB then p.reserveA else p.reserveB, amountIn))
  {
    if SafeAmount(p, amountIn) {
      SafeSwapKeepsProduct(p, aToB, amountIn, minOut);
    }
    SwapRatio(p, aToB, amountIn, minOut);
  }

  lemma SafeSwapKeepsProduct(p: Pool, aToB: bool, amountIn: u128, minOut: u128)
    requires RatesOk(p) && SafeAmount(p, amountIn)
    ensures KeepsProduct(p, aToB, amountIn, minOut)
  {
    FeeOrder(p, amountIn);
    if !FeeCovers(p, amountIn) {
      HugeInputMeetsNothing(p, aToB, amountIn, minOut);
    } else if Swap(p, aToB, amountIn, minOut).1.Ok? {
      SwapRatio(p, aToB, amountIn, minOut);
      RatioAtLeastOne(p, Swap(p, aToB, amountIn, minOut).0, if aToB then p.reserveA else p.reserveB, amountIn);
    }
  }

  lemma RatioAtLeastOne(p: Pool, p': Pool, reserveIn: u128, amountIn: u128)
    requires LosesAtMost(p, p', reserveIn, amountIn) && FeeCovers(p, amountIn) && reserveIn + amountIn > TotalFee(p, amountIn)
    ensures p'.reserveA * p'.reserveB >= p.reserveA * p.reserveB
  {
    NoLess(p.reserveA * p.reserveB, p'.reserveA * p'.reserveB,
           reserveIn + amountIn - TotalFee(p, amountIn), reserveIn + amountIn - ProtocolFee(p, amountIn));
  }

  lemma NoLess(x: nat, y: nat, traded: nat, kept: nat)
    requires y * traded >= x * kept && kept >= traded > 0
    ensures y >= x
  {
    MulLe(x, x, traded, kept);
    CancelFactor(x, y, traded);
  }

  /** The product of the reserves, against how much of the input stays in the pool and how much was traded. */
  predicate LosesAtMost(p: Pool, p': Pool, reserveIn: u128, amountIn: u128) {
    p'.reserveA * p'.reserveB * (reserveIn + amountIn - TotalFee(p, amountIn))
    >= p.reserveA * p.reserveB * (reserveIn + amountIn - ProtocolFee(p, amountIn))
  }

  lemma SwapRatio(p: Pool, aToB: bool, amountIn: u128, minOut: u128)
    requires RatesOk(p)
    ensures var (p', r) := Swap(p, aToB, amountIn, minOut);
            var reserveIn := if aToB then p.reserveA else p.reserveB;
            r.Ok? ==> reserveIn + amountIn > TotalFee(p, amountIn) && LosesAtMost(p, p', reserveIn, amountIn)
  {
    var (p', r) := Swap(p, aToB, amountIn, minOut);
    if r.Ok? {
      if aToB {
        QuoteRatio(p, p.reserveA, p.reserveB, amountIn, minOut);
      } else {
        QuoteRatio(p, p.reserveB, p.reserveA, amountIn, minOut);
        MulCommutes(p.reserveA, p.reserveB);
        MulCommutes(p'.reserveA, p'.reserveB);
      }
    }
  }

  lemma MulCommutes(a: nat, b: nat)
    ensures a * b == b * a
  {
  }

  lemma QuoteRatio(p: Pool, reserveIn: u128, reserveOut: u128, amountIn: u128, minOut: u128)
    requires RatesOk(p) && Quote(p, reserveIn, reserveOut, amountIn, minOut).Ok?
    ensures var out := Quote(p, reserveIn, reserveOut, amountIn, minOut).value.amountOut;
            var kept := amountIn - ProtocolFee(p, amountIn);
            && 0 <= kept && out <= reserveOut && reserveIn + amountIn > TotalFee(p, amountIn)
            && (reserveIn + kept) * (reserveOut - out) * (reserveIn + amountIn - TotalFee(p, amountIn))
               >= reserveIn * reserveOut * (reserveIn + kept)
  {
    FeeOrder(p, amountIn);
    var afterFee, kept := amountIn - TotalFee(p, amountIn), amountIn - ProtocolFee(p, amountIn);
    var out := Quote(p, reserveIn, reserveOut, amountIn, minOut).value.amountOut;
    assert WrapMinus(amountIn, TotalFee(p, amountIn)) == afterFee;
    ProductRatio(reserveIn, reserveOut, afterFee, kept, out);
  }

  lemma ProductRatio(reserveIn: nat, reserveOut: nat, afterFee: nat, kept: nat, out: nat)
    requires reserveIn + afterFee > 0 && out == reserveOut * afterFee / (reserveIn + afterFee) && out <= reserveOut
    ensures (reserveIn + kept) * (reserveOut - out) * (reserveIn + afterFee) >= reserveIn * reserveOut * (reserveIn + kept)
  {
    var d := reserveIn + afterFee;
    FloorTimes(reserveOut * afterFee, d);
    Distribute(reserveIn, afterFee, reserveOut, out);
    assert d * (reserveOut - out) >= reserveIn * reserveOut;
    MulLe(reserveIn * reserveOut, d * (reserveOut - out), reserveIn + kept, reserveIn + kept);
    Reorder(reserveIn + kept, reserveOut - out, d);
  }

  lemma Reorder(a: nat, b: nat, d: nat)
    ensures d * b * a == a * b * d
  {
  }

  lemma HugeInputMeetsNothing(p: Pool, aToB: bool, amountIn: u128, minOut: u128)
    requires TotalFee(p, amountIn) <= amountIn && amountIn - TotalFee(p, amountIn) > U128_MAX / 2
    ensures KeepsProduct(p, aToB, amountIn, minOut)
  {
    if (if aToB then p.reserveA else p.reserveB) == 0 {
      NothingToLose(p.reserveA, p.reserveB, Swap(p, aToB, amountIn, minOut).0.reserveA, Swap(p, aToB, amountIn, minOut).0.reserveB);
    } else {
      HugeSwapIsRefused(p, aToB, amountIn, minOut);
    }
  }

  lemma NothingToLose(a: nat, b: nat, a': nat, b': nat)
    requires a == 0 || b == 0
    ensures a' * b' >= a * b
  {
  }

  lemma HugeSwapIsRefused(p: Pool, aToB: bool, amountIn: u128, minOut: u128)
    requires TotalFee(p, amountIn) <= amountIn && amountIn - TotalFee(p, amountIn) > U128_MAX / 2
    requires (if aToB then p.reserveA else p.reserveB) > 0
    ensures Swap(p, aToB, amountIn, minOut).0 == p
  {
    if aToB {
      HugeQuote(p, p.reserveA, p.reserveB, amountIn, minOut);
    } else {
      HugeQuote(p, p.reserveB, p.reserveA, amountIn, minOut);
    }
  }

  lemma HugeQuote(p: Pool, reserveIn: u128, reserveOut: u128, amountIn: u128, minOut: u128)
    requires TotalFee(p, amountIn) <= amountIn && amountIn - TotalFee(p, amountIn) > U128_MAX / 2
    requires reserveIn > 0
    ensures Quote(p, reserveIn, reserveOut, amountIn, minOut).Err?
  {
    var afterFee := amountIn - TotalFee(p, amountIn);
    if reserveOut >= 2 {
      MulLe(2, reserveOut, afterFee, afterFee);
    } else {
      NothingToTake(reserveIn, reserveOut, afterFee);
    }
  }

  lemma NothingToTake(reserveIn: nat, reserveOut: nat, afterFee: nat)
    requires reserveIn > 0 && reserveOut < 2
    ensures reserveOut * afterFee / (reserveIn + afterFee) == 0
  {
  }

  lemma UncoveredSwapLosesProduct(p: Pool, amountIn: u128)
    requires RatesOk(p) && amountIn > 0 && !FeeCovers(p, amountIn) && amountIn - TotalFee(p, amountIn) <= U128_MAX / 2
    ensures TotalFee(p, amountIn) <= amountIn
    ensures !KeepsProduct(WithReserves(p, amountIn - TotalFee(p, amountIn), 2), true, amountIn, 0)
  {
    FeeOrder(p, amountIn);
    var afterFee, kept := amountIn - TotalFee(p, amountIn), amountIn - ProtocolFee(p, amountIn);
    assert 2 * afterFee == afterFee + afterFee;
    DivisorItself(afterFee + afterFee);
    var (p', r) := Swap(WithReserves(p, afterFee, 2), true, amountIn, 0);
    assert r.Ok? && p'.reserveA == afterFee + kept && p'.reserveB == 1;
  }

  /**
    Where the fee multiplication wraps: at the standard rates this swap pays no fee at all
    into the pool while the protocol still takes its part, and the pool ends below its bound.
   */
  lemma WrappedFeeBreaksBound()
    ensures var amountIn := 11342745564031282115445820247725607049;
            var p := Pool("pair/x/y", "x", "y", amountIn, 28, 17821247874177495408, "lp/x/y", 0, 0, 30, 20, 10, 0, 0);
            var (p', r) := Swap(p, true, amountIn, 0);
            Sound(p) && !FeeCovers(p, amountIn) && r.Ok? && !Sound(p')
  {
  }

  lemma DivisorItself(d: nat)
    requires d > 0
    ensures d / d == 1
  {
  }

  // ---------------------------------------------------------------- add

  /** On either branch of the ratio choice, no more is taken than was offered. */
  lemma AddWithinDesired(p: Pool, desiredA: u128, desiredB: u128)
    requires p.reserveA > 0 && p.reserveB > 0
    ensures AddAmounts(p, desiredA, desiredB).0 <= desiredA && AddAmounts(p, desiredA, desiredB).1 <= desiredB
  {
    var wordB, wordA := Wrap(desiredA * p.reserveB), Wrap(desiredB * p.reserveA);
    var optimalB, optimalA := Div(wordB, p.reserveA), Div(wordA, p.reserveB);
    if optimalB > desiredB {
      MulLe(desiredB, optimalB, p.reserveA, p.reserveA);
      assert optimalA * p.reserveB <= desiredB * p.reserveA <= optimalB * p.reserveA <= desiredA * p.reserveB;
      CancelFactor(optimalA, desiredA, p.reserveB);
    }
  }

  lemma AddShape(p: Pool, desiredA: u128, desiredB: u128, minA: u128, minB: u128)
    requires AddLiquidity(p, desiredA, desiredB, minA, minB).1.Ok?
    ensures p.reserveA > 0 && p.reserveB > 0
    ensures var (p', r) := AddLiquidity(p, desiredA, desiredB, minA, minB);
            && r.value.lpTokens == LpFor(p, r.value.amountA, r.value.amountB) > 0
            && p' == p.(reserveA := p.reserveA + r.value.amountA, reserveB := p.reserveB + r.value.amountB,
                        totalLp := p.totalLp + r.value.lpTokens)
  {
  }

  lemma MintedShare(p: Pool, a: u128, b: u128)
    requires p.reserveA > 0 && p.reserveB > 0
    ensures LpFor(p, a, b) * p.reserveA <= a * p.totalLp && LpFor(p, a, b) * p.reserveB <= b * p.totalLp
  {
    var lp := LpFor(p, a, b);
    var byA, byB := Div(Wrap(a * p.totalLp), p.reserveA), Div(Wrap(b * p.totalLp), p.reserveB);
    MulLe(lp, byA, p.reserveA, p.reserveA);
    MulLe(lp, byB, p.reserveB, p.reserveB);
  }

  lemma ZeroSupplyMintsNothing(p: Pool, a: u128, b: u128)
    requires p.reserveA > 0 && p.reserveB > 0 && p.totalLp == 0
    ensures LpFor(p, a, b) == 0
  {
  }

  /** Depositing dilutes nobody and keeps the bound, even when a late overflow leaves it half done. */
  lemma AddKeepsSound(p: Pool, desiredA: u128, desiredB: u128, minA: u128, minB: u128)
    requires Sound(p)
    ensures var (p', r) := AddLiquidity(p, desiredA, desiredB, minA, minB);
            && Sound(p')
            && (p.totalLp > 0 ==> NoDilution(p, p'))
            && (r.Ok? ==> r.value.amountA <= desiredA && r.value.amountB <= desiredB && r.value.lpTokens > 0)
            && (r.Ok? ==> p' == p.(reserveA := p.reserveA + r.value.amountA, reserveB := p.reserveB + r.value.amountB,
                                   totalLp := p.totalLp + r.value.lpTokens))
  {
    var (p', r) := AddLiquidity(p, desiredA, desiredB, minA, minB);
    if p.reserveA > 0 && p.reserveB > 0 {
      var (a, b) := AddAmounts(p, desiredA, desiredB);
      AddWithinDesired(p, desiredA, desiredB);
      if r.Ok? {
        var lp := LpFor(p, a, b);
        if p.totalLp == 0 {
          ZeroSupplyMintsNothing(p, a, b);
        } else {
          MintedShare(p, a, b);
          AddKeepsRatio(p.reserveA, p.totalLp, a, lp);
          AddKeepsRatio(p.reserveB, p.totalLp, b, lp);
          RatiosKeepBound(p.reserveA, p.reserveB, p.totalLp, p'.reserveA, p'.reserveB, p'.totalLp);
        }
      } else {
        MulLe(p.reserveA, p'.reserveA, p.reserveB, p'.reserveB);
        MulLe(p.reserveA, p'.reserveA, p.totalLp, p.totalLp);
        MulLe(p.reserveB, p'.reserveB, p.totalLp, p.totalLp);
      }
    }
  }

  // ---------------------------------------------------------------- remove

  lemma WithdrawnShare(p: Pool, lpTokens: u128)
    requires 0 < p.totalLp
    ensures ShareOf(p.reserveA, lpTokens, p.totalLp) * p.totalLp <= p.reserveA * lpTokens
    ensures ShareOf(p.reserveB, lpTokens, p.totalLp) * p.totalLp <= p.reserveB * lpTokens
  {
  }

  /** An accepted withdrawal takes no more than the reserves hold, bound or not. */
  lemma RemoveShape(p: Pool, held: u128, lpTokens: u128, minA: u128, minB: u128)
    requires held <= p.totalLp
    ensures var (p', r) := RemoveLiquidity(p, held, lpTokens, minA, minB);
            && NoDilution(p, p')
            && (r.Err? ==> p' == p && r.error != Panic)
            && (r.Ok? ==> r.value.0 <= p.reserveA && r.value.1 <= p.reserveB && 0 < lpTokens <= p.totalLp
                          && p' == p.(reserveA := p.reserveA - r.value.0, reserveB := p.reserveB - r.value.1,
                                      totalLp := p.totalLp - lpTokens))
  {
    var (p', r) := RemoveLiquidity(p, held, lpTokens, minA, minB);
    if r.Ok? {
      WithdrawnShare(p, lpTokens);
      RemoveKeepsRatio(p.reserveA, p.totalLp, r.value.0, lpTokens);
      RemoveKeepsRatio(p.reserveB, p.totalLp, r.value.1, lpTokens);
    }
  }

  /** Withdrawing dilutes nobody who stays, keeps the bound, and takes no more than the reserves hold. */
  lemma RemoveKeepsSound(p: Pool, held: u128, lpTokens: u128, minA: u128, minB: u128)
    requires Sound(p) && held <= p.totalLp
    ensures var (p', r) := RemoveLiquidity(p, held, lpTokens, minA, minB);
            && Sound(p') && NoDilution(p, p')
            && (r.Err? ==> p' == p && r.error != Panic)
            && (r.Ok? ==> r.value.0 <= p.reserveA && r.value.1 <= p.reserveB && lpTokens <= p.totalLp
                          && p' == p.(reserveA := p.reserveA - r.value.0, reserveB := p.reserveB - r.value.1,
                                      totalLp := p.totalLp - lpTokens))
  {
    var (p', r) := RemoveLiquidity(p, held, lpTokens, minA, minB);
    RemoveShape(p, held, lpTokens, minA, minB);
    if r.Ok? {
      RatiosKeepBound(p.reserveA, p.reserveB, p.totalLp, p'.reserveA, p'.reserveB, p'.totalLp);
    }
  }

  // ---------------------------------------------------------------- runs

  datatype PoolEvent =
    | SwapEvent(aToB: bool, amountIn: u128, minOut: u128)
    | AddEvent(desiredA: u128, desiredB: u128, minA: u128, minB: u128)
    | RemoveEvent(held: u128, lpTokens: u128, minRemoveA: u128, minRemoveB: u128)

  function PoolStep(p: Pool, e: PoolEvent): Pool {
    match e
    case SwapEvent(aToB, amountIn, minOut) => Swap(p, aToB, amountIn, minOut).0
    case AddEvent(a, b, minA, minB) => AddLiquidity(p, a, b, minA, minB).0
    case RemoveEvent(held, lp, minA, minB) => RemoveLiquidity(p, held, lp, minA, minB).0
  }

  /** Swap amounts that keep the product of whatever reserves; LP balances that are part of the supply. */
  predicate Admissible(p: Pool, e: PoolEvent) {
    match e
    case SwapEvent(_, amountIn, _) => SafeAmount(p, amountIn)
    case AddEvent(_, _, _, _) => true
    case RemoveEvent(held, _, _, _) => held <= p.totalLp
  }

  ghost predicate IsPoolRun(ps: seq<Pool>, es: seq<PoolEvent>) {
    && |ps| == |es| + 1
    && forall i :: 0 <= i < |es| ==> Admissible(ps[i], es[i]) && ps[i + 1] == PoolStep(ps[i], es[i])
  }

  /** The LP supply a new pool starts with. */
  function InitialLp(reserveA: u128, reserveB: u128): nat {
    FloorRoot(Wrap(reserveA * reserveB))
  }

  lemma NewPoolIsSound(p: Pool)
    requires p.totalLp == InitialLp(p.reserveA, p.reserveB) && RatesOk(p)
    ensures Sound(p)
  {
  }

  /**
    In every state of every run from a new pool: the square of the LP supply is at most the product
    of the reserves; and each step either lowers no product (swap) or dilutes nobody (deposit, withdrawal).
   */
  lemma {:induction false} PoolRunIsSound(ps: seq<Pool>, es: seq<PoolEvent>, i: nat)
    requires IsPoolRun(ps, es) && i < |ps|
    requires ps[0].totalLp == InitialLp(ps[0].reserveA, ps[0].reserveB) && RatesOk(ps[0])
    ensures Sound(ps[i])
    ensures i < |es| && es[i].SwapEvent? ==>
              ps[i + 1].reserveA * ps[i + 1].reserveB >= ps[i].reserveA * ps[i].reserveB && ps[i + 1].totalLp == ps[i].totalLp
    ensures i < |es| && !es[i].SwapEvent? && ps[i].totalLp > 0 ==> NoDilution(ps[i], ps[i + 1])
    decreases i
  {
    if i == 0 {
      NewPoolIsSound(ps[0]);
    } else {
      PoolRunIsSound(ps, es, i - 1);
      StepKeepsSound(ps[i - 1], es[i - 1]);
    }
    if i < |es| {
      StepKeepsSound(ps[i], es[i]);
    }
  }

  lemma StepKeepsSound(p: Pool, e: PoolEvent)
    requires Sound(p) && Admissible(p, e)
    ensures var p' := PoolStep(p, e);
            && Sound(p')
            && (e.SwapEvent? ==> p'.reserveA * p'.reserveB >= p.reserveA * p.reserveB && p'.totalLp == p.totalLp)
            && (!e.SwapEvent? && p.totalLp > 0 ==> NoDilution(p, p'))
  {
    match e
    case SwapEvent(aToB, amountIn, minOut) => SwapKeepsProduct(p, aToB, amountIn, minOut);
    case AddEvent(a, b, minA, minB) => AddKeepsSound(p, a, b, minA, minB);
    case RemoveEvent(held, lp, minA, minB) => RemoveKeepsSound(p, held, lp, minA, minB);
  }
}
