/**
  One liquidity pool: swapping, adding and removing as functions on its record, and what they keep.
  An operation that fails halfway returns the pool as the failure leaves it.
 */
module LiquidityPool {
  import opened PoolMath

  const BASIS_POINTS: nat := 10000

  function Div(x: u128, d: nat): (q: u128)
    requires d > 0
    ensures q * d <= x < (q + 1) * d
  {
    x / d
  }

  datatype Pool = Pool(
    pairId: string, tokenA: string, tokenB: string, reserveA: u128, reserveB: u128, totalLp: u128,
    lpDenom: string, volumeA: u128, volumeB: u128,
    feeRate: nat, lpFeeRate: nat, protocolFeeRate: nat, protocolFeesA: u128, protocolFeesB: u128)

  datatype DexError =
    | ZeroAmount | PoolExists | PoolNotFound | InvalidToken | Overflow | OutputTooSmall | SlippageExceeded
    | BelowMinimum | LiquidityTooSmall | InsufficientLp
    | TransferFailed
    | Panic  // division by zero: the process aborts

  datatype Result<+T> = Ok(value: T) | Err(error: DexError)

  // ---------------------------------------------------------------- swap

  function TotalFee(p: Pool, amountIn: u128): u128 {
    Div(Wrap(amountIn * p.feeRate), BASIS_POINTS)
  }

  function ProtocolFee(p: Pool, amountIn: u128): u128 {
    Div(Wrap(amountIn * p.protocolFeeRate), BASIS_POINTS)
  }

  datatype SwapOutcome = SwapOutcome(amountOut: u128, protocolFee: u128)

  /** The output of a swap of one reserve against the other, or why there is none. */
  function Quote(p: Pool, reserveIn: u128, reserveOut: u128, amountIn: u128, minOut: u128): Result<SwapOutcome> {
    var afterFee := WrapMinus(amountIn, TotalFee(p, amountIn));
    if reserveOut * afterFee > U128_MAX || reserveIn + afterFee > U128_MAX then Err(Overflow)
    else if reserveIn + afterFee == 0 then Err(Panic)
    else
      var out := reserveOut * afterFee / (reserveIn + afterFee);
      if out == 0 then Err(OutputTooSmall)
      else if out < minOut then Err(SlippageExceeded)
      else if reserveIn + WrapMinus(amountIn, ProtocolFee(p, amountIn)) > U128_MAX || out > reserveOut then Err(Overflow)
      else Ok(SwapOutcome(out, ProtocolFee(p, amountIn)))
  }

  /** The pool side of a swap; `aToB` says which token comes in. */
  function Swap(p: Pool, aToB: bool, amountIn: u128, minOut: u128): (Pool, Result<SwapOutcome>) {
    if amountIn == 0 then (p, Err(ZeroAmount)) else
      var quote := if aToB then Quote(p, p.reserveA, p.reserveB, amountIn, minOut)
                   else Quote(p, p.reserveB, p.reserveA, amountIn, minOut);
      if quote.Err? then (p, quote) else
        var kept := WrapMinus(amountIn, quote.value.protocolFee);
        var out := quote.value.amountOut;
        (if aToB
         then p.(reserveA := Sum(p.reserveA, kept), reserveB := WrapMinus(p.reserveB, out),
                 volumeA := Wrap(p.volumeA + amountIn), protocolFeesA := Wrap(p.protocolFeesA + quote.value.protocolFee))
         else p.(reserveB := Sum(p.reserveB, kept), reserveA := WrapMinus(p.reserveA, out),
                 volumeB := Wrap(p.volumeB + amountIn), protocolFeesB := Wrap(p.protocolFeesB + quote.value.protocolFee)),
         quote)
  }

  function Sum(x: u128, y: u128): (r: u128)
    ensures x + y <= U128_MAX ==> r == x + y
  {
    Wrap(x + y)
  }

  // ---------------------------------------------------------------- add and remove

  datatype AddOutcome = AddOutcome(amountA: u128, amountB: u128, lpTokens: u128)

  /** The amounts taken: all of A with the matching B, or all of B with the matching A. */
  function AddAmounts(p: Pool, desiredA: u128, desiredB: u128): (u128, u128)
    requires p.reserveA > 0 && p.reserveB > 0
  {
    var optimalB := Div(Wrap(desiredA * p.reserveB), p.reserveA);
    var optimalA := Div(Wrap(desiredB * p.reserveA), p.reserveB);
    if optimalB <= desiredB then (desiredA, optimalB) else (optimalA, desiredB)
  }

  function LpFor(p: Pool, amountA: u128, amountB: u128): u128
    requires p.reserveA > 0 && p.reserveB > 0
  {
    var byA, byB := Div(Wrap(amountA * p.totalLp), p.reserveA), Div(Wrap(amountB * p.totalLp), p.reserveB);
    if byA <= byB then byA else byB
  }

  /**
    The pool side of adding liquidity. The three fields are assigned one after the other, each after
    its own overflow check, so a late overflow leaves the earlier assignments in place.
   */
  function AddLiquidity(p: Pool, desiredA: u128, desiredB: u128, minA: u128, minB: u128): (Pool, Result<AddOutcome>) {
    if p.reserveA == 0 || p.reserveB == 0 then (p, Err(Panic)) else
      var (a, b) := AddAmounts(p, desiredA, desiredB);
      if a < minA || b < minB then (p, Err(BelowMinimum)) else
        var lp := LpFor(p, a, b);
        if lp == 0 then (p, Err(LiquidityTooSmall))
        else if p.reserveA + a > U128_MAX then (p, Err(Overflow))
        else
          var p1 := p.(reserveA := p.reserveA + a);
          if p.reserveB + b > U128_MAX then (p1, Err(Overflow)) else
            var p2 := p1.(reserveB := p.reserveB + b);
            if p.totalLp + lp > U128_MAX then (p2, Err(Overflow))
            else (p2.(totalLp := p.totalLp + lp), Ok(AddOutcome(a, b, lp)))
  }

  function ShareOf(reserve: u128, lpTokens: u128, totalLp: u128): u128
    requires totalLp > 0
  {
    Div(Wrap(reserve * lpTokens), totalLp)
  }

  /** The pool side of removing liquidity; `held` is the user's LP balance. */
  function RemoveLiquidity(p: Pool, held: u128, lpTokens: u128, minA: u128, minB: u128): (Pool, Result<(u128, u128)>) {
    if lpTokens == 0 then (p, Err(ZeroAmount))
    else if held < lpTokens then (p, Err(InsufficientLp))
    else if p.totalLp == 0 then (p, Err(Panic))
    else
      var a, b := ShareOf(p.reserveA, lpTokens, p.totalLp), ShareOf(p.reserveB, lpTokens, p.totalLp);
      if a < minA || b < minB then (p, Err(BelowMinimum)) else
        (p.(reserveA := WrapMinus(p.reserveA, a), reserveB := WrapMinus(p.reserveB, b),
            totalLp := WrapMinus(p.totalLp, lpTokens)),
         Ok((a, b)))
  }

  // ---------------------------------------------------------------- arithmetic

  lemma MulLe(a: nat, b: nat, c: nat, d: nat)
    requires a <= b && c <= d
    ensures a * c <= b * d
  {
    assert b * d == a * c + a * (d - c) + (b - a) * d;
  }

  lemma CancelFactor(a: nat, b: nat, c: nat)
    requires c > 0 && a * c <= b * c
    ensures a <= b
  {
  }

  // ---------------------------------------------------------------- the constant product

  lemma FloorTimes(x: nat, d: nat)
    requires d > 0
    ensures x / d * d <= x
  {
    assert x == x / d * d + x % d;
  }

  lemma Distribute(a: nat, b: nat, c: nat, x: nat)
    ensures (a + b) * (c - x) == a * c + c * b - x * (a + b)
  {
    assert (a + b) * (c - x) == (a + b) * c - (a + b) * x;
    assert (a + b) * c == a * c + b * c;
  }

  /** Adding a floor share keeps the reserve per LP token: cross-multiplied. */
  lemma AddKeepsRatio(reserve: nat, totalLp: nat, amount: nat, lp: nat)
    requires lp * reserve <= amount * totalLp
    ensures (reserve + amount) * totalLp >= reserve * (totalLp + lp)
  {
  }

  lemma RemoveKeepsRatio(reserve: nat, totalLp: nat, amount: nat, lp: nat)
    requires amount * totalLp <= reserve * lp && lp <= totalLp && totalLp > 0
    ensures amount <= reserve
    ensures (reserve - amount) * totalLp >= reserve * (totalLp - lp)
  {
  }

  /** If each reserve per LP token does not fall, the bound on the square of the LP supply carries over. */
  lemma RatiosKeepBound(a: nat, b: nat, l: nat, a': nat, b': nat, l': nat)
    requires l > 0 && l * l <= a * b
    requires a' * l >= a * l' && b' * l >= b * l'
    ensures l' * l' <= a' * b'
  {
  }

}
