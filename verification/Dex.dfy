/**
  The exchange: pools and the token ledger together. Each operation changes its pool first and moves
  tokens afterwards, so a payment that fails leaves the pool changed.
 */
module Dex {
  import opened Ordering
  import opened PoolMath
  import opened LiquidityPool
  import opened TokenLedger

  datatype DexState = DexState(
    pools: map<string, Pool>, book: TokenBook, feeAddress: string,
    feeRate: nat, lpFeeRate: nat, protocolFeeRate: nat)

  function PairSuffix(tokenA: string, tokenB: string): string {
    tokenA + "/" + tokenB
  }

  function PairId(tokenA: string, tokenB: string): string {
    "pair/" + PairSuffix(tokenA, tokenB)
  }

  function LpDenom(tokenA: string, tokenB: string): string {
    "lp/" + PairSuffix(tokenA, tokenB)
  }

  /** Settle the payments of an operation whose pool side is done. */
  function Settle<T>(d: DexState, payments: seq<Payment>, result: T): (DexState, Result<T>) {
    var m := PayAll(d.book, payments);
    (d.(book := m.book), if m.ok then Ok(result) else Err(TransferFailed))
  }

  function NewPool(d: DexState, tokenA: string, tokenB: string, reserveA: u128, reserveB: u128, lp: u128): Pool {
    Pool(PairId(tokenA, tokenB), tokenA, tokenB, reserveA, reserveB, lp, LpDenom(tokenA, tokenB), 0, 0,
         d.feeRate, d.lpFeeRate, d.protocolFeeRate, 0, 0)
  }

  /** Sorted tokens, both deposits, the LP supply, its mint to the pair and transfer to the creator, the pool. */
  function CreatePair(d: DexState, creator: string, token1: string, token2: string, amount1: u128, amount2: u128): (DexState, Result<string>) {
    if amount1 == 0 || amount2 == 0 then (d, Err(ZeroAmount)) else
      var (tokenA, tokenB, reserveA, reserveB) :=
        if StringLe(token1, token2) && token1 != token2 then (token1, token2, amount1, amount2)
        else (token2, token1, amount2, amount1);
      CreateSorted(d, creator, tokenA, tokenB, reserveA, reserveB)
  }

  function CreateSorted(d: DexState, creator: string, tokenA: string, tokenB: string, reserveA: u128, reserveB: u128): (DexState, Result<string>) {
    var pairId, lpDenom, product := PairId(tokenA, tokenB), LpDenom(tokenA, tokenB), Wrap(reserveA * reserveB);
    if pairId in d.pools then (d, Err(PoolExists)) else
      var deposits := PayAll(d.book, [Payment(tokenA, creator, pairId, reserveA), Payment(tokenB, creator, pairId, reserveB)]);
      if !deposits.ok then (d.(book := deposits.book), Err(TransferFailed))
      else if product == U128_MAX then (d.(book := deposits.book), Err(Panic))
      else
        RootFits(product);
        var lp := FloorRoot(product);
        if lp == 0 then (d.(book := deposits.book), Err(LiquidityTooSmall)) else
          var created := CreateLpToken(deposits.book, lpDenom, pairId, lp);
          if !created.ok then (d.(book := created.book), Err(TransferFailed)) else
            var paid := Transfer(created.book, lpDenom, pairId, creator, lp);
            if !paid.ok then (d.(book := paid.book), Err(TransferFailed)) else
              (d.(book := paid.book, pools := d.pools[pairId := NewPool(d, tokenA, tokenB, reserveA, reserveB, lp)]),
               Ok(pairId))
  }

  lemma RootFits(n: u128)
    ensures FloorRoot(n) <= n
  {
  }

  /** The payments of a swap: the kept input, the protocol's fee, the output. */
  function SwapPayments(p: Pool, user: string, feeAddress: string, aToB: bool, amountIn: u128, o: SwapOutcome): seq<Payment> {
    var tokenIn, tokenOut := if aToB then p.tokenA else p.tokenB, if aToB then p.tokenB else p.tokenA;
    [Payment(tokenIn, user, p.pairId, WrapMinus(amountIn, o.protocolFee))]
    + (if o.protocolFee > 0
       then [Payment(tokenIn, user, if feeAddress != "" then feeAddress else p.pairId, o.protocolFee)] else [])
    + [Payment(tokenOut, p.pairId, user, o.amountOut)]
  }

  function SwapTokens(d: DexState, pairId: string, user: string, tokenIn: string, amountIn: u128, minOut: u128): (DexState, Result<u128>) {
    if amountIn == 0 then (d, Err(ZeroAmount))
    else if pairId !in d.pools then (d, Err(PoolNotFound))
    else
      var p := d.pools[pairId];
      if tokenIn != p.tokenA && tokenIn != p.tokenB then (d, Err(InvalidToken)) else
        var aToB := tokenIn == p.tokenA;
        var (p', r) := Swap(p, aToB, amountIn, minOut);
        if r.Err? then (d, Err(r.error)) else
          Settle(d.(pools := d.pools[pairId := p']),
                 SwapPayments(p.(pairId := pairId), user, d.feeAddress, aToB, amountIn, r.value), r.value.amountOut)
  }

  function AddToPool(d: DexState, pairId: string, user: string, desiredA: u128, desiredB: u128, minA: u128, minB: u128): (DexState, Result<AddOutcome>) {
    if pairId !in d.pools then (d, Err(PoolNotFound)) else
      var p := d.pools[pairId];
      var (p', r) := AddLiquidity(p, desiredA, desiredB, minA, minB);
      var d1 := d.(pools := d.pools[pairId := p']);
      if r.Err? then (d1, r) else
        var (d2, paid) := Settle(d1, [Payment(p.tokenA, user, pairId, r.value.amountA),
                                      Payment(p.tokenB, user, pairId, r.value.amountB)], r.value);
        if paid.Err? then (d2, paid) else
          var minted := Mint(d2.book, p.lpDenom, user, r.value.lpTokens);
          (d2.(book := minted.book), if minted.ok then paid else Err(TransferFailed))
  }

  function RemoveFromPool(d: DexState, pairId: string, user: string, lpTokens: u128, minA: u128, minB: u128): (DexState, Result<(u128, u128)>) {
    if lpTokens == 0 then (d, Err(ZeroAmount))
    else if pairId !in d.pools then (d, Err(PoolNotFound))
    else
      var p := d.pools[pairId];
      var (p', r) := RemoveLiquidity(p, BalanceOf(d.book, p.lpDenom, user), lpTokens, minA, minB);
      if r.Err? then (d, r) else
        var burned := Burn(d.book, p.lpDenom, user, lpTokens);
        var d1 := d.(pools := d.pools[pairId := p'], book := burned.book);
        if !burned.ok then (d1, Err(TransferFailed)) else
          Settle(d1, [Payment(p.tokenA, pairId, user, r.value.0), Payment(p.tokenB, pairId, user, r.value.1)], r.value)
  }

  // ---------------------------------------------------------------- events

  datatype DexEvent =
    | CreateEvent(user: string, token1: string, token2: string, amount1: u128, amount2: u128)
    | SwapEvent(pairId: string, user: string, tokenIn: string, amountIn: u128, minOut: u128)
    | AddEvent(pairId: string, user: string, desiredA: u128, desiredB: u128, minA: u128, minB: u128)
    | RemoveEvent(pairId: string, user: string, lpTokens: u128, minA: u128, minB: u128)

  function DexStep(d: DexState, e: DexEvent): DexState {
    match e
    case CreateEvent(user, token1, token2, amount1, amount2) => CreatePair(d, user, token1, token2, amount1, amount2).0
    case SwapEvent(pairId, user, tokenIn, amountIn, minOut) => SwapTokens(d, pairId, user, tokenIn, amountIn, minOut).0
    case AddEvent(pairId, user, a, b, minA, minB) => AddToPool(d, pairId, user, a, b, minA, minB).0
    case RemoveEvent(pairId, user, lp, minA, minB) => RemoveFromPool(d, pairId, user, lp, minA, minB).0
  }
}
