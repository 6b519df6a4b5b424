/**
  The exchange as the node runs it: a token factory whose balances are changed in place and pools
  updated field by field before any tokens move. Each method is proved to take the step of Dex.dfy.
 */
module NativeDex {
  import opened Common
  import opened Ordering
  import opened PoolMath
  import opened LiquidityPool
  import opened TokenLedger
  import opened Dex

  class TokenFactory {
    var tokens: map<string, TokenInfo>
    var balances: map<(string, string), u128>

    function Book(): TokenBook
      reads this
    {
      TokenBook(tokens, balances)
    }

    constructor ()
      ensures Book() == TokenBook(map[], map[])
    {
      tokens, balances := map[], map[];
    }

    method GetBalance(denom: string, holder: string) returns (balance: u128)
      ensures balance == BalanceOf(Book(), denom, holder)
    {
      balance := if (denom, holder) in balances then balances[(denom, holder)] else 0;
    }

    method TransferInternal(denom: string, from: string, to: string, amount: u128) returns (ok: bool)
      modifies this`balances
      ensures Moved(Book(), ok) == Transfer(old(Book()), denom, from, to, amount)
    {
      if amount == 0 || denom !in tokens || (denom, from) !in balances {
        return false;
      }
      if balances[(denom, from)] < amount {
        return false;
      }
      balances := balances[(denom, from) := balances[(denom, from)] - amount];
      var toBalance := if (denom, to) in balances then balances[(denom, to)] else 0;
      if toBalance + amount > U128_MAX {
        return false;
      }
      balances := balances[(denom, to) := toBalance + amount];
      return true;
    }

    method MintInternal(denom: string, to: string, amount: u128) returns (ok: bool)
      modifies this
      ensures Moved(Book(), ok) == Mint(old(Book()), denom, to, amount)
    {
      if denom !in tokens {
        return false;
      }
      var info := tokens[denom];
      if info.totalSupply + amount > U128_MAX {
        return false;
      }
      if info.maxSupply.Some? && info.totalSupply + amount > info.maxSupply.value {
        return false;
      }
      tokens := tokens[denom := info.(totalSupply := info.totalSupply + amount)];
      var balance := if (denom, to) in balances then balances[(denom, to)] else 0;
      if balance + amount > U128_MAX {
        return false;
      }
      balances := balances[(denom, to) := balance + amount];
      return true;
    }

    method BurnInternal(denom: string, from: string, amount: u128) returns (ok: bool)
      modifies this
      ensures Moved(Book(), ok) == Burn(old(Book()), denom, from, amount)
    {
      if amount == 0 || (denom, from) !in balances || balances[(denom, from)] < amount {
        return false;
      }
      balances := balances[(denom, from) := balances[(denom, from)] - amount];
      if denom in tokens {
        var info := tokens[denom];
        var supply := if info.totalSupply >= amount then info.totalSupply - amount else 0;
        tokens := tokens[denom := info.(totalSupply := supply)];
      }
      return true;
    }

    method CreateLpTokenInternal(lpDenom: string, poolAddress: string, supply: u128) returns (ok: bool)
      modifies this
      ensures Moved(Book(), ok) == CreateLpToken(old(Book()), lpDenom, poolAddress, supply)
    {
      if lpDenom in tokens {
        return false;
      }
      tokens := tokens[lpDenom := TokenInfo(supply, None)];
      balances := balances[(lpDenom, poolAddress) := supply];
      return true;
    }
  }

  class Exchange {
    const tokenFactory: TokenFactory
    var pools: map<string, Pool>
    const feeAddress: string
    const feeRate: nat
    const lpFeeRate: nat
    const protocolFeeRate: nat

    function State(): DexState
      reads this, tokenFactory
    {
      DexState(pools, tokenFactory.Book(), feeAddress, feeRate, lpFeeRate, protocolFeeRate)
    }

    /** The default fees: 0.3 percent, of which 0.1 percent goes to the protocol. */
    constructor (tokenFactory: TokenFactory, feeAddress: string)
      ensures this.tokenFactory == tokenFactory
      ensures State() == DexState(map[], tokenFactory.Book(), feeAddress, 30, 20, 10)
    {
      this.tokenFactory, this.feeAddress := tokenFactory, feeAddress;
      pools := map[];
      feeRate, lpFeeRate, protocolFeeRate := 30, 20, 10;
    }

    /** Two payments, the second only if the first went through. */
    method PayBoth(p: Payment, q: Payment) returns (ok: bool)
      modifies tokenFactory
      ensures Moved(tokenFactory.Book(), ok) == PayAll(old(tokenFactory.Book()), [p, q])
    {
      PayAllStep(old(tokenFactory.Book()), [p, q]);
      PayAllStep(old(tokenFactory.Book()), [p]);
      assert [p, q][..1] == [p] && [p][..0] == [];
      ok := tokenFactory.TransferInternal(p.denom, p.from, p.to, p.amount);
      if ok {
        ok := tokenFactory.TransferInternal(q.denom, q.from, q.to, q.amount);
      }
    }

    method CreatePairInternal(creator: string, token1: string, token2: string, amount1: u128, amount2: u128)
      returns (r: Result<string>)
      modifies this`pools, tokenFactory
      ensures (State(), r) == CreatePair(old(State()), creator, token1, token2, amount1, amount2)
    {
      if amount1 == 0 || amount2 == 0 {
        return Err(ZeroAmount);
      }
      var tokenA, tokenB, reserveA, reserveB := token2, token1, amount2, amount1;
      if StringLe(token1, token2) && token1 != token2 {
        tokenA, tokenB, reserveA, reserveB := token1, token2, amount1, amount2;
      }
      r := CreateSortedInternal(creator, tokenA, tokenB, reserveA, reserveB);
    }

    method CreateSortedInternal(creator: string, tokenA: string, tokenB: string, reserveA: u128, reserveB: u128)
      returns (r: Result<string>)
      modifies this`pools, tokenFactory
      ensures (State(), r) == CreateSorted(old(State()), creator, tokenA, tokenB, reserveA, reserveB)
    {
      var pairId, lpDenom := PairId(tokenA, tokenB), LpDenom(tokenA, tokenB);
      if pairId in pools {
        return Err(PoolExists);
      }
      var lpSupply;
      lpSupply, r := DepositsAndRoot(creator, tokenA, tokenB, reserveA, reserveB);
      if r.Err? {
        return r;
      }
      var created := tokenFactory.CreateLpTokenInternal(lpDenom, pairId, lpSupply);
      if !created {
        return Err(TransferFailed);
      }
      var paid := tokenFactory.TransferInternal(lpDenom, pairId, creator, lpSupply);
      if !paid {
        return Err(TransferFailed);
      }
      var pool := Pool(pairId, tokenA, tokenB, reserveA, reserveB, lpSupply, lpDenom, 0, 0,
                       feeRate, lpFeeRate, protocolFeeRate, 0, 0);
      pools := pools[pairId := pool];
    }

    /** Both deposits into the pair account, and the LP supply they are worth. */
    method DepositsAndRoot(creator: string, tokenA: string, tokenB: string, reserveA: u128, reserveB: u128)
      returns (lpSupply: u128, r: Result<string>)
      modifies tokenFactory
      ensures var pairId := PairId(tokenA, tokenB);
              var deposits := PayAll(old(tokenFactory.Book()),
                [Payment(tokenA, creator, pairId, reserveA), Payment(tokenB, creator, pairId, reserveB)]);
              && tokenFactory.Book() == deposits.book
              && r == (if !deposits.ok then Err(TransferFailed)
                       else if Wrap(reserveA * reserveB) == U128_MAX then Err(Panic)
                       else if FloorRoot(Wrap(reserveA * reserveB)) == 0 then Err(LiquidityTooSmall)
                       else Ok(pairId))
              && (r.Ok? ==> lpSupply == FloorRoot(Wrap(reserveA * reserveB)))
    {
      var pairId, product := PairId(tokenA, tokenB), Wrap(reserveA * reserveB);
      lpSupply := 0;
      var paid := PayBoth(Payment(tokenA, creator, pairId, reserveA), Payment(tokenB, creator, pairId, reserveB));
      if !paid {
        return lpSupply, Err(TransferFailed);
      }
      lpSupply, r := InitialLp(pairId, product);
    }

    /** The floor root of the product; the root of the largest word aborts. */
    method InitialLp(pairId: string, product: u128) returns (lpSupply: u128, r: Result<string>)
      ensures r == if product == U128_MAX then Err(Panic)
                   else if FloorRoot(product) == 0 then Err(LiquidityTooSmall)
                   else Ok(pairId)
      ensures r.Ok? ==> lpSupply == FloorRoot(product)
    {
      if product == U128_MAX {
        return 0, Err(Panic);
      }
      lpSupply := IntegerSqrt(product);
      return lpSupply, if lpSupply == 0 then Err(LiquidityTooSmall) else Ok(pairId);
    }

    /** The output of a swap, with every overflow check in place. */
    method QuoteInternal(pool: Pool, reserveIn: u128, reserveOut: u128, amountIn: u128, minOut: u128)
      returns (r: Result<SwapOutcome>)
      ensures r == Quote(pool, reserveIn, reserveOut, amountIn, minOut)
    {
      var totalFee := Div(Wrap(amountIn * pool.feeRate), BASIS_POINTS);
      var protocolFee := Div(Wrap(amountIn * pool.protocolFeeRate), BASIS_POINTS);
      var afterFee := WrapMinus(amountIn, totalFee);
      var numerator := reserveOut * afterFee;
      var denominator := reserveIn + afterFee;
      if numerator > U128_MAX || denominator > U128_MAX {
        return Err(Overflow);
      }
      if denominator == 0 {
        return Err(Panic);
      }
      var amountOut := numerator / denominator;
      if amountOut == 0 {
        return Err(OutputTooSmall);
      }
      if amountOut < minOut {
        return Err(SlippageExceeded);
      }
      if reserveIn + WrapMinus(amountIn, protocolFee) > U128_MAX || amountOut > reserveOut {
        return Err(Overflow);
      }
      return Ok(SwapOutcome(amountOut, protocolFee));
    }

    /** Update reserves, volume and fee counter, then move the tokens. */
    method SwapInternal(pairId: string, user: string, tokenIn: string, amountIn: u128, minOut: u128) returns (r: Result<u128>)
      modifies this`pools, tokenFactory
      ensures (State(), r) == SwapTokens(old(State()), pairId, user, tokenIn, amountIn, minOut)
    {
      if amountIn == 0 {
        return Err(ZeroAmount);
      }
      if pairId !in pools {
        return Err(PoolNotFound);
      }
      var pool := pools[pairId];
      if tokenIn != pool.tokenA && tokenIn != pool.tokenB {
        return Err(InvalidToken);
      }
      var aToB := tokenIn == pool.tokenA;
      var quote: Result<SwapOutcome>;
      if aToB {
        quote := QuoteInternal(pool, pool.reserveA, pool.reserveB, amountIn, minOut);
      } else {
        quote := QuoteInternal(pool, pool.reserveB, pool.reserveA, amountIn, minOut);
      }
      if quote.Err? {
        return Err(quote.error);
      }
      var out, fee := quote.value.amountOut, quote.value.protocolFee;
      var kept := WrapMinus(amountIn, fee);
      if aToB {
        pool := pool.(reserveA := Sum(pool.reserveA, kept), reserveB := WrapMinus(pool.reserveB, out));
        pool := pool.(volumeA := Wrap(pool.volumeA + amountIn), protocolFeesA := Wrap(pool.protocolFeesA + fee));
      } else {
        pool := pool.(reserveB := Sum(pool.reserveB, kept), reserveA := WrapMinus(pool.reserveA, out));
        pool := pool.(volumeB := Wrap(pool.volumeB + amountIn), protocolFeesB := Wrap(pool.protocolFeesB + fee));
      }
      pools := pools[pairId := pool];
      var paid := PaySwap(pairId, user, tokenIn, if aToB then pool.tokenB else pool.tokenA, kept, fee, out);
      assert SwapPayments(old(pools)[pairId].(pairId := pairId), user, feeAddress, aToB, amountIn, quote.value)
          == SwapTransfers(pairId, user, feeAddress, tokenIn, if aToB then pool.tokenB else pool.tokenA, kept, fee, out);
      return if paid then Ok(out) else Err(TransferFailed);
    }

    /** The kept input, the protocol's fee if there is one, and the output, in this order. */
    method PaySwap(pairId: string, user: string, tokenIn: string, tokenOut: string, kept: u128, fee: u128, out: u128)
      returns (ok: bool)
      modifies tokenFactory
      ensures Moved(tokenFactory.Book(), ok)
           == PayAll(old(tokenFactory.Book()), SwapTransfers(pairId, user, feeAddress, tokenIn, tokenOut, kept, fee, out))
    {
      ghost var payments := SwapTransfers(pairId, user, feeAddress, tokenIn, tokenOut, kept, fee, out);
      PayAllStep(old(tokenFactory.Book()), payments);
      PayAllStep(old(tokenFactory.Book()), payments[..|payments| - 1]);
      PayAllStep(old(tokenFactory.Book()), payments[..1]);
      assert payments[..1][..0] == [];
      ok := tokenFactory.TransferInternal(tokenIn, user, pairId, kept);
      if ok && fee > 0 {
        assert payments[..|payments| - 1][..1] == payments[..1];
        var to := if feeAddress != "" then feeAddress else pairId;
        ok := tokenFactory.TransferInternal(tokenIn, user, to, fee);
      }
      if ok {
        ok := tokenFactory.TransferInternal(tokenOut, pairId, user, out);
      }
    }

    /** Grow the pool field by field, then take both deposits and mint the LP tokens. */
    method AddLiquidityInternal(pairId: string, user: string, desiredA: u128, desiredB: u128, minA: u128, minB: u128)
      returns (r: Result<AddOutcome>)
      modifies this`pools, tokenFactory
      ensures (State(), r) == AddToPool(old(State()), pairId, user, desiredA, desiredB, minA, minB)
    {
      if pairId !in pools {
        return Err(PoolNotFound);
      }
      var pool := pools[pairId];
      var grown;
      grown, r := GrowPool(pool, desiredA, desiredB, minA, minB);
      pools := pools[pairId := grown];
      if r.Err? {
        return r;
      }
      var paid := PayBoth(Payment(pool.tokenA, user, pairId, r.value.amountA), Payment(pool.tokenB, user, pairId, r.value.amountB));
      if !paid {
        return Err(TransferFailed);
      }
      var minted := tokenFactory.MintInternal(pool.lpDenom, user, r.value.lpTokens);
      if !minted {
        return Err(TransferFailed);
      }
    }

    method OptimalAmounts(pool: Pool, desiredA: u128, desiredB: u128) returns (a: u128, b: u128)
      requires pool.reserveA > 0 && pool.reserveB > 0
      ensures (a, b) == AddAmounts(pool, desiredA, desiredB)
    {
      var optimalB := Div(Wrap(desiredA * pool.reserveB), pool.reserveA);
      if optimalB <= desiredB {
        return desiredA, optimalB;
      }
      var optimalA := Div(Wrap(desiredB * pool.reserveA), pool.reserveB);
      return optimalA, desiredB;
    }

    method LpTokensFor(pool: Pool, a: u128, b: u128) returns (lpTokens: u128)
      requires pool.reserveA > 0 && pool.reserveB > 0
      ensures lpTokens == LpFor(pool, a, b)
    {
      var byA := Div(Wrap(a * pool.totalLp), pool.reserveA);
      var byB := Div(Wrap(b * pool.totalLp), pool.reserveB);
      lpTokens := byA;
      if byB < byA {
        lpTokens := byB;
      }
    }

    method GrowPool(pool: Pool, desiredA: u128, desiredB: u128, minA: u128, minB: u128)
      returns (grown: Pool, r: Result<AddOutcome>)
      ensures (grown, r) == AddLiquidity(pool, desiredA, desiredB, minA, minB)
    {
      grown := pool;
      if pool.reserveA == 0 || pool.reserveB == 0 {
        return grown, Err(Panic);
      }
      var a, b := OptimalAmounts(pool, desiredA, desiredB);
      if a < minA || b < minB {
        return grown, Err(BelowMinimum);
      }
      var lpTokens := LpTokensFor(pool, a, b);
      if lpTokens == 0 {
        return grown, Err(LiquidityTooSmall);
      }
      if pool.reserveA + a > U128_MAX {
        return grown, Err(Overflow);
      }
      grown := grown.(reserveA := pool.reserveA + a);
      if pool.reserveB + b > U128_MAX {
        return grown, Err(Overflow);
      }
      grown := grown.(reserveB := pool.reserveB + b);
      if pool.totalLp + lpTokens > U128_MAX {
        return grown, Err(Overflow);
      }
      grown := grown.(totalLp := pool.totalLp + lpTokens);
      return grown, Ok(AddOutcome(a, b, lpTokens));
    }

    /** Shrink the pool, burn the user's LP tokens, pay both shares out. */
    method RemoveLiquidityInternal(pairId: string, user: string, lpTokens: u128, minA: u128, minB: u128)
      returns (r: Result<(u128, u128)>)
      modifies this`pools, tokenFactory
      ensures (State(), r) == RemoveFromPool(old(State()), pairId, user, lpTokens, minA, minB)
    {
      if lpTokens == 0 {
        return Err(ZeroAmount);
      }
      if pairId !in pools {
        return Err(PoolNotFound);
      }
      var pool := pools[pairId];
      var held := tokenFactory.GetBalance(pool.lpDenom, user);
      if held < lpTokens {
        return Err(InsufficientLp);
      }
      if pool.totalLp == 0 {
        return Err(Panic);
      }
      var a, b := ShareOf(pool.reserveA, lpTokens, pool.totalLp), ShareOf(pool.reserveB, lpTokens, pool.totalLp);
      if a < minA || b < minB {
        return Err(BelowMinimum);
      }
      pools := pools[pairId := pool.(reserveA := WrapMinus(pool.reserveA, a), reserveB := WrapMinus(pool.reserveB, b),
                                     totalLp := WrapMinus(pool.totalLp, lpTokens))];
      var burned := tokenFactory.BurnInternal(pool.lpDenom, user, lpTokens);
      if !burned {
        return Err(TransferFailed);
      }
      var paid := PayBoth(Payment(pool.tokenA, pairId, user, a), Payment(pool.tokenB, pairId, user, b));
      return if paid then Ok((a, b)) else Err(TransferFailed);
    }
  }

  function SwapTransfers(pairId: string, user: string, feeAddress: string, tokenIn: string, tokenOut: string,
                         kept: u128, fee: u128, out: u128): (payments: seq<Payment>)
    ensures |payments| == if fee > 0 then 3 else 2
  {
    [Payment(tokenIn, user, pairId, kept)]
    + (if fee > 0 then [Payment(tokenIn, user, if feeAddress != "" then feeAddress else pairId, fee)] else [])
    + [Payment(tokenOut, pairId, user, out)]
  }

  /** The last payment of a list, unfolded. */
  lemma PayAllStep(b: TokenBook, payments: seq<Payment>)
    requires payments != []
    ensures var prev, p := PayAll(b, payments[..|payments| - 1]), payments[|payments| - 1];
            PayAll(b, payments) == if prev.ok then Transfer(prev.book, p.denom, p.from, p.to, p.amount) else prev
  {
  }
}
