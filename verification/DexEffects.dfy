/**
  What the exchange's operations pay: for every denomination and every holder, by how much the balance
  changes. Nothing is assumed about who the parties are or whether some of them coincide.
 */
module DexEffects {
  import opened PoolMath
  import opened LiquidityPool
  import opened PoolSafety
  import opened TokenLedger
  import opened Dex
  import opened DexPayments
  import opened DexSafety
  import opened DexBacking

  /** An amount that counts for one denomination and one holder. */
  function At(denom: string, holder: string, d: string, h: string, amount: int): int {
    if d == denom && h == holder then amount else 0
  }

  // ---------------------------------------------------------------- swap

  /** The user pays the input and gets the output; the pool keeps the input but for the protocol's fee. */
  function SwapDelta(user: string, id: string, wallet: string, tokenIn: string, tokenOut: string,
                     amountIn: int, fee: int, out: int, d: string, h: string): int
  {
    At(tokenIn, user, d, h, -amountIn) + At(tokenIn, id, d, h, amountIn - fee) + At(tokenIn, wallet, d, h, fee)
    + At(tokenOut, user, d, h, out) + At(tokenOut, id, d, h, -out)
  }

  /** What one payment adds. */
  function NetOf(p: Payment, d: string, h: string): int {
    At(p.denom, p.to, d, h, p.amount) - At(p.denom, p.from, d, h, p.amount)
  }

  lemma NetOfOne(p: Payment, d: string, h: string)
    ensures Net([p], d, h) == NetOf(p, d, h)
  {
    assert [p][..0] == [];
  }

  lemma SwapNets(p: Pool, user: string, feeAddress: string, aToB: bool, amountIn: u128, o: SwapOutcome, d: string, h: string)
    requires o.protocolFee <= amountIn
    ensures var tokenIn, tokenOut := if aToB then p.tokenA else p.tokenB, if aToB then p.tokenB else p.tokenA;
            Net(SwapPayments(p, user, feeAddress, aToB, amountIn, o), d, h)
            == SwapDelta(user, p.pairId, if feeAddress != "" then feeAddress else p.pairId, tokenIn, tokenOut,
                         amountIn, o.protocolFee, o.amountOut, d, h)
  {
    var tokenIn, tokenOut := if aToB then p.tokenA else p.tokenB, if aToB then p.tokenB else p.tokenA;
    var first := Payment(tokenIn, user, p.pairId, amountIn - o.protocolFee);
    var fee := Payment(tokenIn, user, if feeAddress != "" then feeAddress else p.pairId, o.protocolFee);
    var out := Payment(tokenOut, p.pairId, user, o.amountOut);
    assert SwapPayments(p, user, feeAddress, aToB, amountIn, o) == [first] + (if fee.amount > 0 then [fee] else []) + [out];
    NetOfThree(first, fee, out, d, h);
    assert NetOf(first, d, h) + NetOf(fee, d, h) + NetOf(out, d, h)
        == SwapDelta(user, p.pairId, fee.to, tokenIn, tokenOut, amountIn, o.protocolFee, o.amountOut, d, h) by {
      AtAddsUp(tokenIn, user, d, h, amountIn - o.protocolFee, o.protocolFee);
    }
  }

  lemma AtAddsUp(denom: string, holder: string, d: string, h: string, x: int, y: int)
    ensures At(denom, holder, d, h, x) + At(denom, holder, d, h, y) == At(denom, holder, d, h, x + y)
    ensures At(denom, holder, d, h, -x) == -At(denom, holder, d, h, x)
  {
  }

  lemma NetOfThree(first: Payment, fee: Payment, out: Payment, d: string, h: string)
    ensures Net([first] + (if fee.amount > 0 then [fee] else []) + [out], d, h) == NetOf(first, d, h) + NetOf(fee, d, h) + NetOf(out, d, h)
  {
    var fees := if fee.amount > 0 then [fee] else [];
    NetConcat([first] + fees, [out], d, h);
    NetConcat([first], fees, d, h);
    NetOfOne(first, d, h);
    NetOfOne(fee, d, h);
    NetOfOne(out, d, h);
  }

  lemma SwapShape(s: DexState, id: string, user: string, tokenIn: string, amountIn: u128, minOut: u128)
    requires SwapTokens(s, id, user, tokenIn, amountIn, minOut).1.Ok?
    ensures id in s.pools && (tokenIn == s.pools[id].tokenA || tokenIn == s.pools[id].tokenB)
    ensures var p, aToB := s.pools[id], tokenIn == s.pools[id].tokenA;
            var (p', r) := Swap(p, aToB, amountIn, minOut);
            && r.Ok?
            && var m := PayAll(s.book, SwapPayments(p.(pairId := id), user, s.feeAddress, aToB, amountIn, r.value));
               m.ok && SwapTokens(s, id, user, tokenIn, amountIn, minOut).0 == s.(pools := s.pools[id := p'], book := m.book)
  {
  }

  /** Every balance after a swap that went through. */
  lemma SwapSettles(s: DexState, id: string, user: string, tokenIn: string, amountIn: u128, minOut: u128, d: string, h: string)
    requires id in s.pools && RatesOk(s.pools[id])
    requires SwapTokens(s, id, user, tokenIn, amountIn, minOut).1.Ok?
    ensures var p := s.pools[id];
            var tokenOut := if tokenIn == p.tokenA then p.tokenB else p.tokenA;
            var (s', out) := SwapTokens(s, id, user, tokenIn, amountIn, minOut);
            BalanceOf(s'.book, d, h)
            == BalanceOf(s.book, d, h)
             + SwapDelta(user, id, if s.feeAddress != "" then s.feeAddress else id, tokenIn, tokenOut,
                         amountIn, ProtocolFee(p, amountIn), out.value, d, h)
  {
    var p := s.pools[id].(pairId := id);
    var aToB := tokenIn == p.tokenA;
    SwapShape(s, id, user, tokenIn, amountIn, minOut);
    FeeOrder(s.pools[id], amountIn);
    var o := Swap(s.pools[id], aToB, amountIn, minOut).1.value;
    SwapNets(p, user, s.feeAddress, aToB, amountIn, o, d, h);
    PaymentsMove(s.book, SwapPayments(p, user, s.feeAddress, aToB, amountIn, o), d, h);
  }

  // ---------------------------------------------------------------- deposits and withdrawals

  /** Both amounts from one party to the other. */
  function PairDelta(from: string, to: string, tokenA: string, a: int, tokenB: string, b: int, d: string, h: string): int {
    At(tokenA, from, d, h, -a) + At(tokenA, to, d, h, a) + At(tokenB, from, d, h, -b) + At(tokenB, to, d, h, b)
  }

  lemma BothPaid(b: TokenBook, p: Payment, q: Payment, d: string, h: string)
    requires PayAll(b, [p, q]).ok && p.from == q.from && p.to == q.to
    ensures BalanceOf(PayAll(b, [p, q]).book, d, h)
         == BalanceOf(b, d, h) + PairDelta(p.from, p.to, p.denom, p.amount, q.denom, q.amount, d, h)
  {
    PaymentsMove(b, [p, q], d, h);
    assert [p, q] == [p] + [q];
    NetConcat([p], [q], d, h);
    NetOfOne(p, d, h);
    NetOfOne(q, d, h);
  }

  lemma DepositShape(s: DexState, id: string, user: string, desiredA: u128, desiredB: u128, minA: u128, minB: u128)
    requires AddToPool(s, id, user, desiredA, desiredB, minA, minB).1.Ok?
    ensures id in s.pools && AddLiquidity(s.pools[id], desiredA, desiredB, minA, minB).1.Ok?
    ensures var p := s.pools[id];
            var o := AddLiquidity(p, desiredA, desiredB, minA, minB).1.value;
            var m := PayAll(s.book, [Payment(p.tokenA, user, id, o.amountA), Payment(p.tokenB, user, id, o.amountB)]);
            var minted := Mint(m.book, p.lpDenom, user, o.lpTokens);
            m.ok && minted.ok && AddToPool(s, id, user, desiredA, desiredB, minA, minB).0.book == minted.book
  {
  }

  /** Every balance after a deposit that went through: the amounts to the pool, the LP tokens to the user. */
  lemma AddSettles(s: DexState, id: string, user: string, desiredA: u128, desiredB: u128, minA: u128, minB: u128, d: string, h: string)
    requires AddToPool(s, id, user, desiredA, desiredB, minA, minB).1.Ok?
    ensures id in s.pools
    ensures var p := s.pools[id];
            var (s', r) := AddToPool(s, id, user, desiredA, desiredB, minA, minB);
            BalanceOf(s'.book, d, h)
            == BalanceOf(s.book, d, h) + PairDelta(user, id, p.tokenA, r.value.amountA, p.tokenB, r.value.amountB, d, h)
             + At(p.lpDenom, user, d, h, r.value.lpTokens)
  {
    DepositShape(s, id, user, desiredA, desiredB, minA, minB);
    var p := s.pools[id];
    var o := AddLiquidity(p, desiredA, desiredB, minA, minB).1.value;
    var a, b := Payment(p.tokenA, user, id, o.amountA), Payment(p.tokenB, user, id, o.amountB);
    BothPaid(s.book, a, b, d, h);
    MintSum(PayAll(s.book, [a, b]).book, p.lpDenom, user, o.lpTokens, d);
  }

  /** Every balance after a withdrawal that went through: the LP tokens burned, the shares to the user. */
  lemma RemoveSettles(s: DexState, id: string, user: string, lpTokens: u128, minA: u128, minB: u128, d: string, h: string)
    requires RemoveFromPool(s, id, user, lpTokens, minA, minB).1.Ok?
    ensures id in s.pools
    ensures var p := s.pools[id];
            var (s', r) := RemoveFromPool(s, id, user, lpTokens, minA, minB);
            BalanceOf(s'.book, d, h)
            == BalanceOf(s.book, d, h) + PairDelta(id, user, p.tokenA, r.value.0, p.tokenB, r.value.1, d, h)
             + At(p.lpDenom, user, d, h, -(lpTokens as int))
  {
    var p := s.pools[id];
    var (a, b) := RemoveFromPool(s, id, user, lpTokens, minA, minB).1.value;
    var burned := Burn(s.book, p.lpDenom, user, lpTokens).book;
    BurnTakes(s.book, p.lpDenom, user, lpTokens, d, h);
    BothPaid(burned, Payment(p.tokenA, id, user, a), Payment(p.tokenB, id, user, b), d, h);
  }

  /** Both payments, the first alone, or neither: what that does to every balance. */
  lemma EitherPaid(b: TokenBook, p: Payment, q: Payment, d: string, h: string)
    requires KnownDenoms(b) && WithinWord(b) && p.denom != q.denom && p.from == q.from && p.to == q.to && p.from != p.to
    requires BalanceOf(b, p.denom, p.from) >= p.amount && BalanceOf(b, q.denom, q.from) >= q.amount
    ensures BalanceOf(PayAll(b, [p, q]).book, d, h)
         == BalanceOf(b, d, h) + PairDelta(p.from, p.to, p.denom, p.amount, q.denom, if p.amount > 0 then q.amount else 0, d, h)
  {
    PayTwo(b, p, q);
    PaymentGoesThrough(b, p);
    PaymentEffect(b, p);
    PaymentKeepsTotals(b, p);
    PaymentGoesThrough(Pay(b, p).book, q);
    PaymentEffect(Pay(b, p).book, q);
  }

  /**
    Every balance after any withdrawal that passed the checks, also one that then fails: the LP tokens are
    burned; a share of zero stops the payments, so a zero share of the first token forfeits the second.
   */
  lemma WithdrawalSettles(s: DexState, id: string, user: string, lpTokens: u128, minA: u128, minB: u128, d: string, h: string)
    requires BackedDex(s) && !IsPairAccount(user) && id in s.pools
    requires RemoveLiquidity(s.pools[id], BalanceOf(s.book, s.pools[id].lpDenom, user), lpTokens, minA, minB).1.Ok?
    ensures var p := s.pools[id];
            var (a, b) := RemoveLiquidity(p, BalanceOf(s.book, p.lpDenom, user), lpTokens, minA, minB).1.value;
            BalanceOf(RemoveFromPool(s, id, user, lpTokens, minA, minB).0.book, d, h)
            == BalanceOf(s.book, d, h) + PairDelta(id, user, p.tokenA, a, p.tokenB, if a > 0 then b else 0, d, h)
             + At(p.lpDenom, user, d, h, -(lpTokens as int))
  {
    var p := s.pools[id];
    assert OrderlyEntry(s, id) && BackedEntry(s, id);
    PairsArePairAccounts(p.tokenA, p.tokenB);
    HolderBound(s.book, p.lpDenom, user);
    AcceptedRemove(s, id, user, lpTokens, minA, minB);
    var (a, b) := RemoveLiquidity(p, BalanceOf(s.book, p.lpDenom, user), lpTokens, minA, minB).1.value;
    var burned := Burn(s.book, p.lpDenom, user, lpTokens).book;
    BurnTakes(s.book, p.lpDenom, user, lpTokens, d, h);
    BurnGoesThrough(s.book, p.lpDenom, p.totalLp, user, lpTokens);
    BurnSum(s.book, p.lpDenom, user, lpTokens, p.lpDenom);
    SumsBound(s.book, burned, p.lpDenom);
    EitherPaid(burned, Payment(p.tokenA, id, user, a), Payment(p.tokenB, id, user, b), d, h);
  }

  /** Half of the LP supply of a lopsided pool: nothing of the first token, so nothing of the second is paid either. */
  lemma ZeroShareIsAccepted()
    ensures var p := Pool("pair/x/y", "x", "y", 1, 100, 10, "lp/x/y", 0, 0, 30, 20, 10, 0, 0);
            RemoveLiquidity(p, 5, 5, 0, 0) == (p.(reserveA := 1, reserveB := 50, totalLp := 5), Ok((0, 50)))
  {
  }

  lemma BurnTakes(b: TokenBook, denom: string, from: string, amount: u128, d: string, h: string)
    requires amount > 0 && BalanceOf(b, denom, from) >= amount
    ensures Burn(b, denom, from, amount).ok
    ensures BalanceOf(Burn(b, denom, from, amount).book, d, h) == BalanceOf(b, d, h) + At(denom, from, d, h, -(amount as int))
  {
  }

  // ---------------------------------------------------------------- creation

  lemma TransferNet(b: TokenBook, denom: string, from: string, to: string, amount: u128, d: string, h: string)
    requires Transfer(b, denom, from, to, amount).ok
    ensures BalanceOf(Transfer(b, denom, from, to, amount).book, d, h)
         == BalanceOf(b, d, h) + At(denom, to, d, h, amount) - At(denom, from, d, h, amount)
  {
  }

  lemma NewTokenNet(b: TokenBook, lpDenom: string, id: string, supply: u128, d: string, h: string)
    requires KnownDenoms(b) && CreateLpToken(b, lpDenom, id, supply).ok
    ensures BalanceOf(CreateLpToken(b, lpDenom, id, supply).book, d, h) == BalanceOf(b, d, h) + At(lpDenom, id, d, h, supply)
  {
  }

  lemma CreateShape(s: DexState, creator: string, tokenA: string, tokenB: string, reserveA: u128, reserveB: u128)
    requires CreateSorted(s, creator, tokenA, tokenB, reserveA, reserveB).1.Ok?
    ensures var id, lpDenom := PairId(tokenA, tokenB), LpDenom(tokenA, tokenB);
            var deposits := PayAll(s.book, [Payment(tokenA, creator, id, reserveA), Payment(tokenB, creator, id, reserveB)]);
            var s' := CreateSorted(s, creator, tokenA, tokenB, reserveA, reserveB).0;
            && deposits.ok && id in s'.pools && s'.pools[id].lpDenom == lpDenom
            && var lp := s'.pools[id].totalLp;
               var created := CreateLpToken(deposits.book, lpDenom, id, lp);
               && created.ok && Transfer(created.book, lpDenom, id, creator, lp).ok
               && s'.book == Transfer(created.book, lpDenom, id, creator, lp).book
  {
  }

  /** Every balance after a creation that went through: the deposits to the pool, the whole LP supply to the creator. */
  lemma CreateSettles(s: DexState, creator: string, tokenA: string, tokenB: string, reserveA: u128, reserveB: u128, d: string, h: string)
    requires KnownDenoms(s.book) && CreateSorted(s, creator, tokenA, tokenB, reserveA, reserveB).1.Ok?
    ensures var id := PairId(tokenA, tokenB);
            var s' := CreateSorted(s, creator, tokenA, tokenB, reserveA, reserveB).0;
            && id in s'.pools
            && BalanceOf(s'.book, d, h)
               == BalanceOf(s.book, d, h) + PairDelta(creator, id, tokenA, reserveA, tokenB, reserveB, d, h)
                + At(LpDenom(tokenA, tokenB), creator, d, h, s'.pools[id].totalLp)
  {
    var id, lpDenom := PairId(tokenA, tokenB), LpDenom(tokenA, tokenB);
    var a, b := Payment(tokenA, creator, id, reserveA), Payment(tokenB, creator, id, reserveB);
    CreateShape(s, creator, tokenA, tokenB, reserveA, reserveB);
    var deposits := PayAll(s.book, [a, b]).book;
    var lp := CreateSorted(s, creator, tokenA, tokenB, reserveA, reserveB).0.pools[id].totalLp;
    BothPaid(s.book, a, b, d, h);
    PaymentsConserve(s.book, [a, b], d);
    NewTokenNet(deposits, lpDenom, id, lp, d, h);
    TransferNet(CreateLpToken(deposits, lpDenom, id, lp).book, lpDenom, id, creator, lp, d, h);
  }

  // ---------------------------------------------------------------- amounts

  lemma OutputBound(reserveIn: nat, reserveOut: nat, afterFee: nat, out: nat)
    ensures (reserveIn + afterFee) * (reserveOut - out) >= reserveIn * reserveOut
       <==> out * (reserveIn + afterFee) <= reserveOut * afterFee
  {
    assert (reserveIn + afterFee) * (reserveOut - out)
        == reserveIn * reserveOut + reserveOut * afterFee - out * (reserveIn + afterFee);
  }

  lemma QuotedOutput(p: Pool, reserveIn: u128, reserveOut: u128, amountIn: u128, minOut: u128)
    requires RatesOk(p) && Quote(p, reserveIn, reserveOut, amountIn, minOut).Ok?
    ensures var afterFee := amountIn - TotalFee(p, amountIn);
            && 0 <= afterFee && 0 < reserveIn + afterFee && reserveOut * afterFee <= U128_MAX
            && Quote(p, reserveIn, reserveOut, amountIn, minOut).value.amountOut == reserveOut * afterFee / (reserveIn + afterFee)
  {
    FeeOrder(p, amountIn);
  }

  /** The output of a swap keeps the product for the input after fees, and one more would not. */
  lemma QuoteIsLargest(p: Pool, reserveIn: u128, reserveOut: u128, amountIn: u128, minOut: u128)
    requires RatesOk(p) && Quote(p, reserveIn, reserveOut, amountIn, minOut).Ok?
    ensures var afterFee, out := amountIn - TotalFee(p, amountIn), Quote(p, reserveIn, reserveOut, amountIn, minOut).value.amountOut;
            && (reserveIn + afterFee) * (reserveOut - out) >= reserveIn * reserveOut
            && (reserveIn + afterFee) * (reserveOut - (out + 1)) < reserveIn * reserveOut
  {
    QuotedOutput(p, reserveIn, reserveOut, amountIn, minOut);
    LargestOutput(reserveIn, reserveOut, amountIn - TotalFee(p, amountIn),
                  Quote(p, reserveIn, reserveOut, amountIn, minOut).value.amountOut);
  }

  lemma LargestOutput(reserveIn: nat, reserveOut: nat, afterFee: nat, out: nat)
    requires reserveIn + afterFee > 0 && out == reserveOut * afterFee / (reserveIn + afterFee)
    ensures (reserveIn + afterFee) * (reserveOut - out) >= reserveIn * reserveOut
    ensures (reserveIn + afterFee) * (reserveOut - (out + 1)) < reserveIn * reserveOut
  {
    var d := reserveIn + afterFee;
    assert out * d <= reserveOut * afterFee < (out + 1) * d;
    OutputBound(reserveIn, reserveOut, afterFee, out);
    OutputBound(reserveIn, reserveOut, afterFee, out + 1);
  }

  /** The LP tokens of a deposit dilute neither reserve, and one more would, as long as the products fit the word. */
  lemma MintIsLargest(p: Pool, a: u128, b: u128)
    requires p.reserveA > 0 && p.reserveB > 0
    requires a * p.totalLp <= U128_MAX && b * p.totalLp <= U128_MAX
    ensures var lp := LpFor(p, a, b);
            && lp * p.reserveA <= a * p.totalLp && lp * p.reserveB <= b * p.totalLp
            && ((lp + 1) * p.reserveA > a * p.totalLp || (lp + 1) * p.reserveB > b * p.totalLp)
  {
    SmallerShareFits(a * p.totalLp, p.reserveA, LpFor(p, a, b));
    SmallerShareFits(b * p.totalLp, p.reserveB, LpFor(p, a, b));
  }

  lemma SmallerShareFits(x: u128, d: nat, q: nat)
    requires d > 0 && q <= Div(x, d)
    ensures q * d <= x
  {
    MulLe(q, Div(x, d), d, d);
  }

  lemma ShareIsLargest(reserve: u128, lpTokens: u128, totalLp: u128)
    requires 0 < lpTokens <= totalLp && reserve * lpTokens <= U128_MAX
    ensures var share := ShareOf(reserve, lpTokens, totalLp);
            && share <= reserve
            && (reserve - share) * totalLp >= reserve * (totalLp - lpTokens)
            && (reserve - share - 1) * totalLp < reserve * (totalLp - lpTokens)
  {
    var share := Div(reserve * lpTokens, totalLp);
    MulLe(reserve, reserve, lpTokens, totalLp);
    CancelFactor(share, reserve, totalLp);
    assert (reserve - share) * totalLp == reserve * totalLp - share * totalLp;
    assert (reserve - share - 1) * totalLp == reserve * totalLp - (share + 1) * totalLp;
    assert reserve * (totalLp - lpTokens) == reserve * totalLp - reserve * lpTokens;
  }

  /**
    A withdrawal dilutes nobody who stays, and would dilute them if it took one more unit of either token,
    as long as the products fit the word.
   */
  lemma WithdrawalIsLargest(p: Pool, held: u128, lpTokens: u128, minA: u128, minB: u128)
    requires held <= p.totalLp && RemoveLiquidity(p, held, lpTokens, minA, minB).1.Ok?
    requires p.reserveA * lpTokens <= U128_MAX && p.reserveB * lpTokens <= U128_MAX
    ensures var p' := RemoveLiquidity(p, held, lpTokens, minA, minB).0;
            && NoDilution(p, p')
            && (p'.reserveA > 0 ==> !NoDilution(p, p'.(reserveA := p'.reserveA - 1)))
            && (p'.reserveB > 0 ==> !NoDilution(p, p'.(reserveB := p'.reserveB - 1)))
  {
    RemoveShape(p, held, lpTokens, minA, minB);
    ShareIsLargest(p.reserveA, lpTokens, p.totalLp);
    ShareIsLargest(p.reserveB, lpTokens, p.totalLp);
  }
}
