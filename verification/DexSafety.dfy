/**
  Runs of the exchange. In every run pools keep their names and rates and LP balances stay within the LP
  supply, whatever payments fail on the way; and as long as swap amounts are safe, the LP bound holds.
 */
module DexSafety {
  import opened Ordering
  import opened PoolMath
  import opened LiquidityPool
  import opened PoolSafety
  import opened TokenLedger
  import opened Dex

  // ---------------------------------------------------------------- order in every run

  ghost predicate OrderlyEntry(d: DexState, id: string)
    requires id in d.pools
  {
    var p := d.pools[id];
    && p.pairId == id == PairId(p.tokenA, p.tokenB) && p.lpDenom == LpDenom(p.tokenA, p.tokenB)
    && RatesOk(p) && p.lpDenom in d.book.tokens && DenomSum(d.book, p.lpDenom) <= p.totalLp
  }

  ghost predicate OrderlyDex(d: DexState) {
    && d.protocolFeeRate <= d.feeRate <= BASIS_POINTS
    && KnownDenoms(d.book)
    && forall id :: id in d.pools ==> OrderlyEntry(d, id)
  }

  /** Pools with the same LP denomination are the same pool. */
  lemma LpDenomsDiffer(a: string, b: string, a': string, b': string)
    requires LpDenom(a, b) == LpDenom(a', b')
    ensures PairId(a, b) == PairId(a', b')
  {
    assert LpDenom(a, b)[3..] == PairSuffix(a, b) && LpDenom(a', b')[3..] == PairSuffix(a', b');
  }

  predicate SameNames(p: Pool, p': Pool) {
    p'.pairId == p.pairId && p'.tokenA == p.tokenA && p'.tokenB == p.tokenB && p'.lpDenom == p.lpDenom
  }

  ghost predicate BookFollows(b: TokenBook, b': TokenBook) {
    b.tokens.Keys <= b'.tokens.Keys && KnownDenoms(b')
  }

  /** One pool changes; no other LP denomination grows. */
  lemma UpdateKeepsOrder(d: DexState, d': DexState, id: string, p': Pool)
    requires OrderlyDex(d) && id in d.pools && d' == d.(pools := d.pools[id := p'], book := d'.book)
    requires BookFollows(d.book, d'.book) && RatesOk(p') && SameNames(d.pools[id], p')
    requires DenomSum(d'.book, p'.lpDenom) <= p'.totalLp
    requires forall denom :: denom != p'.lpDenom ==> DenomSum(d'.book, denom) <= DenomSum(d.book, denom)
    ensures OrderlyDex(d')
  {
    forall other | other in d'.pools ensures OrderlyEntry(d', other) {
      assert OrderlyEntry(d, other);
      if other != id {
        assert OrderlyEntry(d, id);
        if d.pools[other].lpDenom == p'.lpDenom {
          LpDenomsDiffer(d.pools[other].tokenA, d.pools[other].tokenB, p'.tokenA, p'.tokenB);
        }
      }
    }
  }

  lemma PaymentsFollow(b: TokenBook, payments: seq<Payment>)
    requires KnownDenoms(b)
    ensures BookFollows(b, PayAll(b, payments).book)
    ensures forall denom :: DenomSum(PayAll(b, payments).book, denom) <= DenomSum(b, denom)
  {
    PaymentsConserve(b, payments, "");
    forall denom ensures DenomSum(PayAll(b, payments).book, denom) <= DenomSum(b, denom) {
      PaymentsConserve(b, payments, denom);
    }
  }

  lemma SwapStepIsOrderly(d: DexState, id: string, user: string, tokenIn: string, amountIn: u128, minOut: u128)
    requires OrderlyDex(d)
    ensures OrderlyDex(SwapTokens(d, id, user, tokenIn, amountIn, minOut).0)
  {
    if id in d.pools {
      var p, aToB := d.pools[id], tokenIn == d.pools[id].tokenA;
      var (p', r) := Swap(p, aToB, amountIn, minOut);
      assert OrderlyEntry(d, id);
      SwapKeepsProduct(p, aToB, amountIn, minOut);
      if amountIn > 0 && r.Ok? && (aToB || tokenIn == p.tokenB) {
        var payments := SwapPayments(p.(pairId := id), user, d.feeAddress, aToB, amountIn, r.value);
        PaymentsFollow(d.book, payments);
        UpdateKeepsOrder(d, d.(pools := d.pools[id := p'], book := PayAll(d.book, payments).book), id, p');
      }
    }
  }

  /** A deposit keeps names and rates, and raises the LP supply by what it mints. */
  lemma DepositGrows(p: Pool, desiredA: u128, desiredB: u128, minA: u128, minB: u128)
    ensures var (p', r) := AddLiquidity(p, desiredA, desiredB, minA, minB);
            && SameNames(p, p') && p'.feeRate == p.feeRate && p'.protocolFeeRate == p.protocolFeeRate
            && p'.totalLp == p.totalLp + if r.Ok? then r.value.lpTokens else 0
  {
  }

  lemma AddStepIsOrderly(d: DexState, id: string, user: string, desiredA: u128, desiredB: u128, minA: u128, minB: u128)
    requires OrderlyDex(d)
    ensures OrderlyDex(AddToPool(d, id, user, desiredA, desiredB, minA, minB).0)
  {
    if id in d.pools {
      var p := d.pools[id];
      assert OrderlyEntry(d, id);
      DepositGrows(p, desiredA, desiredB, minA, minB);
      var (p', r) := AddLiquidity(p, desiredA, desiredB, minA, minB);
      if r.Err? {
        UpdateKeepsOrder(d, d.(pools := d.pools[id := p']), id, p');
      } else {
        var payments := [Payment(p.tokenA, user, id, r.value.amountA), Payment(p.tokenB, user, id, r.value.amountB)];
        PaymentsFollow(d.book, payments);
        var m := PayAll(d.book, payments);
        if !m.ok {
          UpdateKeepsOrder(d, d.(pools := d.pools[id := p'], book := m.book), id, p');
        } else {
          MintFollows(m.book, p.lpDenom, user, r.value.lpTokens);
          UpdateKeepsOrder(d, d.(pools := d.pools[id := p'], book := Mint(m.book, p.lpDenom, user, r.value.lpTokens).book), id, p');
        }
      }
    }
  }

  lemma MintFollows(b: TokenBook, denom: string, to: string, amount: u128)
    requires KnownDenoms(b)
    ensures var m := Mint(b, denom, to, amount);
            && BookFollows(b, m.book)
            && DenomSum(m.book, denom) <= DenomSum(b, denom) + amount
            && forall other :: other != denom ==> DenomSum(m.book, other) == DenomSum(b, other)
  {
    MintSum(b, denom, to, amount, denom);
    forall other | other != denom ensures DenomSum(Mint(b, denom, to, amount).book, other) == DenomSum(b, other) {
      MintSum(b, denom, to, amount, other);
    }
  }

  lemma RemoveStepIsOrderly(d: DexState, id: string, user: string, lpTokens: u128, minA: u128, minB: u128)
    requires OrderlyDex(d)
    ensures OrderlyDex(RemoveFromPool(d, id, user, lpTokens, minA, minB).0)
  {
    if id in d.pools && lpTokens > 0 {
      var p, held := d.pools[id], BalanceOf(d.book, d.pools[id].lpDenom, user);
      assert OrderlyEntry(d, id);
      HolderBound(d.book, p.lpDenom, user);
      RemoveShape(p, held, lpTokens, minA, minB);
      var (p', r) := RemoveLiquidity(p, held, lpTokens, minA, minB);
      if r.Ok? {
        BurnFollows(d.book, p.lpDenom, user, lpTokens);
        var burned := Burn(d.book, p.lpDenom, user, lpTokens).book;
        var payments := [Payment(p.tokenA, id, user, r.value.0), Payment(p.tokenB, id, user, r.value.1)];
        PaymentsFollow(burned, payments);
        UpdateKeepsOrder(d, d.(pools := d.pools[id := p'], book := PayAll(burned, payments).book), id, p');
      }
    }
  }

  lemma BurnFollows(b: TokenBook, denom: string, from: string, amount: u128)
    requires KnownDenoms(b) && amount > 0 && BalanceOf(b, denom, from) >= amount
    ensures var m := Burn(b, denom, from, amount);
            && m.ok && BookFollows(b, m.book)
            && DenomSum(m.book, denom) == DenomSum(b, denom) - amount
            && forall other :: other != denom ==> DenomSum(m.book, other) == DenomSum(b, other)
  {
    BurnSum(b, denom, from, amount, denom);
    forall other | other != denom ensures DenomSum(Burn(b, denom, from, amount).book, other) == DenomSum(b, other) {
      BurnSum(b, denom, from, amount, other);
    }
  }

  /** Only the token book changes; existing LP denominations do not grow. */
  lemma BookKeepsOrder(d: DexState, book: TokenBook)
    requires OrderlyDex(d) && BookFollows(d.book, book)
    requires forall denom :: denom in d.book.tokens ==> DenomSum(book, denom) <= DenomSum(d.book, denom)
    ensures OrderlyDex(d.(book := book))
  {
  }

  lemma CreateLpFollows(b: TokenBook, lpDenom: string, pair: string, supply: u128)
    requires KnownDenoms(b) && lpDenom !in b.tokens
    ensures var m := CreateLpToken(b, lpDenom, pair, supply);
            && m.ok && BookFollows(b, m.book) && lpDenom in m.book.tokens && DenomSum(m.book, lpDenom) == supply
            && forall other :: other != lpDenom ==> DenomSum(m.book, other) == DenomSum(b, other)
  {
    CreateLpSum(b, lpDenom, pair, supply, lpDenom);
    forall other | other != lpDenom ensures DenomSum(CreateLpToken(b, lpDenom, pair, supply).book, other) == DenomSum(b, other) {
      CreateLpSum(b, lpDenom, pair, supply, other);
    }
  }

  lemma TransferFollows(b: TokenBook, denom: string, from: string, to: string, amount: u128)
    requires KnownDenoms(b)
    ensures BookFollows(b, Transfer(b, denom, from, to, amount).book)
    ensures forall other :: DenomSum(Transfer(b, denom, from, to, amount).book, other) <= DenomSum(b, other)
  {
    TransferConserves(b, denom, from, to, amount, "");
    TransferKeepsDenoms(b, denom, from, to, amount);
    forall other ensures DenomSum(Transfer(b, denom, from, to, amount).book, other) <= DenomSum(b, other) {
      TransferConserves(b, denom, from, to, amount, other);
    }
  }

  lemma CreateStepIsOrderly(d: DexState, creator: string, tokenA: string, tokenB: string, reserveA: u128, reserveB: u128)
    requires OrderlyDex(d)
    ensures OrderlyDex(CreateSorted(d, creator, tokenA, tokenB, reserveA, reserveB).0)
  {
    var id, lpDenom := PairId(tokenA, tokenB), LpDenom(tokenA, tokenB);
    if id !in d.pools {
      var deposits := PayAll(d.book, [Payment(tokenA, creator, id, reserveA), Payment(tokenB, creator, id, reserveB)]);
      PaymentsFollow(d.book, [Payment(tokenA, creator, id, reserveA), Payment(tokenB, creator, id, reserveB)]);
      BookKeepsOrder(d, deposits.book);
      var lp := FloorRoot(Wrap(reserveA * reserveB));
      RootFits(Wrap(reserveA * reserveB));
      if deposits.ok && Wrap(reserveA * reserveB) != U128_MAX && lp > 0 && lpDenom !in deposits.book.tokens {
        CreateLpFollows(deposits.book, lpDenom, id, lp);
        var created := CreateLpToken(deposits.book, lpDenom, id, lp).book;
        TransferFollows(created, lpDenom, id, creator, lp);
        var paid := Transfer(created, lpDenom, id, creator, lp).book;
        BookKeepsOrder(d, paid);
        NewEntryIsOrderly(d, d.(book := paid), NewPool(d, tokenA, tokenB, reserveA, reserveB, lp));
      }
    }
  }

  lemma NewEntryIsOrderly(d: DexState, d1: DexState, p: Pool)
    requires OrderlyDex(d1) && d1 == d.(book := d1.book) && RatesOk(p) && p.pairId !in d.pools
    requires p.pairId == PairId(p.tokenA, p.tokenB) && p.lpDenom == LpDenom(p.tokenA, p.tokenB)
    requires p.lpDenom in d1.book.tokens && DenomSum(d1.book, p.lpDenom) <= p.totalLp
    ensures OrderlyDex(d1.(pools := d.pools[p.pairId := p]))
  {
  }

  lemma StepIsOrderly(d: DexState, e: DexEvent)
    requires OrderlyDex(d)
    ensures OrderlyDex(DexStep(d, e))
  {
    match e
    case CreateEvent(user, token1, token2, amount1, amount2) =>
      if StringLe(token1, token2) && token1 != token2 {
        CreateStepIsOrderly(d, user, token1, token2, amount1, amount2);
      } else {
        CreateStepIsOrderly(d, user, token2, token1, amount2, amount1);
      }
    case SwapEvent(id, user, tokenIn, amountIn, minOut) => SwapStepIsOrderly(d, id, user, tokenIn, amountIn, minOut);
    case AddEvent(id, user, a, b, minA, minB) => AddStepIsOrderly(d, id, user, a, b, minA, minB);
    case RemoveEvent(id, user, lp, minA, minB) => RemoveStepIsOrderly(d, id, user, lp, minA, minB);
  }

  ghost predicate IsDexRun(ds: seq<DexState>, es: seq<DexEvent>) {
    && |ds| == |es| + 1
    && forall i :: 0 <= i < |es| ==> ds[i + 1] == DexStep(ds[i], es[i])
  }

  /** In every run from an exchange without pools, whatever failed: names, rates, and LP balances within the LP supply. */
  lemma {:induction false} DexRunIsOrderly(ds: seq<DexState>, es: seq<DexEvent>, i: nat)
    requires IsDexRun(ds, es) && i < |ds|
    requires ds[0].pools == map[] && KnownDenoms(ds[0].book) && ds[0].protocolFeeRate <= ds[0].feeRate <= BASIS_POINTS
    ensures OrderlyDex(ds[i])
    ensures forall id :: id in ds[i].pools ==> DenomSum(ds[i].book, ds[i].pools[id].lpDenom) <= ds[i].pools[id].totalLp
  {
    if i > 0 {
      DexRunIsOrderly(ds, es, i - 1);
      StepIsOrderly(ds[i - 1], es[i - 1]);
    }
    forall id | id in ds[i].pools ensures DenomSum(ds[i].book, ds[i].pools[id].lpDenom) <= ds[i].pools[id].totalLp {
      assert OrderlyEntry(ds[i], id);
    }
  }

  // ---------------------------------------------------------------- the LP bound

  ghost predicate BoundedDex(d: DexState) {
    forall id :: id in d.pools ==> Sound(d.pools[id])
  }

  /** A swap is refused, or of an amount that keeps the product of whatever reserves; other events carry no condition. */
  predicate IsSafe(d: DexState, e: DexEvent) {
    e.SwapEvent? && e.pairId in d.pools ==>
      var p := d.pools[e.pairId];
      (e.tokenIn == p.tokenA || e.tokenIn == p.tokenB) && Swap(p, e.tokenIn == p.tokenA, e.amountIn, e.minOut).1.Ok? ==>
        SafeAmount(p, e.amountIn)
  }

  lemma NewPoolIsBounded(d: DexState, creator: string, tokenA: string, tokenB: string, reserveA: u128, reserveB: u128, id: string)
    requires OrderlyDex(d) && BoundedDex(d) && id in CreateSorted(d, creator, tokenA, tokenB, reserveA, reserveB).0.pools
    ensures Sound(CreateSorted(d, creator, tokenA, tokenB, reserveA, reserveB).0.pools[id])
  {
    if id !in d.pools {
      var p := CreateSorted(d, creator, tokenA, tokenB, reserveA, reserveB).0.pools[id];
      NewPoolIsSound(p);
    }
  }

  lemma SwapIsBounded(d: DexState, e: DexEvent, id: string)
    requires OrderlyDex(d) && BoundedDex(d) && e.SwapEvent? && IsSafe(d, e) && id in DexStep(d, e).pools
    ensures Sound(DexStep(d, e).pools[id])
  {
    if e.pairId in d.pools {
      SwapKeepsProduct(d.pools[e.pairId], e.tokenIn == d.pools[e.pairId].tokenA, e.amountIn, e.minOut);
    }
  }

  lemma RemoveIsBounded(d: DexState, e: DexEvent, id: string)
    requires OrderlyDex(d) && BoundedDex(d) && e.RemoveEvent? && id in DexStep(d, e).pools
    ensures Sound(DexStep(d, e).pools[id])
  {
    if e.pairId in d.pools {
      var p := d.pools[e.pairId];
      assert OrderlyEntry(d, e.pairId);
      HolderBound(d.book, p.lpDenom, e.user);
      RemoveKeepsSound(p, BalanceOf(d.book, p.lpDenom, e.user), e.lpTokens, e.minA, e.minB);
    }
  }

  lemma AddIsBounded(d: DexState, e: DexEvent, id: string)
    requires OrderlyDex(d) && BoundedDex(d) && e.AddEvent? && id in DexStep(d, e).pools
    ensures Sound(DexStep(d, e).pools[id])
  {
    if e.pairId in d.pools {
      AddKeepsSound(d.pools[e.pairId], e.desiredA, e.desiredB, e.minA, e.minB);
    }
  }

  /** What an event makes of a pool, whether it was there before or not. */
  lemma StepIsBounded(d: DexState, e: DexEvent, id: string)
    requires OrderlyDex(d) && BoundedDex(d) && IsSafe(d, e) && id in DexStep(d, e).pools
    ensures Sound(DexStep(d, e).pools[id])
  {
    match e
    case CreateEvent(user, token1, token2, amount1, amount2) =>
      if StringLe(token1, token2) && token1 != token2 {
        NewPoolIsBounded(d, user, token1, token2, amount1, amount2, id);
      } else {
        NewPoolIsBounded(d, user, token2, token1, amount2, amount1, id);
      }
    case SwapEvent(_, _, _, _, _) => SwapIsBounded(d, e, id);
    case AddEvent(_, _, _, _, _, _) => AddIsBounded(d, e, id);
    case RemoveEvent(_, _, _, _, _) => RemoveIsBounded(d, e, id);
  }

  /** Every pool reachable by safe swaps and any other operations keeps the LP bound, whatever failed. */
  lemma {:induction false} DexRunIsSound(ds: seq<DexState>, es: seq<DexEvent>, i: nat)
    requires IsDexRun(ds, es) && i < |ds| && forall k :: 0 <= k < i ==> IsSafe(ds[k], es[k])
    requires ds[0].pools == map[] && KnownDenoms(ds[0].book) && ds[0].protocolFeeRate <= ds[0].feeRate <= BASIS_POINTS
    ensures BoundedDex(ds[i])
    ensures forall id :: id in ds[i].pools ==>
              ds[i].pools[id].totalLp * ds[i].pools[id].totalLp <= ds[i].pools[id].reserveA * ds[i].pools[id].reserveB
  {
    if i > 0 {
      DexRunIsSound(ds, es, i - 1);
      DexRunIsOrderly(ds, es, i - 1);
      forall id | id in ds[i].pools ensures Sound(ds[i].pools[id]) {
        StepIsBounded(ds[i - 1], es[i - 1], id);
      }
    }
  }
}
