/**
  Backing over whole runs of the exchange: creations and withdrawals never endanger it, and swaps and
  deposits keep it as long as the user holds beforehand what they take.
 */
module DexBackedRuns {
  import opened PoolMath
  import opened LiquidityPool
  import opened PoolSafety
  import opened TokenLedger
  import opened DexPayments
  import opened Dex
  import opened DexSafety
  import opened DexBacking

  // ---------------------------------------------------------------- creation

  /** A new LP token goes to its creator, and no other denomination changes. */
  lemma NewTokenBooks(b: TokenBook, lpDenom: string, id: string, creator: string, lp: u128)
    requires KnownDenoms(b) && WithinWord(b) && lpDenom !in b.tokens && creator != id && lp > 0
    ensures var created := CreateLpToken(b, lpDenom, id, lp).book;
            var m := Transfer(created, lpDenom, id, creator, lp);
            && m.ok && LpMatches(m.book, lpDenom, lp) && SumsKeep(b, m.book, lpDenom) && WithinWord(m.book)
            && forall d, h :: d != lpDenom ==> BalanceOf(m.book, d, h) == BalanceOf(b, d, h)
  {
    var created := CreateLpToken(b, lpDenom, id, lp).book;
    CreateLpSum(b, lpDenom, id, lp, lpDenom);
    forall denom | denom != lpDenom ensures DenomSum(created, denom) == DenomSum(b, denom) {
      CreateLpSum(b, lpDenom, id, lp, denom);
    }
    assert SumsKeep(b, created, lpDenom);
    SumsBound(b, created, lpDenom);
    PaymentGoesThrough(created, Payment(lpDenom, id, creator, lp));
    PaymentEffect(created, Payment(lpDenom, id, creator, lp));
    PaymentKeepsTotals(created, Payment(lpDenom, id, creator, lp));
  }

  function Deposits(creator: string, tokenA: string, tokenB: string, reserveA: u128, reserveB: u128): seq<Payment> {
    [Payment(tokenA, creator, PairId(tokenA, tokenB), reserveA), Payment(tokenB, creator, PairId(tokenA, tokenB), reserveB)]
  }

  /** A creation either leaves the pools alone, or goes all the way. */
  lemma CreateCases(d: DexState, creator: string, tokenA: string, tokenB: string, reserveA: u128, reserveB: u128)
    requires KnownDenoms(d.book) && WithinWord(d.book) && !IsPairAccount(creator)
    ensures var id, lpDenom := PairId(tokenA, tokenB), LpDenom(tokenA, tokenB);
            var deposits := PayAll(d.book, Deposits(creator, tokenA, tokenB, reserveA, reserveB));
            var (d', r) := CreateSorted(d, creator, tokenA, tokenB, reserveA, reserveB);
            && (r.Err? ==> d' == d || (id !in d.pools && d' == d.(book := deposits.book)))
            && (r.Ok? ==>
                  && id !in d.pools && deposits.ok && lpDenom !in deposits.book.tokens && id in d'.pools
                  && var lp := d'.pools[id].totalLp;
                     && lp > 0 && d'.pools == d.pools[id := NewPool(d, tokenA, tokenB, reserveA, reserveB, lp)]
                     && d' == d.(pools := d'.pools, book := Transfer(CreateLpToken(deposits.book, lpDenom, id, lp).book, lpDenom, id, creator, lp).book))
  {
    var id, lpDenom := PairId(tokenA, tokenB), LpDenom(tokenA, tokenB);
    var deposits := PayAll(d.book, Deposits(creator, tokenA, tokenB, reserveA, reserveB));
    var lp := FloorRoot(Wrap(reserveA * reserveB));
    RootFits(Wrap(reserveA * reserveB));
    PairsArePairAccounts(tokenA, tokenB);
    PaymentsKeepTotals(d.book, Deposits(creator, tokenA, tokenB, reserveA, reserveB));
    if lp > 0 && lpDenom !in deposits.book.tokens {
      NewTokenBooks(deposits.book, lpDenom, id, creator, lp);
    }
  }

  /** A pool is as backed as before beside a new pool, or beside deposits into an account that has no pool. */
  lemma StaysBackedBeside(d: DexState, d': DexState, deposits: TokenBook, id: string, lpDenom: string, other: string)
    requires BackedDex(d) && other in d.pools && id !in d.pools && d'.feeAddress == d.feeAddress
    requires other in d'.pools && d'.pools[other] == d.pools[other] && lpDenom !in d.book.tokens
    requires OthersKeep(d.book, deposits, id) && SumsKeep(d.book, d'.book, lpDenom)
    requires forall denom, holder :: denom != lpDenom ==> BalanceOf(d'.book, denom, holder) == BalanceOf(deposits, denom, holder)
    ensures BackedEntry(d', other)
  {
    var p := d.pools[other];
    assert BackedEntry(d, other) && OrderlyEntry(d, other);
    PairsArePairAccounts(p.tokenA, p.tokenB);
    UnknownDenom(d.book, lpDenom, other);
  }

  lemma UnknownDenom(b: TokenBook, denom: string, holder: string)
    requires KnownDenoms(b) && denom !in b.tokens
    ensures BalanceOf(b, denom, holder) == 0
  {
  }

  /** Deposits into an account without a pool leave every pool backed. */
  lemma DepositsKeepBacked(d: DexState, creator: string, tokenA: string, tokenB: string, reserveA: u128, reserveB: u128)
    requires BackedDex(d) && !IsPairAccount(creator) && PairId(tokenA, tokenB) !in d.pools
    ensures var d' := d.(book := PayAll(d.book, Deposits(creator, tokenA, tokenB, reserveA, reserveB)).book); AllBacked(d') && WithinWord(d'.book)
  {
    var id, payments := PairId(tokenA, tokenB), Deposits(creator, tokenA, tokenB, reserveA, reserveB);
    var d' := d.(book := PayAll(d.book, payments).book);
    PaymentsKeepTotals(d.book, payments);
    PairsArePairAccounts(tokenA, tokenB);
    OtherPairsUntouched(d.book, payments, id);
    forall other | other in d'.pools ensures BackedEntry(d', other) {
      assert BackedEntry(d, other) && OrderlyEntry(d, other);
      PairsArePairAccounts(d.pools[other].tokenA, d.pools[other].tokenB);
    }
  }

  /** The entry of a pool that was just created. */
  lemma NewPoolIsBacked(d: DexState, d': DexState, creator: string, tokenA: string, tokenB: string, reserveA: u128, reserveB: u128, lp: u128)
    requires BackedDex(d) && !IsPairAccount(creator) && tokenA != tokenB && lp > 0 && PairId(tokenA, tokenB) !in d.pools
    requires PayAll(d.book, Deposits(creator, tokenA, tokenB, reserveA, reserveB)).ok
    requires LpDenom(tokenA, tokenB) !in d.book.tokens
    requires var id, lpDenom := PairId(tokenA, tokenB), LpDenom(tokenA, tokenB);
             var deposits := PayAll(d.book, Deposits(creator, tokenA, tokenB, reserveA, reserveB)).book;
             d' == d.(pools := d.pools[id := NewPool(d, tokenA, tokenB, reserveA, reserveB, lp)],
                      book := Transfer(CreateLpToken(deposits, lpDenom, id, lp).book, lpDenom, id, creator, lp).book)
    ensures AllBacked(d') && WithinWord(d'.book)
  {
    var id, lpDenom := PairId(tokenA, tokenB), LpDenom(tokenA, tokenB);
    var payments := Deposits(creator, tokenA, tokenB, reserveA, reserveB);
    var deposits := PayAll(d.book, payments).book;
    PairsArePairAccounts(tokenA, tokenB);
    PaymentsKeepTotals(d.book, payments);
    OtherPairsUntouched(d.book, payments, id);
    PayBoth(d.book, payments[0], payments[1]);
    NewTokenBooks(deposits, lpDenom, id, creator, lp);
    SumsCompose(d.book, deposits, d'.book, lpDenom);
    forall other | other in d'.pools ensures BackedEntry(d', other) {
      if other != id {
        StaysBackedBeside(d, d', deposits, id, lpDenom, other);
      }
    }
  }

  /** A creation never leaves a pool uncovered, whether or not it goes through. */
  lemma CreateNeverUnbacks(d: DexState, creator: string, tokenA: string, tokenB: string, reserveA: u128, reserveB: u128)
    requires BackedDex(d) && !IsPairAccount(creator) && tokenA != tokenB
    ensures var d' := CreateSorted(d, creator, tokenA, tokenB, reserveA, reserveB).0; AllBacked(d') && WithinWord(d'.book)
  {
    var id := PairId(tokenA, tokenB);
    var (d', r) := CreateSorted(d, creator, tokenA, tokenB, reserveA, reserveB);
    CreateCases(d, creator, tokenA, tokenB, reserveA, reserveB);
    PaymentsKeepTotals(d.book, Deposits(creator, tokenA, tokenB, reserveA, reserveB));
    if r.Ok? {
      NewPoolIsBacked(d, d', creator, tokenA, tokenB, reserveA, reserveB, d'.pools[id].totalLp);
    } else if d' != d {
      DepositsKeepBacked(d, creator, tokenA, tokenB, reserveA, reserveB);
    }
  }

  // ---------------------------------------------------------------- half a deposit

  /** A deposit that overflows halfway has raised the first reserve for nothing: a pool that records nothing it does not hold is then uncovered. */
  lemma HalfAddUnbacks(d: DexState, id: string, user: string, desiredA: u128, desiredB: u128, minA: u128, minB: u128)
    requires BackedDex(d) && id in d.pools && AddLiquidity(d.pools[id], desiredA, desiredB, minA, minB).1.Err?
    requires TightSide(d, d.pools[id], true)
    ensures AllBacked(AddToPool(d, id, user, desiredA, desiredB, minA, minB).0)
       <==> AddLiquidity(d.pools[id], desiredA, desiredB, minA, minB).0 == d.pools[id]
  {
    var p, p' := d.pools[id], AddLiquidity(d.pools[id], desiredA, desiredB, minA, minB).0;
    var d' := AddToPool(d, id, user, desiredA, desiredB, minA, minB).0;
    assert d' == d.(pools := d.pools[id := p']);
    assert OrderlyEntry(d, id) && BackedEntry(d, id);
    if p' == p {
      assert d' == d;
    } else {
      RefusedHalfway(p, desiredA, desiredB, minA, minB);
      assert !BackedEntry(d', id);
    }
  }

  lemma RefusedHalfway(p: Pool, desiredA: u128, desiredB: u128, minA: u128, minB: u128)
    requires AddLiquidity(p, desiredA, desiredB, minA, minB).1.Err? && AddLiquidity(p, desiredA, desiredB, minA, minB).0 != p
    ensures var p' := AddLiquidity(p, desiredA, desiredB, minA, minB).0;
            p'.tokenA == p.tokenA && p'.reserveA > p.reserveA && p'.protocolFeesA == p.protocolFeesA
  {
    var (a, b) := AddAmounts(p, desiredA, desiredB);
    MintedShare(p, a, b);
    PositiveFactor(LpFor(p, a, b), p.reserveA, a, p.totalLp);
  }

  // ---------------------------------------------------------------- runs

  /** The event's user is a person, not a pool, and its tokens are distinct. */
  predicate Proper(e: DexEvent) {
    !IsPairAccount(e.user) && (e.CreateEvent? ==> e.token1 != e.token2)
  }

  /** What a caller can look up beforehand: the user holds what an accepted swap or deposit takes, and no deposit overflows halfway. */
  predicate Affordable(d: DexState, e: DexEvent) {
    match e
    case CreateEvent(_, _, _, _, _) => true
    case RemoveEvent(_, _, _, _, _) => true
    case SwapEvent(id, user, tokenIn, amountIn, minOut) =>
      id in d.pools && (tokenIn == d.pools[id].tokenA || tokenIn == d.pools[id].tokenB)
      && Swap(d.pools[id], tokenIn == d.pools[id].tokenA, amountIn, minOut).1.Ok? ==>
        SwapCovered(d, d.pools[id], user, tokenIn == d.pools[id].tokenA, amountIn)
    case AddEvent(id, user, a, b, minA, minB) =>
      id in d.pools ==>
        var (p', r) := AddLiquidity(d.pools[id], a, b, minA, minB);
        if r.Ok? then AddCovered(d, d.pools[id], user, r.value) else p' == d.pools[id]
  }

  lemma SwapStepIsBacked(d: DexState, e: DexEvent)
    requires BackedDex(d) && Proper(e) && Affordable(d, e) && e.SwapEvent?
    ensures AllBacked(DexStep(d, e)) && WithinWord(DexStep(d, e).book)
  {
    var d' := DexStep(d, e);
    if d' != d {
      SwapBackedExactly(d, e.pairId, e.user, e.tokenIn, e.amountIn, e.minOut);
    }
  }

  lemma AddStepIsBacked(d: DexState, e: DexEvent)
    requires BackedDex(d) && Proper(e) && Affordable(d, e) && e.AddEvent?
    ensures AllBacked(DexStep(d, e)) && WithinWord(DexStep(d, e).book)
  {
    if e.pairId in d.pools {
      if AddLiquidity(d.pools[e.pairId], e.desiredA, e.desiredB, e.minA, e.minB).1.Ok? {
        AddBackedExactly(d, e.pairId, e.user, e.desiredA, e.desiredB, e.minA, e.minB);
      } else {
        assert DexStep(d, e) == d;
      }
    }
  }

  lemma RemoveStepIsBacked(d: DexState, e: DexEvent)
    requires BackedDex(d) && Proper(e) && e.RemoveEvent?
    ensures AllBacked(DexStep(d, e)) && WithinWord(DexStep(d, e).book)
  {
    if DexStep(d, e) != d {
      RemoveNeverUnbacks(d, e.pairId, e.user, e.lpTokens, e.minA, e.minB);
    }
  }

  lemma CreateStepIsBacked(d: DexState, e: DexEvent)
    requires BackedDex(d) && Proper(e) && e.CreateEvent?
    ensures AllBacked(DexStep(d, e)) && WithinWord(DexStep(d, e).book)
  {
    CreateNeverUnbacks(d, e.user, e.token1, e.token2, e.amount1, e.amount2);
    CreateNeverUnbacks(d, e.user, e.token2, e.token1, e.amount2, e.amount1);
  }

  lemma StepStaysCovered(d: DexState, e: DexEvent)
    requires BackedDex(d) && Proper(e) && Affordable(d, e)
    ensures AllBacked(DexStep(d, e)) && WithinWord(DexStep(d, e).book)
  {
    match e
    case CreateEvent(_, _, _, _, _) => CreateStepIsBacked(d, e);
    case SwapEvent(_, _, _, _, _) => SwapStepIsBacked(d, e);
    case AddEvent(_, _, _, _, _, _) => AddStepIsBacked(d, e);
    case RemoveEvent(_, _, _, _, _) => RemoveStepIsBacked(d, e);
  }

  /** A step keeps everything backed if its user can afford it, whatever it comes to. */
  lemma StepIsBacked(d: DexState, e: DexEvent)
    requires BackedDex(d) && Proper(e) && Affordable(d, e)
    ensures BackedDex(DexStep(d, e))
  {
    StepStaysCovered(d, e);
    StepIsOrderly(d, e);
  }

  ghost predicate AffordableStep(d: DexState, e: DexEvent, d': DexState) {
    Proper(e) && Affordable(d, e) && d' == DexStep(d, e)
  }

  ghost predicate IsAffordableRun(ds: seq<DexState>, es: seq<DexEvent>) {
    && |ds| == |es| + 1
    && forall i :: 0 <= i < |es| ==> AffordableStep(ds[i], es[i], ds[i + 1])
  }

  /**
    In every run whose swaps and deposits their users can afford: each pool account covers the recorded
    reserves, and the uncollected fees when no fee wallet is set; and the LP balances of each pool sum to
    its LP supply.
   */
  lemma {:induction false} DexRunIsBacked(ds: seq<DexState>, es: seq<DexEvent>, i: nat)
    requires IsAffordableRun(ds, es) && i < |ds|
    requires ds[0].pools == map[] && KnownDenoms(ds[0].book) && WithinWord(ds[0].book) && !IsPairAccount(ds[0].feeAddress)
    requires ds[0].protocolFeeRate <= ds[0].feeRate <= BASIS_POINTS
    ensures BackedDex(ds[i])
  {
    if i > 0 {
      DexRunIsBacked(ds, es, i - 1);
      assert AffordableStep(ds[i - 1], es[i - 1], ds[i]);
      StepIsBacked(ds[i - 1], es[i - 1]);
    }
  }
}
