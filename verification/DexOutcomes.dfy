/**
  When the exchange's operations go through as a whole: who has to hold what, which pool a creation makes
  of which tokens, and what minting and burning record.
 */
module DexOutcomes {
  import opened Ordering
  import opened PoolMath
  import opened LiquidityPool
  import opened PoolSafety
  import opened TokenLedger
  import opened DexPayments
  import opened Dex
  import opened DexSafety
  import opened DexBacking
  import opened DexBackedRuns

  // ---------------------------------------------------------------- the token ledger

  /** A transfer goes through if it is positive, covered, and fits what the receiver has; otherwise nothing moves, but for a lost debit. */
  lemma TransferIsAcceptedExactly(b: TokenBook, denom: string, from: string, to: string, amount: u128)
    ensures var m := Transfer(b, denom, from, to, amount);
            var covered := 0 < amount <= BalanceOf(b, denom, from) && denom in b.tokens;
            var fits := from == to || BalanceOf(b, denom, to) + amount <= U128_MAX;
            && (m.ok <==> covered && fits)
            && (!covered ==> m.book == b)
            && (covered && !fits ==> m.book == SetBalance(b, denom, from, BalanceOf(b, denom, from) - amount))
            && m.book.tokens == b.tokens
  {
  }

  predicate Mintable(info: TokenInfo, amount: u128) {
    info.totalSupply + amount <= U128_MAX && (info.maxSupply.Some? ==> info.totalSupply + amount <= info.maxSupply.value)
  }

  /** Minting respects the supply's limit, and raises the supply and one balance by the amount. */
  lemma MintIsAcceptedExactly(b: TokenBook, denom: string, to: string, amount: u128)
    ensures var m := Mint(b, denom, to, amount);
            && (m.ok <==> denom in b.tokens && Mintable(b.tokens[denom], amount) && BalanceOf(b, denom, to) + amount <= U128_MAX)
            && (m.ok ==> denom in m.book.tokens && m.book.tokens[denom].totalSupply == b.tokens[denom].totalSupply + amount
                         && m.book.tokens[denom].maxSupply == b.tokens[denom].maxSupply)
            && (denom !in b.tokens || !Mintable(b.tokens[denom], amount) ==> m.book == b)
            && forall other :: other != denom ==>
                 (other in m.book.tokens <==> other in b.tokens) && (other in b.tokens ==> m.book.tokens[other] == b.tokens[other])
  {
  }

  /** Burning takes what is held, and no more than that off the recorded supply. */
  lemma BurnIsAcceptedExactly(b: TokenBook, denom: string, from: string, amount: u128)
    requires KnownDenoms(b)
    ensures var m := Burn(b, denom, from, amount);
            && (m.ok <==> 0 < amount <= BalanceOf(b, denom, from))
            && (!m.ok ==> m.book == b)
            && (m.ok ==> BalanceOf(m.book, denom, from) == BalanceOf(b, denom, from) - amount)
            && (m.ok ==> denom in b.tokens && denom in m.book.tokens && m.book.tokens[denom].maxSupply == b.tokens[denom].maxSupply)
            && (m.ok && amount <= b.tokens[denom].totalSupply ==> m.book.tokens[denom].totalSupply + amount == b.tokens[denom].totalSupply)
            && forall other :: other != denom ==>
                 (other in m.book.tokens <==> other in b.tokens) && (other in b.tokens ==> m.book.tokens[other] == b.tokens[other])
  {
  }

  /** The recorded supply is what is held. */
  ghost predicate SupplyIsHeld(b: TokenBook, denom: string) {
    denom in b.tokens && b.tokens[denom].totalSupply == DenomSum(b, denom)
  }

  /** Minting and burning that go through keep the recorded supply equal to what is held; a new LP token starts so. */
  lemma SupplyStaysHeld(b: TokenBook, denom: string, holder: string, amount: u128)
    requires KnownDenoms(b)
    ensures SupplyIsHeld(b, denom) && Mint(b, denom, holder, amount).ok ==> SupplyIsHeld(Mint(b, denom, holder, amount).book, denom)
    ensures SupplyIsHeld(b, denom) && Burn(b, denom, holder, amount).ok ==> SupplyIsHeld(Burn(b, denom, holder, amount).book, denom)
    ensures denom !in b.tokens ==> SupplyIsHeld(CreateLpToken(b, denom, holder, amount).book, denom)
  {
    MintSum(b, denom, holder, amount, denom);
    HolderBound(b, denom, holder);
    if Burn(b, denom, holder, amount).ok {
      BurnSum(b, denom, holder, amount, denom);
    }
    if denom !in b.tokens {
      CreateLpSum(b, denom, holder, amount, denom);
    }
  }

  // ---------------------------------------------------------------- creating a pool

  /** It does not matter in which order the two tokens are named, as long as each keeps its amount. */
  lemma PairIsSymmetric(d: DexState, creator: string, token1: string, token2: string, amount1: u128, amount2: u128)
    requires token1 != token2
    ensures CreatePair(d, creator, token1, token2, amount1, amount2) == CreatePair(d, creator, token2, token1, amount2, amount1)
  {
    StringOrder();
  }

  /** What the pool records of this token. */
  function Recorded(p: Pool, token: string): u128 {
    if token == p.tokenA then p.reserveA else p.reserveB
  }

  predicate IsUnused(p: Pool) {
    p.volumeA == p.volumeB == p.protocolFeesA == p.protocolFeesB == 0
  }

  predicate HasRatesOf(p: Pool, d: DexState) {
    p.feeRate == d.feeRate && p.lpFeeRate == d.lpFeeRate && p.protocolFeeRate == d.protocolFeeRate
  }

  predicate HasNames(p: Pool) {
    p.pairId == "pair/" + p.tokenA + "/" + p.tokenB && p.lpDenom == "lp/" + p.tokenA + "/" + p.tokenB
  }

  lemma SortedPoolIsAsAsked(d: DexState, creator: string, tokenA: string, tokenB: string, reserveA: u128, reserveB: u128)
    requires CreateSorted(d, creator, tokenA, tokenB, reserveA, reserveB).1.Ok?
    ensures var (d', r) := CreateSorted(d, creator, tokenA, tokenB, reserveA, reserveB);
            && r.value !in d.pools && r.value in d'.pools && d'.pools == d.pools[r.value := d'.pools[r.value]]
            && var p := d'.pools[r.value];
               && p.tokenA == tokenA && p.tokenB == tokenB && p.reserveA == reserveA && p.reserveB == reserveB
               && p.pairId == r.value && HasNames(p) && IsUnused(p) && HasRatesOf(p, d)
               && p.totalLp == FloorRoot(Wrap(reserveA * reserveB))
  {
    NamesAreSpelled(tokenA, tokenB);
  }

  lemma NamesAreSpelled(tokenA: string, tokenB: string)
    ensures PairId(tokenA, tokenB) == "pair/" + tokenA + "/" + tokenB && LpDenom(tokenA, tokenB) == "lp/" + tokenA + "/" + tokenB
  {
    assert "pair/" + (tokenA + "/" + tokenB) == "pair/" + tokenA + "/" + tokenB;
    assert "lp/" + (tokenA + "/" + tokenB) == "lp/" + tokenA + "/" + tokenB;
  }

  /** The pool for these tokens with these amounts, its tokens in order. */
  ghost predicate IsPoolFor(p: Pool, token1: string, token2: string, amount1: u128, amount2: u128) {
    && {p.tokenA, p.tokenB} == {token1, token2} && StringLe(p.tokenA, p.tokenB) && HasNames(p)
    && Recorded(p, token1) == amount1 && Recorded(p, token2) == amount2
    && (amount1 * amount2 <= U128_MAX ==> IsFloorRoot(amount1 * amount2, p.totalLp))
  }

  /** A created pool records each token's own amount, its tokens in order, and an LP supply of the root of the product. */
  lemma CreatedPoolIsAsAsked(d: DexState, creator: string, token1: string, token2: string, amount1: u128, amount2: u128)
    requires token1 != token2 && CreatePair(d, creator, token1, token2, amount1, amount2).1.Ok?
    ensures var (d', r) := CreatePair(d, creator, token1, token2, amount1, amount2);
            && r.value !in d.pools && r.value in d'.pools && d'.pools == d.pools[r.value := d'.pools[r.value]]
            && IsPoolFor(d'.pools[r.value], token1, token2, amount1, amount2) && d'.pools[r.value].pairId == r.value
            && IsUnused(d'.pools[r.value]) && HasRatesOf(d'.pools[r.value], d)
  {
    StringOrder();
    if StringLe(token1, token2) {
      SortedPoolIsAsAsked(d, creator, token1, token2, amount1, amount2);
    } else {
      SortedPoolIsAsAsked(d, creator, token2, token1, amount2, amount1);
      Commutes(amount1, amount2);
    }
  }

  lemma Commutes(x: nat, y: nat)
    ensures x * y == y * x
  {
  }

  predicate Creatable(d: DexState, creator: string, tokenA: string, tokenB: string, reserveA: u128, reserveB: u128) {
    && 0 < reserveA <= BalanceOf(d.book, tokenA, creator) && 0 < reserveB <= BalanceOf(d.book, tokenB, creator)
    && PairId(tokenA, tokenB) !in d.pools && LpDenom(tokenA, tokenB) !in d.book.tokens
  }

  predicate ProductFits(x: u128, y: u128) {
    x * y < U128_MAX
  }

  /** The LP supply of a new pool. */
  function RootOf(x: u128, y: u128): (lp: nat)
    ensures lp <= U128_MAX
  {
    RootFits(Wrap(x * y));
    FloorRoot(Wrap(x * y))
  }

  /** Everything a creation has to get past. */
  lemma CreationSteps(d: DexState, creator: string, tokenA: string, tokenB: string, reserveA: u128, reserveB: u128, lp: u128)
    requires ProductFits(reserveA, reserveB) && lp == RootOf(reserveA, reserveB)
    ensures var id, lpDenom := PairId(tokenA, tokenB), LpDenom(tokenA, tokenB);
            var deposits := PayAll(d.book, Deposits(creator, tokenA, tokenB, reserveA, reserveB));
            CreateSorted(d, creator, tokenA, tokenB, reserveA, reserveB).1.Ok?
            <==> id !in d.pools && deposits.ok && lp > 0 && lpDenom !in deposits.book.tokens
                 && Transfer(CreateLpToken(deposits.book, lpDenom, id, lp).book, lpDenom, id, creator, lp).ok
  {
  }

  lemma SortedCreationExactly(d: DexState, creator: string, tokenA: string, tokenB: string, reserveA: u128, reserveB: u128, lp: u128)
    requires KnownDenoms(d.book) && WithinWord(d.book) && !IsPairAccount(creator) && tokenA != tokenB
    requires ProductFits(reserveA, reserveB) && lp == RootOf(reserveA, reserveB) && (reserveA > 0 && reserveB > 0 ==> lp > 0)
    ensures CreateSorted(d, creator, tokenA, tokenB, reserveA, reserveB).1.Ok?
       <==> Creatable(d, creator, tokenA, tokenB, reserveA, reserveB)
  {
    var id, lpDenom := PairId(tokenA, tokenB), LpDenom(tokenA, tokenB);
    var payments := Deposits(creator, tokenA, tokenB, reserveA, reserveB);
    var deposits := PayAll(d.book, payments);
    CreationSteps(d, creator, tokenA, tokenB, reserveA, reserveB, lp);
    PairsArePairAccounts(tokenA, tokenB);
    PayBoth(d.book, payments[0], payments[1]);
    PaymentsKeepTotals(d.book, payments);
    if Creatable(d, creator, tokenA, tokenB, reserveA, reserveB) {
      NewTokenBooks(deposits.book, lpDenom, id, creator, lp);
    }
  }

  /** A person gets a pool if and only if both amounts are positive and held, and neither the pool nor its LP token exists. */
  lemma CreationIsAcceptedExactly(d: DexState, creator: string, tokenA: string, tokenB: string, reserveA: u128, reserveB: u128)
    requires KnownDenoms(d.book) && WithinWord(d.book) && !IsPairAccount(creator)
    requires StringLe(tokenA, tokenB) && tokenA != tokenB && ProductFits(reserveA, reserveB)
    ensures CreatePair(d, creator, tokenA, tokenB, reserveA, reserveB).1.Ok? <==> Creatable(d, creator, tokenA, tokenB, reserveA, reserveB)
  {
    if reserveA > 0 && reserveB > 0 {
      PositiveRoot(reserveA, reserveB);
      SortedCreationExactly(d, creator, tokenA, tokenB, reserveA, reserveB, RootOf(reserveA, reserveB));
    }
  }

  /** A creation with a zero amount, or for a pair that has a pool, takes nothing from anybody. */
  lemma RefusedCreation(d: DexState, creator: string, tokenA: string, tokenB: string, reserveA: u128, reserveB: u128)
    requires StringLe(tokenA, tokenB) && tokenA != tokenB
    requires reserveA == 0 || reserveB == 0 || PairId(tokenA, tokenB) in d.pools
    ensures CreatePair(d, creator, tokenA, tokenB, reserveA, reserveB).1.Err?
    ensures CreatePair(d, creator, tokenA, tokenB, reserveA, reserveB).0 == d
  {
  }

  lemma PositiveRoot(x: u128, y: u128)
    requires x > 0 && y > 0 && ProductFits(x, y)
    ensures RootOf(x, y) > 0
  {
    MulLe(1, x, 1, y);
  }

  // ---------------------------------------------------------------- swapping through the exchange

  /** The pool is one the exchange keeps, its records are covered, and the fee leaves something of the input. */
  predicate SwapReady(b: TokenBook, p: Pool, user: string, wallet: string, tokenIn: string, tokenOut: string,
                      amountIn: u128, fee: u128, out: u128)
  {
    && fee < amountIn && user != p.pairId && wallet != p.pairId && tokenIn != tokenOut
    && 0 < out <= BalanceOf(b, tokenOut, p.pairId)
  }

  /** The input's payments go through exactly when the user holds the whole input. */
  lemma InputGoesThrough(b: TokenBook, p: Pool, user: string, wallet: string, tokenIn: string, amountIn: u128, fee: u128)
    requires KnownDenoms(b) && WithinWord(b) && fee < amountIn && user != p.pairId
    ensures PayAll(b, InPayments(p, user, wallet, tokenIn, amountIn, fee)).ok <==> amountIn <= BalanceOf(b, tokenIn, user)
  {
    var first := Payment(tokenIn, user, p.pairId, amountIn - fee);
    var second := Payment(tokenIn, user, if wallet != "" then wallet else p.pairId, fee);
    PaymentGoesThrough(b, first);
    PaymentEffect(b, first);
    PaymentKeepsTotals(b, first);
    PayOne(b, first);
    if fee > 0 {
      PayOneMore(b, [first], second);
      PaymentGoesThrough(Pay(b, first).book, second);
    } else {
      assert InPayments(p, user, wallet, tokenIn, amountIn, fee) == [first];
    }
  }

  lemma PaymentsOfSwapGoThrough(d: DexState, p: Pool, user: string, tokenIn: string, tokenOut: string, amountIn: u128, fee: u128, out: u128)
    requires KnownDenoms(d.book) && WithinWord(d.book) && SwapReady(d.book, p, user, d.feeAddress, tokenIn, tokenOut, amountIn, fee, out)
    ensures PayAll(d.book, InPayments(p, user, d.feeAddress, tokenIn, amountIn, fee) + [Payment(tokenOut, p.pairId, user, out)]).ok
       <==> amountIn <= BalanceOf(d.book, tokenIn, user)
  {
    var ins, last := InPayments(p, user, d.feeAddress, tokenIn, amountIn, fee), Payment(tokenOut, p.pairId, user, out);
    InputGoesThrough(d.book, p, user, d.feeAddress, tokenIn, amountIn, fee);
    InputReceived(d, p, user, tokenIn, amountIn, fee);
    PaymentsKeepTotals(d.book, ins);
    PayOneMore(d.book, ins, last);
    PaymentGoesThrough(PayAll(d.book, ins).book, last);
  }

  /** A swap that the pool refuses changes nothing at all. */
  lemma RefusedSwap(d: DexState, id: string, user: string, tokenIn: string, amountIn: u128, minOut: u128)
    requires id in d.pools && (tokenIn == d.pools[id].tokenA || tokenIn == d.pools[id].tokenB)
    requires Swap(d.pools[id], tokenIn == d.pools[id].tokenA, amountIn, minOut).1.Err?
    ensures SwapTokens(d, id, user, tokenIn, amountIn, minOut).1.Err? && SwapTokens(d, id, user, tokenIn, amountIn, minOut).0 == d
  {
  }

  /** Once the pool has accepted, everything depends on the payments. */
  lemma AcceptedSwapPays(d: DexState, p: Pool, user: string, tokenIn: string, amountIn: u128, minOut: u128)
    requires p.pairId in d.pools && d.pools[p.pairId] == p && amountIn > 0 && (tokenIn == p.tokenA || tokenIn == p.tokenB)
    requires Swap(p, tokenIn == p.tokenA, amountIn, minOut).1.Ok?
    ensures var o := Swap(p, tokenIn == p.tokenA, amountIn, minOut).1.value;
            var r := SwapTokens(d, p.pairId, user, tokenIn, amountIn, minOut).1;
            && (r.Ok? <==> PayAll(d.book, SwapPayments(p, user, d.feeAddress, tokenIn == p.tokenA, amountIn, o)).ok)
            && (r.Ok? ==> r.value == o.amountOut)
  {
    assert p.(pairId := p.pairId) == p;
  }

  /** What the pool gives out: something, no less than the minimum, no more than it records. */
  lemma QuoteIsWithin(p: Pool, aToB: bool, amountIn: u128, minOut: u128)
    requires Swap(p, aToB, amountIn, minOut).1.Ok?
    ensures var out := Swap(p, aToB, amountIn, minOut).1.value.amountOut;
            0 < out && minOut <= out && out <= if aToB then p.reserveB else p.reserveA
  {
  }

  lemma SwapPaymentsSplit(p: Pool, user: string, wallet: string, aToB: bool, amountIn: u128, o: SwapOutcome)
    ensures var tokenIn, tokenOut := if aToB then p.tokenA else p.tokenB, if aToB then p.tokenB else p.tokenA;
            SwapPayments(p, user, wallet, aToB, amountIn, o)
            == InPayments(p, user, wallet, tokenIn, amountIn, o.protocolFee) + [Payment(tokenOut, p.pairId, user, o.amountOut)]
  {
  }

  lemma AcceptedSwapGoesThrough(d: DexState, p: Pool, user: string, tokenIn: string, amountIn: u128, minOut: u128)
    requires BackedDex(d) && !IsPairAccount(user) && p.pairId in d.pools && d.pools[p.pairId] == p
    requires amountIn > 0 && (tokenIn == p.tokenA || tokenIn == p.tokenB) && Swap(p, tokenIn == p.tokenA, amountIn, minOut).1.Ok?
    ensures var o := Swap(p, tokenIn == p.tokenA, amountIn, minOut).1.value;
            PayAll(d.book, SwapPayments(p, user, d.feeAddress, tokenIn == p.tokenA, amountIn, o)).ok
            <==> amountIn <= BalanceOf(d.book, tokenIn, user)
  {
    var aToB := tokenIn == p.tokenA;
    var tokenOut := if aToB then p.tokenB else p.tokenA;
    var o := Swap(p, aToB, amountIn, minOut).1.value;
    assert OrderlyEntry(d, p.pairId) && BackedEntry(d, p.pairId);
    PairsArePairAccounts(p.tokenA, p.tokenB);
    AcceptedPool(p, aToB, amountIn, minOut);
    QuoteIsWithin(p, aToB, amountIn, minOut);
    PaymentsOfSwapGoThrough(d, p, user, tokenIn, tokenOut, amountIn, o.protocolFee, o.amountOut);
    SwapPaymentsSplit(p, user, d.feeAddress, aToB, amountIn, o);
  }

  /**
    In a backed exchange a person's swap goes through if and only if the pool accepts it and the person
    holds the whole input, fee included; then at least the minimum comes out.
   */
  lemma SwapGoesThroughExactly(d: DexState, id: string, user: string, tokenIn: string, amountIn: u128, minOut: u128)
    requires BackedDex(d) && !IsPairAccount(user) && id in d.pools
    requires tokenIn == d.pools[id].tokenA || tokenIn == d.pools[id].tokenB
    ensures var quote := Swap(d.pools[id], tokenIn == d.pools[id].tokenA, amountIn, minOut).1;
            var r := SwapTokens(d, id, user, tokenIn, amountIn, minOut).1;
            && (r.Ok? <==> quote.Ok? && amountIn <= BalanceOf(d.book, tokenIn, user))
            && (r.Ok? ==> r.value == quote.value.amountOut && r.value >= minOut)
  {
    var p, aToB := d.pools[id], tokenIn == d.pools[id].tokenA;
    if Swap(p, aToB, amountIn, minOut).1.Err? {
      RefusedSwap(d, id, user, tokenIn, amountIn, minOut);
    } else {
      assert OrderlyEntry(d, id);
      QuoteIsWithin(p, aToB, amountIn, minOut);
      AcceptedSwapPays(d, p, user, tokenIn, amountIn, minOut);
      AcceptedSwapGoesThrough(d, p, user, tokenIn, amountIn, minOut);
    }
  }
}
