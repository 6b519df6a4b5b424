/**
  Ledger backing: every pool account holds at least what its pool records, and the LP balances of every
  pool sum to its LP supply. Which steps keep that is decided by what the user holds before the step.
 */
module DexBacking {
  import opened Common
  import opened PoolMath
  import opened LiquidityPool
  import opened PoolSafety
  import opened TokenLedger
  import opened DexPayments
  import opened Dex
  import opened DexSafety

  /** Fees that stay with the pool because no fee wallet is set. */
  function FeesHeld(d: DexState, fees: u128): u128 {
    if d.feeAddress == "" then fees else 0
  }

  predicate Holds(d: DexState, id: string, token: string, reserve: u128, fees: u128) {
    BalanceOf(d.book, token, id) >= reserve + FeesHeld(d, fees)
  }

  ghost predicate LpMatches(b: TokenBook, lpDenom: string, totalLp: u128) {
    DenomSum(b, lpDenom) == totalLp && lpDenom in b.tokens && b.tokens[lpDenom] == TokenInfo(totalLp, None)
  }

  ghost predicate BackedEntry(d: DexState, id: string)
    requires id in d.pools
  {
    var p := d.pools[id];
    && p.tokenA != p.tokenB
    && Holds(d, id, p.tokenA, p.reserveA, p.protocolFeesA)
    && Holds(d, id, p.tokenB, p.reserveB, p.protocolFeesB)
    && LpMatches(d.book, p.lpDenom, p.totalLp)
  }

  ghost predicate AllBacked(d: DexState) {
    forall id :: id in d.pools ==> BackedEntry(d, id)
  }

  /** Orderly pools, all backed, in a ledger whose denominations fit the word. */
  ghost predicate BackedDex(d: DexState) {
    OrderlyDex(d) && WithinWord(d.book) && !IsPairAccount(d.feeAddress) && AllBacked(d)
  }

  predicate IsPairAccount(holder: string) {
    "pair/" <= holder
  }

  lemma PairsArePairAccounts(a: string, b: string)
    ensures IsPairAccount(PairId(a, b)) && LpDenom(a, b) != a && LpDenom(a, b) != b
  {
    assert PairId(a, b)[..5] == "pair/";
    assert |LpDenom(a, b)| > |a| && |LpDenom(a, b)| > |b|;
  }

  // ---------------------------------------------------------------- one pool changes

  /** No pool account other than `id` changes. */
  ghost predicate OthersKeep(b: TokenBook, b': TokenBook, id: string) {
    forall other, denom :: IsPairAccount(other) && other != id ==> BalanceOf(b', denom, other) == BalanceOf(b, denom, other)
  }

  /** No denomination other than `lpDenom` changes in total or in its token record. */
  ghost predicate SumsKeep(b: TokenBook, b': TokenBook, lpDenom: string) {
    && b'.tokens.Keys >= b.tokens.Keys
    && forall denom :: denom != lpDenom ==>
         && DenomSum(b', denom) == DenomSum(b, denom)
         && (denom in b.tokens ==> b'.tokens[denom] == b.tokens[denom])
  }

  /** With every other pool account and every other LP denomination untouched, it all depends on this pool. */
  lemma BackedIfThisOne(d: DexState, d': DexState, id: string)
    requires BackedDex(d) && id in d.pools && id in d'.pools
    requires d' == d.(pools := d.pools[id := d'.pools[id]], book := d'.book) && SameNames(d.pools[id], d'.pools[id])
    requires OthersKeep(d.book, d'.book, id) && SumsKeep(d.book, d'.book, d.pools[id].lpDenom)
    ensures AllBacked(d') <==> BackedEntry(d', id)
  {
    if BackedEntry(d', id) {
      forall other | other in d'.pools ensures BackedEntry(d', other) {
        if other != id {
          OtherStaysBacked(d, d', id, other);
        }
      }
    }
  }

  lemma OtherStaysBacked(d: DexState, d': DexState, id: string, other: string)
    requires BackedDex(d) && id in d.pools && other in d.pools && other != id
    requires other in d'.pools && d'.pools[other] == d.pools[other] && d'.feeAddress == d.feeAddress
    requires OthersKeep(d.book, d'.book, id) && SumsKeep(d.book, d'.book, d.pools[id].lpDenom)
    ensures BackedEntry(d', other)
  {
    assert BackedEntry(d, other) && OrderlyEntry(d, other) && OrderlyEntry(d, id);
    PairsArePairAccounts(d.pools[other].tokenA, d.pools[other].tokenB);
    if d.pools[other].lpDenom == d.pools[id].lpDenom {
      LpDenomsDiffer(d.pools[other].tokenA, d.pools[other].tokenB, d.pools[id].tokenA, d.pools[id].tokenB);
    }
  }

  /** The pieces of one pool's entry, put together. */
  lemma Assemble(d: DexState, d': DexState, p: Pool, p': Pool)
    requires BackedDex(d) && p.pairId in d.pools && p == d.pools[p.pairId] && p.tokenA != p.tokenB && SameNames(p, p')
    requires d' == d.(pools := d.pools[p.pairId := p'], book := d'.book)
    requires OthersKeep(d.book, d'.book, p.pairId) && SumsKeep(d.book, d'.book, p.lpDenom)
    requires LpMatches(d'.book, p.lpDenom, p'.totalLp)
    ensures AllBacked(d') <==>
              Holds(d', p.pairId, p.tokenA, p'.reserveA, p'.protocolFeesA) && Holds(d', p.pairId, p.tokenB, p'.reserveB, p'.protocolFeesB)
  {
    BackedIfThisOne(d, d', p.pairId);
  }

  /** Payments between persons, the fee wallet and one pool leave every other pool account alone, whatever goes through. */
  lemma OtherPairsUntouched(b: TokenBook, payments: seq<Payment>, id: string)
    requires forall i :: 0 <= i < |payments| ==>
               && (payments[i].from == id || !IsPairAccount(payments[i].from))
               && (payments[i].to == id || !IsPairAccount(payments[i].to))
    ensures OthersKeep(b, PayAll(b, payments).book, id)
  {
    forall other, denom | IsPairAccount(other) && other != id
      ensures BalanceOf(PayAll(b, payments).book, denom, other) == BalanceOf(b, denom, other)
    {
      StrangersKeep(b, payments, other);
    }
  }

  lemma TotalsKeepSums(b: TokenBook, b': TokenBook, lpDenom: string)
    requires SameTotals(b, b')
    ensures SumsKeep(b, b', lpDenom)
  {
  }

  // ---------------------------------------------------------------- swap

  /** What the user of a swap must hold for the pool to stay covered: the kept input, and the fee too if the pool keeps it. */
  function SwapNeeds(d: DexState, p: Pool, amountIn: u128): int {
    if d.feeAddress != "" then amountIn - ProtocolFee(p, amountIn) else amountIn
  }

  lemma KeptIsPositive(p: Pool, reserveIn: u128, reserveOut: u128, amountIn: u128, minOut: u128)
    requires RatesOk(p)
    ensures amountIn > 0 && Quote(p, reserveIn, reserveOut, amountIn, minOut).Ok? ==> ProtocolFee(p, amountIn) < amountIn
  {
    FeeOrder(p, amountIn);
    if amountIn > 0 && ProtocolFee(p, amountIn) == amountIn {
      WholeFee(p, amountIn);
      NothingForNothing(reserveOut, reserveIn);
    }
  }

  lemma NothingForNothing(reserveOut: nat, reserveIn: nat)
    ensures reserveIn > 0 ==> reserveOut * 0 / (reserveIn + 0) == 0
  {
  }

  lemma WholeFee(p: Pool, amountIn: u128)
    requires RatesOk(p) && amountIn > 0 && ProtocolFee(p, amountIn) == amountIn
    ensures TotalFee(p, amountIn) == amountIn
  {
    assert BASIS_POINTS * amountIn <= Wrap(amountIn * p.protocolFeeRate) <= p.protocolFeeRate * amountIn;
    CancelFactor(BASIS_POINTS, p.protocolFeeRate, amountIn);
  }

  /** The input side's payments: the kept amount, then the fee if there is one. */
  function InPayments(p: Pool, user: string, feeAddress: string, tokenIn: string, amountIn: u128, fee: u128): seq<Payment> {
    [Payment(tokenIn, user, p.pairId, WrapMinus(amountIn, fee))]
    + (if fee > 0 then [Payment(tokenIn, user, if feeAddress != "" then feeAddress else p.pairId, fee)] else [])
  }

  /** What reaches the pool on the input side. */
  function Received(d: DexState, have: int, amountIn: u128, fee: u128): int {
    if have < amountIn - fee then 0
    else if d.feeAddress != "" || have < amountIn then amountIn - fee
    else amountIn
  }

  lemma InputReceived(d: DexState, p: Pool, user: string, tokenIn: string, amountIn: u128, fee: u128)
    requires KnownDenoms(d.book) && WithinWord(d.book) && fee < amountIn && user != p.pairId && d.feeAddress != p.pairId
    ensures var m := PayAll(d.book, InPayments(p, user, d.feeAddress, tokenIn, amountIn, fee));
            && BalanceOf(m.book, tokenIn, p.pairId)
               == BalanceOf(d.book, tokenIn, p.pairId) + Received(d, BalanceOf(d.book, tokenIn, user), amountIn, fee)
            && forall token :: token != tokenIn ==> BalanceOf(m.book, token, p.pairId) == BalanceOf(d.book, token, p.pairId)
  {
    var first := Payment(tokenIn, user, p.pairId, amountIn - fee);
    var second := Payment(tokenIn, user, if d.feeAddress != "" then d.feeAddress else p.pairId, fee);
    PaymentGoesThrough(d.book, first);
    PaymentEffect(d.book, first);
    PaymentKeepsTotals(d.book, first);
    PayOne(d.book, first);
    if fee > 0 {
      PayOneMore(d.book, [first], second);
      if Pay(d.book, first).ok {
        PaymentGoesThrough(Pay(d.book, first).book, second);
        if second.to != user {
          PaymentEffect(Pay(d.book, first).book, second);
        }
      }
    } else {
      assert InPayments(p, user, d.feeAddress, tokenIn, amountIn, fee) == [first];
    }
  }

  /** Then the output leaves the pool, if everything before went through. */
  lemma OutputSent(d: DexState, p: Pool, user: string, tokenIn: string, tokenOut: string, amountIn: u128, fee: u128, out: u128)
    requires KnownDenoms(d.book) && WithinWord(d.book) && fee < amountIn && user != p.pairId && d.feeAddress != p.pairId
    requires tokenIn != tokenOut
    ensures var m := PayAll(d.book, InPayments(p, user, d.feeAddress, tokenIn, amountIn, fee) + [Payment(tokenOut, p.pairId, user, out)]);
            && BalanceOf(m.book, tokenIn, p.pairId)
               == BalanceOf(d.book, tokenIn, p.pairId) + Received(d, BalanceOf(d.book, tokenIn, user), amountIn, fee)
            && BalanceOf(m.book, tokenOut, p.pairId) >= BalanceOf(d.book, tokenOut, p.pairId) - out
  {
    var ins, last := InPayments(p, user, d.feeAddress, tokenIn, amountIn, fee), Payment(tokenOut, p.pairId, user, out);
    var before := PayAll(d.book, ins).book;
    InputReceived(d, p, user, tokenIn, amountIn, fee);
    PaymentsKeepTotals(d.book, ins);
    PayOneMore(d.book, ins, last);
    PaymentEffect(before, last);
  }

  /** Does the pool's recorded fee wrap? Only a pool that keeps its fees records them against its holdings. */
  predicate FeeRecordWraps(d: DexState, fees: u128, fee: u128) {
    d.feeAddress == "" && fees + fee > U128_MAX
  }

  /** The input side after an accepted swap: covered if the user holds what the swap needs. */
  lemma InputSide(d: DexState, d': DexState, id: string, tokenIn: string, reserve: u128, fees: u128, have: int, amountIn: u128, fee: u128)
    requires d'.feeAddress == d.feeAddress && 0 <= have && fee < amountIn && reserve + (amountIn - fee) <= U128_MAX
    requires Holds(d, id, tokenIn, reserve, fees)
    requires BalanceOf(d'.book, tokenIn, id) == BalanceOf(d.book, tokenIn, id) + Received(d, have, amountIn, fee)
    ensures var needs := if d.feeAddress != "" then amountIn - fee else amountIn;
            && (have >= needs ==> Holds(d', id, tokenIn, reserve + (amountIn - fee), Wrap(fees + fee)))
            && (BalanceOf(d.book, tokenIn, id) == reserve + FeesHeld(d, fees) ==>
                  (Holds(d', id, tokenIn, reserve + (amountIn - fee), Wrap(fees + fee))
                   <==> have >= needs || FeeRecordWraps(d, fees, fee)))
  {
    WrapsOnce(fees, fee);
  }

  lemma WrapsOnce(x: u128, y: u128)
    ensures Wrap(x + y) == if x + y <= U128_MAX then x + y else x + y - U128_SIZE
  {
  }

  /** The pool records nothing it does not hold. */
  predicate TightSide(d: DexState, p: Pool, aToB: bool) {
    if aToB then BalanceOf(d.book, p.tokenA, p.pairId) == p.reserveA + FeesHeld(d, p.protocolFeesA)
    else BalanceOf(d.book, p.tokenB, p.pairId) == p.reserveB + FeesHeld(d, p.protocolFeesB)
  }

  predicate SwapCovered(d: DexState, p: Pool, user: string, aToB: bool, amountIn: u128) {
    BalanceOf(d.book, if aToB then p.tokenA else p.tokenB, user) >= SwapNeeds(d, p, amountIn)
  }

  lemma SwapParties(p: Pool, user: string, feeAddress: string, aToB: bool, amountIn: u128, o: SwapOutcome)
    requires !IsPairAccount(user) && !IsPairAccount(feeAddress)
    ensures var payments := SwapPayments(p, user, feeAddress, aToB, amountIn, o);
            forall i :: 0 <= i < |payments| ==>
               && (payments[i].from == p.pairId || !IsPairAccount(payments[i].from))
               && (payments[i].to == p.pairId || !IsPairAccount(payments[i].to))
  {
  }

  /** The state after a swap that the pool accepted, whether or not the payments went through. */
  lemma AcceptedSwap(d: DexState, id: string, user: string, tokenIn: string, amountIn: u128, minOut: u128)
    requires id in d.pools && amountIn > 0 && (tokenIn == d.pools[id].tokenA || tokenIn == d.pools[id].tokenB)
    requires Swap(d.pools[id], tokenIn == d.pools[id].tokenA, amountIn, minOut).1.Ok?
    ensures var p, aToB := d.pools[id], tokenIn == d.pools[id].tokenA;
            var (p', r) := Swap(p, aToB, amountIn, minOut);
            SwapTokens(d, id, user, tokenIn, amountIn, minOut).0
            == d.(pools := d.pools[id := p'],
                  book := PayAll(d.book, SwapPayments(p.(pairId := id), user, d.feeAddress, aToB, amountIn, r.value)).book)
  {
  }

  /** What an accepted swap records. */
  lemma AcceptedPool(p: Pool, aToB: bool, amountIn: u128, minOut: u128)
    requires RatesOk(p) && Swap(p, aToB, amountIn, minOut).1.Ok?
    ensures var (p', r) := Swap(p, aToB, amountIn, minOut);
            var fee, out := ProtocolFee(p, amountIn), r.value.amountOut;
            && r.value.protocolFee == fee < amountIn && SameNames(p, p') && p'.totalLp == p.totalLp
            && (if aToB
                then p.reserveA + (amountIn - fee) <= U128_MAX && out <= p.reserveB
                     && p'.reserveA == p.reserveA + (amountIn - fee) && p'.reserveB == p.reserveB - out
                     && p'.protocolFeesA == Wrap(p.protocolFeesA + fee) && p'.protocolFeesB == p.protocolFeesB
                else p.reserveB + (amountIn - fee) <= U128_MAX && out <= p.reserveA
                     && p'.reserveB == p.reserveB + (amountIn - fee) && p'.reserveA == p.reserveA - out
                     && p'.protocolFeesB == Wrap(p.protocolFeesB + fee) && p'.protocolFeesA == p.protocolFeesA)
  {
    if aToB {
      KeptIsPositive(p, p.reserveA, p.reserveB, amountIn, minOut);
    } else {
      KeptIsPositive(p, p.reserveB, p.reserveA, amountIn, minOut);
    }
  }

  /** What the pool account holds after an accepted swap. */
  lemma SwapHoldings(d: DexState, id: string, user: string, tokenIn: string, amountIn: u128, minOut: u128)
    requires BackedDex(d) && !IsPairAccount(user) && id in d.pools
    requires tokenIn == d.pools[id].tokenA || tokenIn == d.pools[id].tokenB
    requires amountIn > 0 && Swap(d.pools[id], tokenIn == d.pools[id].tokenA, amountIn, minOut).1.Ok?
    ensures var p, aToB := d.pools[id], tokenIn == d.pools[id].tokenA;
            var (p', r) := Swap(p, aToB, amountIn, minOut);
            var d', tokenOut := SwapTokens(d, id, user, tokenIn, amountIn, minOut).0, if aToB then p.tokenB else p.tokenA;
            && d'.pools == d.pools[id := p'] && d'.feeAddress == d.feeAddress && SameTotals(d.book, d'.book) && WithinWord(d'.book)
            && BalanceOf(d'.book, tokenIn, id)
               == BalanceOf(d.book, tokenIn, id) + Received(d, BalanceOf(d.book, tokenIn, user), amountIn, ProtocolFee(p, amountIn))
            && BalanceOf(d'.book, tokenOut, id) >= BalanceOf(d.book, tokenOut, id) - r.value.amountOut
            && OthersKeep(d.book, d'.book, id)
  {
    var p, aToB := d.pools[id], tokenIn == d.pools[id].tokenA;
    var tokenOut := if aToB then p.tokenB else p.tokenA;
    assert OrderlyEntry(d, id) && BackedEntry(d, id);
    PairsArePairAccounts(p.tokenA, p.tokenB);
    AcceptedSwap(d, id, user, tokenIn, amountIn, minOut);
    AcceptedPool(p, aToB, amountIn, minOut);
    assert p.(pairId := id) == p;
    var fee, out := ProtocolFee(p, amountIn), Swap(p, aToB, amountIn, minOut).1.value.amountOut;
    OutputSent(d, p, user, tokenIn, tokenOut, amountIn, fee, out);
    var payments := SwapPayments(p, user, d.feeAddress, aToB, amountIn, SwapOutcome(out, fee));
    assert payments == InPayments(p, user, d.feeAddress, tokenIn, amountIn, fee) + [Payment(tokenOut, id, user, out)];
    PaymentsKeepTotals(d.book, payments);
    SwapParties(p, user, d.feeAddress, aToB, amountIn, SwapOutcome(out, fee));
    OtherPairsUntouched(d.book, payments, id);
  }

  /** The output side is always covered. */
  lemma OutputSide(d: DexState, d': DexState, id: string, tokenOut: string, reserve: u128, fees: u128, out: u128)
    requires d'.feeAddress == d.feeAddress && out <= reserve && Holds(d, id, tokenOut, reserve, fees)
    requires BalanceOf(d'.book, tokenOut, id) >= BalanceOf(d.book, tokenOut, id) - out
    ensures Holds(d', id, tokenOut, reserve - out, fees)
  {
  }

  /** Is the input side covered after this swap? */
  predicate InputHolds(d': DexState, p: Pool, p': Pool, aToB: bool) {
    if aToB then Holds(d', p.pairId, p.tokenA, p'.reserveA, p'.protocolFeesA)
    else Holds(d', p.pairId, p.tokenB, p'.reserveB, p'.protocolFeesB)
  }

  /** After an accepted swap it all depends on the input side. */
  lemma SwapDecides(d: DexState, id: string, user: string, tokenIn: string, amountIn: u128, minOut: u128)
    requires BackedDex(d) && !IsPairAccount(user) && id in d.pools
    requires tokenIn == d.pools[id].tokenA || tokenIn == d.pools[id].tokenB
    requires amountIn > 0 && Swap(d.pools[id], tokenIn == d.pools[id].tokenA, amountIn, minOut).1.Ok?
    ensures var p, aToB := d.pools[id], tokenIn == d.pools[id].tokenA;
            var d' := SwapTokens(d, id, user, tokenIn, amountIn, minOut).0;
            AllBacked(d') <==> InputHolds(d', p, Swap(p, aToB, amountIn, minOut).0, aToB)
  {
    var p, aToB := d.pools[id], tokenIn == d.pools[id].tokenA;
    var d' := SwapTokens(d, id, user, tokenIn, amountIn, minOut).0;
    var (p', r) := Swap(p, aToB, amountIn, minOut);
    assert OrderlyEntry(d, id) && BackedEntry(d, id);
    AcceptedPool(p, aToB, amountIn, minOut);
    SwapHoldings(d, id, user, tokenIn, amountIn, minOut);
    AcceptedSwap(d, id, user, tokenIn, amountIn, minOut);
    TotalsKeepSums(d.book, d'.book, p.lpDenom);
    if aToB {
      OutputSide(d, d', id, p.tokenB, p.reserveB, p.protocolFeesB, r.value.amountOut);
    } else {
      OutputSide(d, d', id, p.tokenA, p.reserveA, p.protocolFeesA, r.value.amountOut);
    }
    Assemble(d, d', p, p');
  }

  function FeesIn(p: Pool, aToB: bool): u128 {
    if aToB then p.protocolFeesA else p.protocolFeesB
  }

  lemma InputDecided(d: DexState, d': DexState, p: Pool, user: string, aToB: bool, amountIn: u128, minOut: u128)
    requires RatesOk(p) && amountIn > 0 && Swap(p, aToB, amountIn, minOut).1.Ok? && d'.feeAddress == d.feeAddress
    requires var tokenIn := if aToB then p.tokenA else p.tokenB;
             && BalanceOf(d'.book, tokenIn, p.pairId)
                == BalanceOf(d.book, tokenIn, p.pairId) + Received(d, BalanceOf(d.book, tokenIn, user), amountIn, ProtocolFee(p, amountIn))
             && Holds(d, p.pairId, tokenIn, if aToB then p.reserveA else p.reserveB, FeesIn(p, aToB))
    ensures var holds := InputHolds(d', p, Swap(p, aToB, amountIn, minOut).0, aToB);
            && (SwapCovered(d, p, user, aToB, amountIn) ==> holds)
            && (TightSide(d, p, aToB) ==>
                  (holds <==> SwapCovered(d, p, user, aToB, amountIn) || FeeRecordWraps(d, FeesIn(p, aToB), ProtocolFee(p, amountIn))))
  {
    AcceptedPool(p, aToB, amountIn, minOut);
    var tokenIn := if aToB then p.tokenA else p.tokenB;
    InputSide(d, d', p.pairId, tokenIn, if aToB then p.reserveA else p.reserveB, FeesIn(p, aToB),
              BalanceOf(d.book, tokenIn, user), amountIn, ProtocolFee(p, amountIn));
  }

  /**
    An accepted swap, in either direction: all pools stay backed if the user held what the swap needs. For
    a pool that records nothing it does not hold, they do so only then (or if the recorded fee wrapped).
   */
  lemma SwapBackedExactly(d: DexState, id: string, user: string, tokenIn: string, amountIn: u128, minOut: u128)
    requires BackedDex(d) && !IsPairAccount(user) && id in d.pools
    requires tokenIn == d.pools[id].tokenA || tokenIn == d.pools[id].tokenB
    requires amountIn > 0 && Swap(d.pools[id], tokenIn == d.pools[id].tokenA, amountIn, minOut).1.Ok?
    ensures var p, aToB := d.pools[id], tokenIn == d.pools[id].tokenA;
            var d' := SwapTokens(d, id, user, tokenIn, amountIn, minOut).0;
            && WithinWord(d'.book)
            && (SwapCovered(d, p, user, aToB, amountIn) ==> AllBacked(d'))
            && (TightSide(d, p, aToB) ==>
                  (AllBacked(d') <==>
                     SwapCovered(d, p, user, aToB, amountIn) || FeeRecordWraps(d, FeesIn(p, aToB), ProtocolFee(p, amountIn))))
  {
    var p, aToB := d.pools[id], tokenIn == d.pools[id].tokenA;
    var d' := SwapTokens(d, id, user, tokenIn, amountIn, minOut).0;
    assert OrderlyEntry(d, id) && BackedEntry(d, id);
    SwapDecides(d, id, user, tokenIn, amountIn, minOut);
    SwapHoldings(d, id, user, tokenIn, amountIn, minOut);
    InputDecided(d, d', p, user, aToB, amountIn, minOut);
  }

  // ---------------------------------------------------------------- deposits

  predicate DepositFits(p: Pool, o: AddOutcome) {
    p.reserveA + o.amountA <= U128_MAX && p.reserveB + o.amountB <= U128_MAX && p.totalLp + o.lpTokens <= U128_MAX
  }

  function Deposited(p: Pool, o: AddOutcome): Pool
    requires DepositFits(p, o)
  {
    p.(reserveA := p.reserveA + o.amountA, reserveB := p.reserveB + o.amountB, totalLp := p.totalLp + o.lpTokens)
  }

  predicate AddCovered(d: DexState, p: Pool, user: string, o: AddOutcome) {
    BalanceOf(d.book, p.tokenA, user) >= o.amountA && BalanceOf(d.book, p.tokenB, user) >= o.amountB
  }

  /** An accepted deposit takes something of both tokens: LP tokens are never minted for nothing. */
  lemma AcceptedDeposit(p: Pool, desiredA: u128, desiredB: u128, minA: u128, minB: u128)
    requires AddLiquidity(p, desiredA, desiredB, minA, minB).1.Ok?
    ensures var (p', r) := AddLiquidity(p, desiredA, desiredB, minA, minB);
            DepositFits(p, r.value) && p' == Deposited(p, r.value) && r.value.amountA > 0 && r.value.amountB > 0 && r.value.lpTokens > 0
  {
    AddShape(p, desiredA, desiredB, minA, minB);
    var o := AddLiquidity(p, desiredA, desiredB, minA, minB).1.value;
    MintedShare(p, o.amountA, o.amountB);
    PositiveFactor(o.lpTokens, p.reserveA, o.amountA, p.totalLp);
    PositiveFactor(o.lpTokens, p.reserveB, o.amountB, p.totalLp);
  }

  lemma PositiveFactor(x: nat, y: nat, a: nat, b: nat)
    requires x > 0 && y > 0 && x * y <= a * b
    ensures a > 0
  {
  }

  /** Two payments from one holder in different tokens: both go through, the first alone, or none. */
  lemma PayBoth(b: TokenBook, p: Payment, q: Payment)
    requires KnownDenoms(b) && WithinWord(b) && p.denom != q.denom && p.from == q.from && p.to == q.to && p.from != p.to
    ensures var m := PayAll(b, [p, q]);
            var first, second := 0 < p.amount <= BalanceOf(b, p.denom, p.from), 0 < q.amount <= BalanceOf(b, q.denom, q.from);
            && (m.ok <==> first && second)
            && BalanceOf(m.book, p.denom, p.to) == BalanceOf(b, p.denom, p.to) + (if first then p.amount else 0)
            && BalanceOf(m.book, q.denom, p.to) == BalanceOf(b, q.denom, p.to) + (if first && second then q.amount else 0)
            && BalanceOf(m.book, p.denom, p.from) == BalanceOf(b, p.denom, p.from) - (if first then p.amount else 0)
            && BalanceOf(m.book, q.denom, p.from) == BalanceOf(b, q.denom, p.from) - (if first && second then q.amount else 0)
  {
    PayTwo(b, p, q);
    PaymentGoesThrough(b, p);
    PaymentEffect(b, p);
    PaymentKeepsTotals(b, p);
    PaymentGoesThrough(Pay(b, p).book, q);
    PaymentEffect(Pay(b, p).book, q);
  }

  /** Minting LP tokens for a backed pool goes through, and raises only that denomination. */
  lemma MintGoesThrough(b: TokenBook, lpDenom: string, totalLp: u128, user: string, amount: u128)
    requires LpMatches(b, lpDenom, totalLp) && totalLp + amount <= U128_MAX
    ensures Mint(b, lpDenom, user, amount).ok
    ensures var b' := Mint(b, lpDenom, user, amount).book;
            && LpMatches(b', lpDenom, totalLp + amount) && SumsKeep(b, b', lpDenom)
            && forall d, h :: (d, h) != (lpDenom, user) ==> BalanceOf(b', d, h) == BalanceOf(b, d, h)
  {
    HolderBound(b, lpDenom, user);
    MintSum(b, lpDenom, user, amount, lpDenom);
    forall denom | denom != lpDenom ensures DenomSum(Mint(b, lpDenom, user, amount).book, denom) == DenomSum(b, denom) {
      MintSum(b, lpDenom, user, amount, denom);
    }
  }

  lemma SumsBound(b: TokenBook, b': TokenBook, lpDenom: string)
    requires WithinWord(b) && SumsKeep(b, b', lpDenom) && DenomSum(b', lpDenom) <= U128_MAX
    ensures WithinWord(b')
  {
    forall denom ensures DenomSum(b', denom) <= U128_MAX {
      if denom != lpDenom {
        assert DenomSum(b', denom) == DenomSum(b, denom);
      }
    }
  }

  lemma SumsCompose(b0: TokenBook, b1: TokenBook, b2: TokenBook, lpDenom: string)
    requires SameTotals(b0, b1) && SumsKeep(b1, b2, lpDenom)
    ensures SumsKeep(b0, b2, lpDenom)
  {
  }

  function AddPayments(p: Pool, user: string, o: AddOutcome): seq<Payment> {
    [Payment(p.tokenA, user, p.pairId, o.amountA), Payment(p.tokenB, user, p.pairId, o.amountB)]
  }

  /** An accepted deposit, spelled out. */
  lemma AcceptedAdd(d: DexState, id: string, user: string, desiredA: u128, desiredB: u128, minA: u128, minB: u128)
    requires id in d.pools && d.pools[id].pairId == id && AddLiquidity(d.pools[id], desiredA, desiredB, minA, minB).1.Ok?
    ensures var p := d.pools[id];
            var o := AddLiquidity(p, desiredA, desiredB, minA, minB).1.value;
            var paid := PayAll(d.book, AddPayments(p, user, o));
            var minted := Mint(paid.book, p.lpDenom, user, o.lpTokens);
            var (d', r) := AddToPool(d, id, user, desiredA, desiredB, minA, minB);
            && DepositFits(p, o) && (r.Ok? <==> paid.ok && minted.ok)
            && d' == d.(pools := d.pools[id := Deposited(p, o)], book := if paid.ok then minted.book else paid.book)
  {
    AddShape(d.pools[id], desiredA, desiredB, minA, minB);
  }

  /** Both amounts go through exactly when the user holds both, and then so does the mint. */
  lemma AddGoesThrough(d: DexState, p: Pool, user: string, o: AddOutcome)
    requires KnownDenoms(d.book) && WithinWord(d.book) && user != p.pairId && p.tokenA != p.tokenB
    requires LpMatches(d.book, p.lpDenom, p.totalLp) && DepositFits(p, o) && o.amountA > 0 && o.amountB > 0
    ensures var paid := PayAll(d.book, AddPayments(p, user, o));
            && (paid.ok <==> AddCovered(d, p, user, o)) && SameTotals(d.book, paid.book) && WithinWord(paid.book)
            && Mint(paid.book, p.lpDenom, user, o.lpTokens).ok
  {
    var a, b := Payment(p.tokenA, user, p.pairId, o.amountA), Payment(p.tokenB, user, p.pairId, o.amountB);
    PayBoth(d.book, a, b);
    PaymentsKeepTotals(d.book, [a, b]);
    MintGoesThrough(PayAll(d.book, [a, b]).book, p.lpDenom, p.totalLp, user, o.lpTokens);
  }

  /** The ledger after both amounts and the mint. */
  lemma AddBooks(d: DexState, p: Pool, user: string, o: AddOutcome)
    requires KnownDenoms(d.book) && WithinWord(d.book) && LpMatches(d.book, p.lpDenom, p.totalLp)
    requires !IsPairAccount(user) && IsPairAccount(p.pairId) && p.tokenA != p.tokenB && p.lpDenom != p.tokenA && p.lpDenom != p.tokenB
    requires DepositFits(p, o) && o.amountA > 0 && o.amountB > 0 && AddCovered(d, p, user, o)
    ensures var book := Mint(PayAll(d.book, AddPayments(p, user, o)).book, p.lpDenom, user, o.lpTokens).book;
            && BalanceOf(book, p.tokenA, p.pairId) == BalanceOf(d.book, p.tokenA, p.pairId) + o.amountA
            && BalanceOf(book, p.tokenB, p.pairId) == BalanceOf(d.book, p.tokenB, p.pairId) + o.amountB
            && OthersKeep(d.book, book, p.pairId) && SumsKeep(d.book, book, p.lpDenom)
            && LpMatches(book, p.lpDenom, p.totalLp + o.lpTokens) && WithinWord(book)
  {
    var a, b := Payment(p.tokenA, user, p.pairId, o.amountA), Payment(p.tokenB, user, p.pairId, o.amountB);
    var paid := PayAll(d.book, [a, b]).book;
    var book := Mint(paid, p.lpDenom, user, o.lpTokens).book;
    AddGoesThrough(d, p, user, o);
    PayBoth(d.book, a, b);
    OtherPairsUntouched(d.book, [a, b], p.pairId);
    MintGoesThrough(paid, p.lpDenom, p.totalLp, user, o.lpTokens);
    SumsCompose(d.book, paid, book, p.lpDenom);
    SumsBound(paid, book, p.lpDenom);
  }

  lemma CoveredAddIsBacked(d: DexState, d': DexState, p: Pool, user: string, o: AddOutcome)
    requires BackedDex(d) && !IsPairAccount(user) && p.pairId in d.pools && d.pools[p.pairId] == p
    requires DepositFits(p, o) && o.amountA > 0 && o.amountB > 0 && AddCovered(d, p, user, o)
    requires d' == d.(pools := d.pools[p.pairId := Deposited(p, o)],
                      book := Mint(PayAll(d.book, AddPayments(p, user, o)).book, p.lpDenom, user, o.lpTokens).book)
    ensures AllBacked(d') && WithinWord(d'.book)
  {
    assert OrderlyEntry(d, p.pairId) && BackedEntry(d, p.pairId);
    PairsArePairAccounts(p.tokenA, p.tokenB);
    AddBooks(d, p, user, o);
    Assemble(d, d', p, Deposited(p, o));
  }

  /** LP tokens recorded but not minted. */
  lemma UnpaidAddUnbacks(d: DexState, d': DexState, p: Pool, o: AddOutcome)
    requires BackedDex(d) && p.pairId in d.pools && d.pools[p.pairId] == p && DepositFits(p, o) && o.lpTokens > 0
    requires d'.pools == d.pools[p.pairId := Deposited(p, o)] && SameTotals(d.book, d'.book)
    ensures !AllBacked(d')
  {
    assert BackedEntry(d, p.pairId);
    assert !BackedEntry(d', p.pairId);
  }

  /** An accepted deposit leaves all pools backed if and only if the user held both amounts; only then does it go through. */
  lemma AddBackedExactly(d: DexState, id: string, user: string, desiredA: u128, desiredB: u128, minA: u128, minB: u128)
    requires BackedDex(d) && !IsPairAccount(user) && id in d.pools
    requires AddLiquidity(d.pools[id], desiredA, desiredB, minA, minB).1.Ok?
    ensures var p := d.pools[id];
            var o := AddLiquidity(p, desiredA, desiredB, minA, minB).1.value;
            var (d', r) := AddToPool(d, id, user, desiredA, desiredB, minA, minB);
            && WithinWord(d'.book)
            && (AllBacked(d') <==> AddCovered(d, p, user, o))
            && (r.Ok? <==> AddCovered(d, p, user, o))
  {
    var p := d.pools[id];
    var d' := AddToPool(d, id, user, desiredA, desiredB, minA, minB).0;
    assert OrderlyEntry(d, id) && BackedEntry(d, id);
    PairsArePairAccounts(p.tokenA, p.tokenB);
    AcceptedAdd(d, id, user, desiredA, desiredB, minA, minB);
    AcceptedDeposit(p, desiredA, desiredB, minA, minB);
    var o := AddLiquidity(p, desiredA, desiredB, minA, minB).1.value;
    AddGoesThrough(d, p, user, o);
    if AddCovered(d, p, user, o) {
      CoveredAddIsBacked(d, d', p, user, o);
    } else {
      UnpaidAddUnbacks(d, d', p, o);
    }
  }

  // ---------------------------------------------------------------- withdrawals

  /** A covered burn of a backed pool's LP tokens lowers only that denomination. */
  lemma BurnGoesThrough(b: TokenBook, lpDenom: string, totalLp: u128, user: string, amount: u128)
    requires LpMatches(b, lpDenom, totalLp) && 0 < amount <= BalanceOf(b, lpDenom, user)
    ensures amount <= totalLp && Burn(b, lpDenom, user, amount).ok
    ensures var b' := Burn(b, lpDenom, user, amount).book;
            && LpMatches(b', lpDenom, totalLp - amount) && SumsKeep(b, b', lpDenom)
            && forall d, h :: (d, h) != (lpDenom, user) ==> BalanceOf(b', d, h) == BalanceOf(b, d, h)
  {
    HolderBound(b, lpDenom, user);
    BurnSum(b, lpDenom, user, amount, lpDenom);
    forall denom | denom != lpDenom ensures DenomSum(Burn(b, lpDenom, user, amount).book, denom) == DenomSum(b, denom) {
      BurnSum(b, lpDenom, user, amount, denom);
    }
  }

  function RemovePayments(p: Pool, user: string, a: u128, b: u128): seq<Payment> {
    [Payment(p.tokenA, p.pairId, user, a), Payment(p.tokenB, p.pairId, user, b)]
  }

  predicate WithdrawalFits(p: Pool, lpTokens: u128, a: u128, b: u128) {
    lpTokens <= p.totalLp && a <= p.reserveA && b <= p.reserveB
  }

  function Withdrawn(p: Pool, lpTokens: u128, a: u128, b: u128): Pool
    requires WithdrawalFits(p, lpTokens, a, b)
  {
    p.(reserveA := p.reserveA - a, reserveB := p.reserveB - b, totalLp := p.totalLp - lpTokens)
  }

  /** An accepted withdrawal, spelled out. */
  lemma AcceptedRemove(d: DexState, id: string, user: string, lpTokens: u128, minA: u128, minB: u128)
    requires id in d.pools && d.pools[id].pairId == id
    requires BalanceOf(d.book, d.pools[id].lpDenom, user) <= d.pools[id].totalLp
    requires RemoveLiquidity(d.pools[id], BalanceOf(d.book, d.pools[id].lpDenom, user), lpTokens, minA, minB).1.Ok?
    ensures var p := d.pools[id];
            var (a, b) := RemoveLiquidity(p, BalanceOf(d.book, p.lpDenom, user), lpTokens, minA, minB).1.value;
            var m := PayAll(Burn(d.book, p.lpDenom, user, lpTokens).book, RemovePayments(p, user, a, b));
            var (d', r) := RemoveFromPool(d, id, user, lpTokens, minA, minB);
            && 0 < lpTokens <= BalanceOf(d.book, p.lpDenom, user) && WithdrawalFits(p, lpTokens, a, b)
            && d' == d.(book := m.book, pools := d.pools[id := Withdrawn(p, lpTokens, a, b)])
            && (r.Ok? <==> m.ok)
  {
    RemoveShape(d.pools[id], BalanceOf(d.book, d.pools[id].lpDenom, user), lpTokens, minA, minB);
    BurnSum(d.book, d.pools[id].lpDenom, user, lpTokens, "");
  }

  lemma BurnBooks(d: DexState, p: Pool, user: string, lpTokens: u128)
    requires KnownDenoms(d.book) && WithinWord(d.book) && LpMatches(d.book, p.lpDenom, p.totalLp)
    requires !IsPairAccount(user) && IsPairAccount(p.pairId) && 0 < lpTokens <= BalanceOf(d.book, p.lpDenom, user)
    ensures var burned := Burn(d.book, p.lpDenom, user, lpTokens).book;
            && lpTokens <= p.totalLp && SumsKeep(d.book, burned, p.lpDenom) && LpMatches(burned, p.lpDenom, p.totalLp - lpTokens)
            && KnownDenoms(burned) && WithinWord(burned) && OthersKeep(d.book, burned, p.pairId)
            && (forall denom, h :: denom != p.lpDenom ==> BalanceOf(burned, denom, h) == BalanceOf(d.book, denom, h))
  {
    var burned := Burn(d.book, p.lpDenom, user, lpTokens).book;
    BurnGoesThrough(d.book, p.lpDenom, p.totalLp, user, lpTokens);
    BurnSum(d.book, p.lpDenom, user, lpTokens, p.lpDenom);
    SumsBound(d.book, burned, p.lpDenom);
  }

  /** Both shares are paid from a covered pool unless one is zero. */
  lemma SharesPaid(burned: TokenBook, p: Pool, user: string, a: u128, b: u128)
    requires KnownDenoms(burned) && WithinWord(burned) && !IsPairAccount(user) && IsPairAccount(p.pairId) && p.tokenA != p.tokenB
    requires BalanceOf(burned, p.tokenA, p.pairId) >= a && BalanceOf(burned, p.tokenB, p.pairId) >= b
    ensures var m := PayAll(burned, RemovePayments(p, user, a, b));
            && (m.ok <==> a > 0 && b > 0)
            && BalanceOf(m.book, p.tokenA, p.pairId) >= BalanceOf(burned, p.tokenA, p.pairId) - a
            && BalanceOf(m.book, p.tokenB, p.pairId) >= BalanceOf(burned, p.tokenB, p.pairId) - b
            && OthersKeep(burned, m.book, p.pairId) && SameTotals(burned, m.book) && WithinWord(m.book)
  {
    var payA, payB := Payment(p.tokenA, p.pairId, user, a), Payment(p.tokenB, p.pairId, user, b);
    PayBoth(burned, payA, payB);
    PaymentsKeepTotals(burned, [payA, payB]);
    OtherPairsUntouched(burned, [payA, payB], p.pairId);
  }

  /** The ledger after the burn and whichever share went through. */
  lemma RemoveBooks(d: DexState, p: Pool, user: string, lpTokens: u128, a: u128, b: u128)
    requires KnownDenoms(d.book) && WithinWord(d.book) && LpMatches(d.book, p.lpDenom, p.totalLp)
    requires !IsPairAccount(user) && IsPairAccount(p.pairId) && p.tokenA != p.tokenB && p.lpDenom != p.tokenA && p.lpDenom != p.tokenB
    requires 0 < lpTokens <= BalanceOf(d.book, p.lpDenom, user) && WithdrawalFits(p, lpTokens, a, b)
    requires BalanceOf(d.book, p.tokenA, p.pairId) >= a && BalanceOf(d.book, p.tokenB, p.pairId) >= b
    ensures var m := PayAll(Burn(d.book, p.lpDenom, user, lpTokens).book, RemovePayments(p, user, a, b));
            && (m.ok <==> a > 0 && b > 0)
            && BalanceOf(m.book, p.tokenA, p.pairId) >= BalanceOf(d.book, p.tokenA, p.pairId) - a
            && BalanceOf(m.book, p.tokenB, p.pairId) >= BalanceOf(d.book, p.tokenB, p.pairId) - b
            && OthersKeep(d.book, m.book, p.pairId) && SumsKeep(d.book, m.book, p.lpDenom)
            && LpMatches(m.book, p.lpDenom, p.totalLp - lpTokens) && WithinWord(m.book)
  {
    var burned := Burn(d.book, p.lpDenom, user, lpTokens).book;
    BurnBooks(d, p, user, lpTokens);
    SharesPaid(burned, p, user, a, b);
    ThenTotals(d.book, burned, PayAll(burned, RemovePayments(p, user, a, b)).book, p.lpDenom, p.totalLp - lpTokens);
  }

  lemma ThenTotals(b0: TokenBook, b1: TokenBook, b2: TokenBook, lpDenom: string, totalLp: u128)
    requires SumsKeep(b0, b1, lpDenom) && SameTotals(b1, b2) && LpMatches(b1, lpDenom, totalLp)
    ensures SumsKeep(b0, b2, lpDenom) && LpMatches(b2, lpDenom, totalLp)
  {
  }

  /** A withdrawal that passed the checks never leaves a pool uncovered, and pays exactly when both shares are positive. */
  lemma RemoveNeverUnbacks(d: DexState, id: string, user: string, lpTokens: u128, minA: u128, minB: u128)
    requires BackedDex(d) && !IsPairAccount(user) && id in d.pools
    requires RemoveLiquidity(d.pools[id], BalanceOf(d.book, d.pools[id].lpDenom, user), lpTokens, minA, minB).1.Ok?
    ensures var shares := RemoveLiquidity(d.pools[id], BalanceOf(d.book, d.pools[id].lpDenom, user), lpTokens, minA, minB).1.value;
            var (d', r) := RemoveFromPool(d, id, user, lpTokens, minA, minB);
            && AllBacked(d') && WithinWord(d'.book)
            && (r.Ok? <==> shares.0 > 0 && shares.1 > 0)
  {
    var p := d.pools[id];
    assert OrderlyEntry(d, id) && BackedEntry(d, id);
    PairsArePairAccounts(p.tokenA, p.tokenB);
    HolderBound(d.book, p.lpDenom, user);
    AcceptedRemove(d, id, user, lpTokens, minA, minB);
    var (a, b) := RemoveLiquidity(p, BalanceOf(d.book, p.lpDenom, user), lpTokens, minA, minB).1.value;
    RemoveBooks(d, p, user, lpTokens, a, b);
    Assemble(d, RemoveFromPool(d, id, user, lpTokens, minA, minB).0, p, Withdrawn(p, lpTokens, a, b));
  }
}
