/**
  What an attempt that fails leaves behind, whatever made it fail and whatever data the entry carried
  from earlier attempts: every balance, every nonce and the supply.
 */
module Timeouts {
  import opened Common
  import opened Sums
  import opened Ledger
  import opened LedgerSafety
  import opened TwoPhaseCommit

  /** An attempt that reaches the phases and does not get through them. */
  predicate Fails(c: Crypto, L: LedgerState, ctx: CrossTx, fp: FailurePoint)
    requires Placed(L, ctx)
  {
    ctx.key !in L.keys && (FailsEarly(c, L, ctx, fp) || fp != NoFailure)
  }

  ghost predicate Attemptable(c: Crypto, L: LedgerState, ctx: CrossTx) {
    && |L.shards| > 0 && HomePlaced(c, L.shards) && Ready(L, ctx) && QueuedOk(c, |L.shards|, ctx)
  }

  function SenderBalance(L: LedgerState, ctx: CrossTx): u64
    requires Placed(L, ctx)
  {
    BalanceOf(L.shards[ctx.fromShard], ctx.tx.from)
  }

  function SenderNonce(L: LedgerState, ctx: CrossTx): u64
    requires Placed(L, ctx)
  {
    NonceOf(L.shards[ctx.fromShard], ctx.tx.from)
  }

  function ReceiverBalance(L: LedgerState, ctx: CrossTx): u64
    requires Placed(L, ctx)
  {
    BalanceOf(L.shards[ctx.toShard], ctx.tx.to)
  }

  /** The sender's balance after a failed attempt: older data wins if nothing newer was captured. */
  function SenderAfter(c: Crypto, L: LedgerState, ctx: CrossTx, fp: FailurePoint): u64
    requires Placed(L, ctx)
  {
    if FailsEarly(c, L, ctx, fp) && ctx.rollback.Some? && ctx.tx.from in L.shards[ctx.fromShard].accounts
    then ctx.rollback.value.originalBalance else SenderBalance(L, ctx)
  }

  /** The receiver's balance after a failed attempt: the amount is taken back wherever it is covered. */
  function ReceiverAfter(c: Crypto, L: LedgerState, ctx: CrossTx, fp: FailurePoint): u64
    requires Placed(L, ctx)
  {
    var held := ReceiverBalance(L, ctx);
    if FailsEarly(c, L, ctx, fp) && ctx.rollback.None? then held
    else if !FailsEarly(c, L, ctx, fp) && fp == CommitAfterCredit then SaturatingAdd(held, ctx.tx.amount) - ctx.tx.amount
    else if held >= ctx.tx.amount then held - ctx.tx.amount
    else held
  }

  /** The sender's nonce after a failed attempt. A debit of nothing is not recognized as one, so its nonce stays used. */
  function NonceAfter(c: Crypto, L: LedgerState, ctx: CrossTx, fp: FailurePoint): u64
    requires Placed(L, ctx)
  {
    if FailsEarly(c, L, ctx, fp) then
      if ctx.rollback.None? || SenderBalance(L, ctx) == ctx.rollback.value.originalBalance then SenderNonce(L, ctx)
      else ctx.rollback.value.originalNonce
    else if ctx.tx.amount == 0 && (fp == CommitAfterDebit || fp == CommitAfterCredit) then WrapAdd(ctx.tx.nonce, 1)
    else SenderNonce(L, ctx)
  }

  /** Only the sender's balance and nonce and the receiver's balance can differ, and this is by how much. */
  ghost predicate LeavesBehind(c: Crypto, L: LedgerState, ctx: CrossTx, fp: FailurePoint, shards: seq<ShardState>)
    requires Placed(L, ctx)
  {
    && |shards| == |L.shards|
    && (forall i, a :: 0 <= i < |shards| ==>
          BalanceOf(shards[i], a) == (if i == ctx.fromShard && a == ctx.tx.from then SenderAfter(c, L, ctx, fp)
                                      else if i == ctx.toShard && a == ctx.tx.to then ReceiverAfter(c, L, ctx, fp)
                                      else BalanceOf(L.shards[i], a)))
    && (forall i, a :: 0 <= i < |shards| ==>
          NonceOf(shards[i], a) == (if i == ctx.fromShard && a == ctx.tx.from then NonceAfter(c, L, ctx, fp)
                                    else NonceOf(L.shards[i], a)))
  }

  /** What the attempt rolls back with: what it captured, or what the entry already carried. */
  function DataOf(c: Crypto, L: LedgerState, ctx: CrossTx, fp: FailurePoint): Option<RollbackData>
    requires Placed(L, ctx)
  {
    if FailsEarly(c, L, ctx, fp) then ctx.rollback
    else Some(RollbackData(ctx.tx.from, SenderBalance(L, ctx), SenderNonce(L, ctx), ctx.tx.amount))
  }

  /** The source shard as rollback finds it. */
  function Source(c: Crypto, L: LedgerState, ctx: CrossTx, fp: FailurePoint): ShardState
    requires Placed(L, ctx)
  {
    var from := L.shards[ctx.fromShard];
    if !FailsEarly(c, L, ctx, fp) && (fp == CommitAfterDebit || fp == CommitAfterCredit) then Debit(from, ctx.tx) else from
  }

  function SourceShard(c: Crypto, L: LedgerState, ctx: CrossTx, fp: FailurePoint): ShardState
    requires Placed(L, ctx)
  {
    match DataOf(c, L, ctx, fp)
    case None => Source(c, L, ctx, fp)
    case Some(data) => RestoreSource(Source(c, L, ctx, fp), data)
  }

  function DestinationShard(c: Crypto, L: LedgerState, ctx: CrossTx, fp: FailurePoint): ShardState
    requires Placed(L, ctx)
  {
    var to := L.shards[ctx.toShard];
    if FailsEarly(c, L, ctx, fp) then
      if ctx.rollback.None? then to else RevokeCredit(to, ctx.tx.to, ctx.rollback.value.amount)
    else RevokeCredit(Destination(L, ctx, fp), ctx.tx.to, ctx.tx.amount)
  }

  lemma EarlyShape(c: Crypto, L: LedgerState, ctx: CrossTx, fp: FailurePoint)
    requires Attemptable(c, L, ctx) && ctx.key !in L.keys && FailsEarly(c, L, ctx, fp)
    ensures ExecuteCrossShardCommit(c, L, ctx, fp).ledger
         == L.(shards := L.shards[ctx.fromShard := SourceShard(c, L, ctx, fp)][ctx.toShard := DestinationShard(c, L, ctx, fp)])
  {
    EarlyFailureRollsBack(c, L, ctx, fp);
    assert L.locks - {LockOf(ctx.tx)} == L.locks;
    if ctx.rollback.None? {
      assert L.shards[ctx.fromShard := L.shards[ctx.fromShard]][ctx.toShard := L.shards[ctx.toShard]] == L.shards;
    }
  }

  lemma LateShape(c: Crypto, L: LedgerState, ctx: CrossTx, fp: FailurePoint)
    requires Attemptable(c, L, ctx) && ctx.key !in L.keys && !FailsEarly(c, L, ctx, fp) && fp != NoFailure
    ensures var p := ExecuteCrossShardCommit(c, L, ctx, fp);
            && !p.ok && p.ctx == ctx.(commit := Aborted, rollback := DataOf(c, L, ctx, fp))
            && p.ledger == L.(shards := L.shards[ctx.fromShard := SourceShard(c, L, ctx, fp)][ctx.toShard := DestinationShard(c, L, ctx, fp)])
  {
    assert L.locks + {LockOf(ctx.tx)} - {LockOf(ctx.tx)} == L.locks;
  }

  lemma SourceAnswers(c: Crypto, L: LedgerState, ctx: CrossTx, fp: FailurePoint)
    requires Attemptable(c, L, ctx) && Fails(c, L, ctx, fp)
    ensures var from, from' := L.shards[ctx.fromShard], SourceShard(c, L, ctx, fp);
            && from'.healthy && from'.accounts.Keys == from.accounts.Keys && from'.nonces.Keys <= from.nonces.Keys + {ctx.tx.from}
            && (forall a :: BalanceOf(from', a) == if a == ctx.tx.from then SenderAfter(c, L, ctx, fp) else BalanceOf(from, a))
            && (forall a :: NonceOf(from', a) == if a == ctx.tx.from then NonceAfter(c, L, ctx, fp) else NonceOf(from, a))
  {
  }

  lemma DestinationAnswers(c: Crypto, L: LedgerState, ctx: CrossTx, fp: FailurePoint)
    requires Attemptable(c, L, ctx) && Fails(c, L, ctx, fp)
    ensures var to, to' := L.shards[ctx.toShard], DestinationShard(c, L, ctx, fp);
            && to'.healthy && to'.accounts.Keys <= to.accounts.Keys + {ctx.tx.to} && to'.nonces == to.nonces
            && (forall a :: BalanceOf(to', a) == if a == ctx.tx.to then ReceiverAfter(c, L, ctx, fp) else BalanceOf(to, a))
  {
  }

  /** A failed attempt: what it reports, what becomes of the two shards, and what the entry carries from now on. */
  lemma FailureShape(c: Crypto, L: LedgerState, ctx: CrossTx, fp: FailurePoint)
    requires Attemptable(c, L, ctx) && Fails(c, L, ctx, fp)
    ensures var p := ExecuteCrossShardCommit(c, L, ctx, fp);
            && !p.ok && p.ctx == ctx.(commit := Aborted, rollback := DataOf(c, L, ctx, fp))
            && p.ledger == L.(shards := L.shards[ctx.fromShard := SourceShard(c, L, ctx, fp)][ctx.toShard := DestinationShard(c, L, ctx, fp)])
  {
    if FailsEarly(c, L, ctx, fp) {
      EarlyFailureRollsBack(c, L, ctx, fp);
      EarlyShape(c, L, ctx, fp);
    } else {
      LateShape(c, L, ctx, fp);
    }
  }

  /** Every balance and nonce after a failed attempt. */
  lemma FailedAttempt(c: Crypto, L: LedgerState, ctx: CrossTx, fp: FailurePoint)
    requires Attemptable(c, L, ctx) && Fails(c, L, ctx, fp)
    ensures LeavesBehind(c, L, ctx, fp, ExecuteCrossShardCommit(c, L, ctx, fp).ledger.shards)
  {
    FailureShape(c, L, ctx, fp);
    SourceAnswers(c, L, ctx, fp);
    DestinationAnswers(c, L, ctx, fp);
  }

  // ---------------------------------------------------------------- what survives

  lemma OneBalanceChanged(s: ShardState, s': ShardState, a: Address)
    requires s'.accounts.Keys + {a} == s.accounts.Keys + {a}
    requires forall b :: b != a ==> BalanceOf(s', b) == BalanceOf(s, b)
    ensures ShardTotal(s') == ShardTotal(s) - BalanceOf(s, a) + BalanceOf(s', a)
  {
    Without(s, a);
    Without(s', a);
    assert Balances(s.accounts) - {a} == Balances(s'.accounts) - {a} by {
      forall b | b != a ensures b in s.accounts <==> b in s'.accounts {
        assert b in s.accounts.Keys + {a} <==> b in s'.accounts.Keys + {a};
      }
      forall b | b in s.accounts && b != a ensures s.accounts[b].balance == s'.accounts[b].balance {
        assert BalanceOf(s', b) == BalanceOf(s, b);
      }
    }
  }

  lemma Without(s: ShardState, a: Address)
    ensures ShardTotal(s) == BalanceOf(s, a) + MapSum(Balances(s.accounts) - {a})
  {
    if a in s.accounts {
      MapSumRemove(Balances(s.accounts), a);
    } else {
      assert Balances(s.accounts) - {a} == Balances(s.accounts);
    }
  }

  /** A failed attempt changes the supply by exactly what it changes at the sender and at the receiver. */
  lemma FailureSupply(c: Crypto, L: LedgerState, ctx: CrossTx, fp: FailurePoint)
    requires Attemptable(c, L, ctx) && Fails(c, L, ctx, fp)
    ensures Supply(ExecuteCrossShardCommit(c, L, ctx, fp).ledger.shards)
         == Supply(L.shards) + (SenderAfter(c, L, ctx, fp) - SenderBalance(L, ctx)) + (ReceiverAfter(c, L, ctx, fp) - ReceiverBalance(L, ctx))
  {
    var from', to' := SourceShard(c, L, ctx, fp), DestinationShard(c, L, ctx, fp);
    FailureShape(c, L, ctx, fp);
    SourceAnswers(c, L, ctx, fp);
    DestinationAnswers(c, L, ctx, fp);
    KeysKept(c, L, ctx, fp);
    OneBalanceChanged(L.shards[ctx.fromShard], from', ctx.tx.from);
    OneBalanceChanged(L.shards[ctx.toShard], to', ctx.tx.to);
    SupplyUpdate(L.shards, ctx.fromShard, from');
    SupplyUpdate(L.shards[ctx.fromShard := from'], ctx.toShard, to');
  }

  lemma KeysKept(c: Crypto, L: LedgerState, ctx: CrossTx, fp: FailurePoint)
    requires Attemptable(c, L, ctx) && Fails(c, L, ctx, fp)
    ensures L.shards[ctx.toShard].accounts.Keys <= DestinationShard(c, L, ctx, fp).accounts.Keys
  {
  }

  /** The supply survives a failed attempt if and only if what is put back equals what is taken away. */
  lemma RollbackConservesSupply(c: Crypto, L: LedgerState, ctx: CrossTx, fp: FailurePoint)
    requires Attemptable(c, L, ctx) && Fails(c, L, ctx, fp)
    ensures Supply(ExecuteCrossShardCommit(c, L, ctx, fp).ledger.shards) == Supply(L.shards)
       <==> SenderAfter(c, L, ctx, fp) + ReceiverAfter(c, L, ctx, fp) == SenderBalance(L, ctx) + ReceiverBalance(L, ctx)
    ensures !FailsEarly(c, L, ctx, fp) && ctx.tx.amount > 0 ==>
            (Supply(ExecuteCrossShardCommit(c, L, ctx, fp).ledger.shards) == Supply(L.shards) <==> RollbackCondition(L, ctx, fp))
  {
    FailureSupply(c, L, ctx, fp);
  }

  /** Every answer survives a failed attempt if and only if none of the three touched values moves. */
  lemma FailureIsExact(c: Crypto, L: LedgerState, ctx: CrossTx, fp: FailurePoint)
    requires Attemptable(c, L, ctx) && Fails(c, L, ctx, fp)
    ensures SameObservations(L.shards, ExecuteCrossShardCommit(c, L, ctx, fp).ledger.shards)
       <==> SenderAfter(c, L, ctx, fp) == SenderBalance(L, ctx) && ReceiverAfter(c, L, ctx, fp) == ReceiverBalance(L, ctx)
            && NonceAfter(c, L, ctx, fp) == SenderNonce(L, ctx)
  {
    FailedAttempt(c, L, ctx, fp);
  }

  /** The nonce discipline of everything applied so far survives a failed attempt if and only if the sender's nonce does not move. */
  lemma FailureKeepsNonces(c: Crypto, base: seq<ShardState>, log: seq<Transaction>, L: LedgerState, ctx: CrossTx, fp: FailurePoint)
    requires Attemptable(c, L, ctx) && Fails(c, L, ctx, fp)
    requires |base| == |L.shards| && NonceDiscipline(c, base, L.shards, log)
    ensures |ExecuteCrossShardCommit(c, L, ctx, fp).ledger.shards| == |base|
    ensures NonceDiscipline(c, base, ExecuteCrossShardCommit(c, L, ctx, fp).ledger.shards, log)
       <==> NonceAfter(c, L, ctx, fp) == SenderNonce(L, ctx)
  {
    FailedAttempt(c, L, ctx, fp);
    var after := ExecuteCrossShardCommit(c, L, ctx, fp).ledger.shards;
    var a := ctx.tx.from;
    assert ShardOf(c, a, |base|) == ctx.fromShard;
    assert HomeNonce(c, after, a) == NonceAfter(c, L, ctx, fp) && HomeNonce(c, L.shards, a) == SenderNonce(L, ctx);
    assert CountsUp(NoncesOf(log, a), HomeNonce(c, base, a), HomeNonce(c, L.shards, a));
    forall b | b != a ensures HomeNonce(c, after, b) == HomeNonce(c, L.shards, b) {
    }
  }

  /** A failed attempt leaves every account and nonce at home, and an entry that can be attempted again. */
  lemma FailureKeepsOrder(c: Crypto, L: LedgerState, ctx: CrossTx, fp: FailurePoint)
    requires Attemptable(c, L, ctx) && Fails(c, L, ctx, fp)
    ensures var p := ExecuteCrossShardCommit(c, L, ctx, fp);
            && InOrder(c, p.ledger) && p.ledger.config == L.config && p.ledger.keys == L.keys && p.ledger.queue == L.queue
            && |p.ledger.shards| == |L.shards| && QueuedOk(c, |L.shards|, p.ctx)
  {
    FailureShape(c, L, ctx, fp);
    SourceAnswers(c, L, ctx, fp);
    DestinationAnswers(c, L, ctx, fp);
  }
}
