/**
  Two-phase commit: an attempt that is not cut short by a timeout either moves the amount or changes
  nothing; rollback undoes a transfer that a timeout did cut short, exactly when it can.
 */
module TwoPhaseCommit {
  import opened Common
  import opened Sums
  import opened Ledger
  import opened LedgerSafety

  // ---------------------------------------------------------------- atomicity

  /** What the prepare phase demands of the source shard. */
  predicate Payable(c: Crypto, L: LedgerState, ctx: CrossTx)
    requires Placed(L, ctx)
  {
    var from := L.shards[ctx.fromShard];
    && ctx.tx.from in from.accounts
    && from.accounts[ctx.tx.from].balance >= ctx.tx.amount
    && ctx.tx.nonce == NonceOf(from, ctx.tx.from)
    && SignatureOk(c, ctx.tx)
  }

  /** The shards after the whole transfer. */
  function Transferred(shards: seq<ShardState>, ctx: CrossTx): seq<ShardState>
    requires ctx.fromShard < |shards| && ctx.toShard < |shards|
    requires ctx.tx.from in shards[ctx.fromShard].accounts
    requires shards[ctx.fromShard].accounts[ctx.tx.from].balance >= ctx.tx.amount
  {
    var debited := shards[ctx.fromShard := Debit(shards[ctx.fromShard], ctx.tx)];
    debited[ctx.toShard := Credit(debited[ctx.toShard], ctx.tx.to, ctx.tx.amount)]
  }

  ghost predicate Ready(L: LedgerState, ctx: CrossTx) {
    Placed(L, ctx) && AllHealthy(L.shards) && L.locks == {}
  }

  /**
    Every transfer that prepares also commits, once; every other attempt rolls back with whatever data
    the entry already carried, and changes nothing if it carried none.
   */
  lemma CommitIsAtomic(c: Crypto, L: LedgerState, ctx: CrossTx)
    requires Ready(L, ctx)
    ensures var p := ExecuteCrossShardCommit(c, L, ctx, NoFailure);
            && (p.ok <==> ctx.key in L.keys || Payable(c, L, ctx))
            && (ctx.key in L.keys ==> p.ledger == L)
            && (ctx.key !in L.keys && p.ok ==>
                  p.ledger == L.(shards := Transferred(L.shards, ctx), keys := L.keys + {ctx.key}))
            && (!p.ok ==> p.ledger == RollbackPhase(L, ctx) && p.ctx == ctx.(commit := Aborted))
            && (!p.ok && ctx.rollback == None ==> p.ledger == L)
  {
    if ctx.key !in L.keys {
      assert L.locks + {LockOf(ctx.tx)} - {LockOf(ctx.tx)} == {};
      assert L.locks - {LockOf(ctx.tx)} == {};
    }
  }

  /** A fresh transfer that succeeds moves its amount between the two shards, advances the sender's nonce, and does nothing else. */
  lemma CommitMoves(c: Crypto, L: LedgerState, ctx: CrossTx, i: nat, a: Address)
    requires Ready(L, ctx) && ctx.fromShard != ctx.toShard && ctx.key !in L.keys && i < |L.shards|
    requires ExecuteCrossShardCommit(c, L, ctx, NoFailure).ok
    ensures var s, s' := L.shards[i], ExecuteCrossShardCommit(c, L, ctx, NoFailure).ledger.shards[i];
            && NonceOf(s', a) == (if i == ctx.fromShard && a == ctx.tx.from then WrapAdd(ctx.tx.nonce, 1) else NonceOf(s, a))
            && BalanceOf(s', a) == (if i == ctx.fromShard && a == ctx.tx.from then BalanceOf(s, a) - ctx.tx.amount
                                    else if i == ctx.toShard && a == ctx.tx.to then SaturatingAdd(BalanceOf(s, a), ctx.tx.amount)
                                    else BalanceOf(s, a))
  {
    CommitIsAtomic(c, L, ctx);
  }

  lemma TransferKeepsSupply(c: Crypto, L: LedgerState, ctx: CrossTx)
    requires Placed(L, ctx) && ctx.fromShard != ctx.toShard && Payable(c, L, ctx)
    requires Supply(L.shards) <= U64_MAX
    ensures Supply(Transferred(L.shards, ctx)) == Supply(L.shards)
  {
    var i, j, tx := ctx.fromShard, ctx.toShard, ctx.tx;
    var debited := L.shards[i := Debit(L.shards[i], tx)];
    ShardTotalBound(L.shards, i);
    DebitTotal(L.shards[i], tx);
    SupplyUpdate(L.shards, i, debited[i]);
    ShardTotalBound(debited, j);
    CreditTotal(debited[j], tx.to, tx.amount);
    SupplyUpdate(debited, j, Transferred(L.shards, ctx)[j]);
  }

  lemma TransferKeepsPlacement(c: Crypto, L: LedgerState, ctx: CrossTx)
    requires |L.shards| > 0 && HomePlaced(c, L.shards) && AllHealthy(L.shards)
    requires QueuedOk(c, |L.shards|, ctx) && Payable(c, L, ctx)
    ensures HomePlaced(c, Transferred(L.shards, ctx)) && AllHealthy(Transferred(L.shards, ctx))
    ensures NonceDiscipline(c, L.shards, Transferred(L.shards, ctx), [ctx.tx])
  {
    OneNonce(c, L.shards, Transferred(L.shards, ctx), ctx.fromShard, ctx.tx);
  }

  // ---------------------------------------------------------------- draining the queue

  function KeysOf(c: Crypto, txs: seq<Transaction>): set<Key> {
    set i | 0 <= i < |txs| :: IdempotencyKey(c, txs[i])
  }

  /** Each applied transfer uses a key that was new, and no key twice. */
  ghost predicate FreshKeys(c: Crypto, before: set<Key>, after: set<Key>, applied: seq<Transaction>) {
    && (forall i :: 0 <= i < |applied| ==> IdempotencyKey(c, applied[i]) !in before)
    && (forall i, j :: 0 <= i < j < |applied| ==> IdempotencyKey(c, applied[i]) != IdempotencyKey(c, applied[j]))
    && after == before + KeysOf(c, applied)
  }

  lemma KeysOfConcat(c: Crypto, l: seq<Transaction>, m: seq<Transaction>)
    ensures KeysOf(c, l + m) == KeysOf(c, l) + KeysOf(c, m)
  {
    forall k | k in KeysOf(c, l) + KeysOf(c, m) ensures k in KeysOf(c, l + m) {
      if k in KeysOf(c, l) {
        var i :| 0 <= i < |l| && k == IdempotencyKey(c, l[i]);
        assert (l + m)[i] == l[i];
      } else {
        var i :| 0 <= i < |m| && k == IdempotencyKey(c, m[i]);
        assert (l + m)[|l| + i] == m[i];
      }
    }
  }

  lemma FreshKeysCompose(c: Crypto, k0: set<Key>, k1: set<Key>, k2: set<Key>, l: seq<Transaction>, m: seq<Transaction>)
    requires FreshKeys(c, k0, k1, l) && FreshKeys(c, k1, k2, m)
    ensures FreshKeys(c, k0, k2, l + m)
  {
    KeysOfConcat(c, l, m);
    forall i, j | 0 <= i < j < |l + m|
      ensures IdempotencyKey(c, (l + m)[i]) != IdempotencyKey(c, (l + m)[j])
    {
      if i < |l| <= j {
        assert IdempotencyKey(c, l[i]) in KeysOf(c, l);
        assert IdempotencyKey(c, m[j - |l|]) !in k1;
      }
    }
  }

  lemma FreshKey(c: Crypto, keys: set<Key>, tx: Transaction)
    requires IdempotencyKey(c, tx) !in keys
    ensures FreshKeys(c, keys, keys + {IdempotencyKey(c, tx)}, [tx])
  {
    assert [tx][0] == tx;
    assert KeysOf(c, [tx]) == {IdempotencyKey(c, tx)};
  }

  /** The transactions one attempt applies: the transfer itself, or nothing. */
  function AppliedBy(c: Crypto, L: LedgerState, ctx: CrossTx): seq<Transaction>
    requires Placed(L, ctx)
  {
    if ctx.key !in L.keys && ExecuteCrossShardCommit(c, L, ctx, NoFailure).ok then [ctx.tx] else []
  }

  ghost predicate InOrder(c: Crypto, L: LedgerState) {
    |L.shards| > 0 && HomePlaced(c, L.shards) && AllHealthy(L.shards) && L.locks == {}
  }

  /** `after` follows from `before` by applying exactly `applied`. */
  ghost predicate Follows(c: Crypto, before: LedgerState, after: LedgerState, applied: seq<Transaction>)
    requires |before.shards| == |after.shards| > 0
  {
    && after.config == before.config && after.queue == before.queue
    && (Supply(before.shards) <= U64_MAX ==> Supply(after.shards) == Supply(before.shards))
    && NonceDiscipline(c, before.shards, after.shards, applied)
    && FreshKeys(c, before.keys, after.keys, applied)
  }

  lemma FollowsNothing(c: Crypto, L: LedgerState)
    requires |L.shards| > 0
    ensures Follows(c, L, L, [])
  {
  }

  lemma FollowsCompose(c: Crypto, L0: LedgerState, L1: LedgerState, L2: LedgerState, l: seq<Transaction>, m: seq<Transaction>)
    requires |L0.shards| == |L1.shards| == |L2.shards| > 0
    requires Follows(c, L0, L1, l) && Follows(c, L1, L2, m)
    ensures Follows(c, L0, L2, l + m)
  {
    NonceDisciplineCompose(c, L0.shards, L1.shards, L2.shards, l, m);
    FreshKeysCompose(c, L0.keys, L1.keys, L2.keys, l, m);
  }

  lemma AttemptIsSafe(c: Crypto, L: LedgerState, ctx: CrossTx)
    requires InOrder(c, L) && EntryOk(c, |L.shards|, ctx)
    ensures var p := ExecuteCrossShardCommit(c, L, ctx, NoFailure);
            && InOrder(c, p.ledger) && Follows(c, L, p.ledger, AppliedBy(c, L, ctx))
            && (!p.ok ==> p.ctx == ctx.(commit := Aborted))
  {
    CommitIsAtomic(c, L, ctx);
    if AppliedBy(c, L, ctx) == [] {
      FollowsNothing(c, L);
    } else {
      TransferKeepsPlacement(c, L, ctx);
      FreshKey(c, L.keys, ctx.tx);
      if Supply(L.shards) <= U64_MAX {
        TransferKeepsSupply(c, L, ctx);
      }
    }
  }

  lemma {:induction false} DrainIsSafe(c: Crypto, L: LedgerState, entries: seq<CrossTx>)
    requires InOrder(c, L) && EntriesOk(c, |L.shards|, entries)
    ensures AllPlaced(L, entries)
    ensures var d := Drain(c, L, entries);
            && InOrder(c, d.ledger) && EntriesOk(c, |L.shards|, d.retained)
            && Follows(c, L, d.ledger, d.applied)
  {
    if entries == [] {
      FollowsNothing(c, L);
    } else {
      var front, ctx := entries[..|entries| - 1], entries[|entries| - 1];
      DrainIsSafe(c, L, front);
      var prev := Drain(c, L, front);
      assert EntryOk(c, |L.shards|, ctx);
      AttemptIsSafe(c, prev.ledger, ctx);
      var p := ExecuteCrossShardCommit(c, prev.ledger, ctx, NoFailure);
      assert Drain(c, L, entries).applied == prev.applied + AppliedBy(c, prev.ledger, ctx);
      FollowsCompose(c, L, prev.ledger, p.ledger, prev.applied, AppliedBy(c, prev.ledger, ctx));
    }
  }

  // ---------------------------------------------------------------- attempts that fail

  /** Two lists of shards that every balance and nonce query answers alike. */
  ghost predicate SameObservations(s: seq<ShardState>, t: seq<ShardState>) {
    && |s| == |t|
    && forall i, a :: 0 <= i < |s| ==> BalanceOf(s[i], a) == BalanceOf(t[i], a) && NonceOf(s[i], a) == NonceOf(t[i], a)
  }

  /** The attempt fails before it captures the source, so what it rolls back with is older than itself. */
  predicate FailsEarly(c: Crypto, L: LedgerState, ctx: CrossTx, fp: FailurePoint)
    requires Placed(L, ctx)
  {
    || LockOf(ctx.tx) in L.locks || fp == PrepareBeforeCapture
    || !L.shards[ctx.fromShard].healthy || !L.shards[ctx.toShard].healthy
    || !Payable(c, L, ctx)
  }

  lemma EarlyFailureRollsBack(c: Crypto, L: LedgerState, ctx: CrossTx, fp: FailurePoint)
    requires Placed(L, ctx) && ctx.key !in L.keys && FailsEarly(c, L, ctx, fp)
    ensures var p := ExecuteCrossShardCommit(c, L, ctx, fp);
            && !p.ok && p.ctx == ctx.(commit := Aborted)
            && p.ledger.shards == RollbackPhase(L, ctx).shards
            && p.ledger == L.(shards := p.ledger.shards, locks := L.locks - {LockOf(ctx.tx)})
  {
    assert L.locks + {LockOf(ctx.tx)} - {LockOf(ctx.tx)} == L.locks - {LockOf(ctx.tx)};
    assert L.locks + {LockOf(ctx.tx)} - {LockOf(ctx.tx)} - {LockOf(ctx.tx)} == L.locks - {LockOf(ctx.tx)};
    assert L.locks - {LockOf(ctx.tx)} - {LockOf(ctx.tx)} == L.locks - {LockOf(ctx.tx)};
  }

  /** Restoring the source with this data changes no answer. */
  predicate SourceAgrees(s: ShardState, data: RollbackData) {
    || BalanceOf(s, data.from) == data.originalBalance
    || (data.from !in s.accounts && NonceOf(s, data.from) == data.originalNonce)
  }

  /** The receiver holds too little for the credit to be taken back. */
  predicate ReceiverShort(s: ShardState, a: Address, amount: u64) {
    amount == 0 || BalanceOf(s, a) < amount
  }

  lemma RestoreIsExact(s: ShardState, data: RollbackData)
    ensures (forall a :: BalanceOf(RestoreSource(s, data), a) == BalanceOf(s, a) && NonceOf(RestoreSource(s, data), a) == NonceOf(s, a))
       <==> SourceAgrees(s, data)
  {
    var s' := RestoreSource(s, data);
    if !SourceAgrees(s, data) {
      assert BalanceOf(s', data.from) != BalanceOf(s, data.from) || NonceOf(s', data.from) != NonceOf(s, data.from);
    }
  }

  lemma RevokeIsExact(s: ShardState, to: Address, amount: u64)
    ensures (forall a :: BalanceOf(RevokeCredit(s, to, amount), a) == BalanceOf(s, a) && NonceOf(RevokeCredit(s, to, amount), a) == NonceOf(s, a))
       <==> ReceiverShort(s, to, amount)
  {
    if !ReceiverShort(s, to, amount) {
      assert BalanceOf(RevokeCredit(s, to, amount), to) != BalanceOf(s, to);
    }
  }

  /**
    An entry that carries data from an earlier timeout, and whose attempt fails before capturing anew,
    leaves every answer as it was if and only if that data still describes the source and the receiver
    holds less than the amount.
   */
  lemma StaleRollbackIsExact(c: Crypto, L: LedgerState, ctx: CrossTx, fp: FailurePoint)
    requires Placed(L, ctx) && ctx.fromShard != ctx.toShard && ctx.key !in L.keys
    requires FailsEarly(c, L, ctx, fp) && ctx.rollback.Some?
    ensures SameObservations(L.shards, ExecuteCrossShardCommit(c, L, ctx, fp).ledger.shards)
       <==> SourceAgrees(L.shards[ctx.fromShard], ctx.rollback.value)
            && ReceiverShort(L.shards[ctx.toShard], ctx.tx.to, ctx.rollback.value.amount)
  {
    var data := ctx.rollback.value;
    var from, to := L.shards[ctx.fromShard], L.shards[ctx.toShard];
    var after := ExecuteCrossShardCommit(c, L, ctx, fp).ledger.shards;
    EarlyFailureRollsBack(c, L, ctx, fp);
    RestoreIsExact(from, data);
    RevokeIsExact(to, ctx.tx.to, data.amount);
    assert after == L.shards[ctx.fromShard := RestoreSource(from, data)][ctx.toShard := RevokeCredit(to, ctx.tx.to, data.amount)];
    if SameObservations(L.shards, after) {
      assert forall a :: BalanceOf(after[ctx.fromShard], a) == BalanceOf(from, a) && NonceOf(after[ctx.fromShard], a) == NonceOf(from, a);
      assert forall a :: BalanceOf(after[ctx.toShard], a) == BalanceOf(to, a) && NonceOf(after[ctx.toShard], a) == NonceOf(to, a);
    }
  }

  /** A sender that held 10 when its transfer timed out, and has spent 7 since; a receiver that holds 6. */
  function SpentSince(config: Config): LedgerState {
    LedgerState(config, [ShardState(map["a" := Account(3, 0)], map["a" := 1], true),
                         ShardState(map["b" := Account(6, 0)], map[], true)], [], {}, {})
  }

  function TimedOutEntry(c: Crypto): CrossTx {
    var tx := Transaction("a", "b", 5, 0, 0, 0, None, None, None);
    CrossTx(0, 1, tx, Preparing, Some(RollbackData("a", 10, 0, 5)), 1, IdempotencyKey(c, tx))
  }

  /** The next attempt fails without any timeout, sets the sender back to 10 and its nonce to 0, and takes 5 from the receiver. */
  lemma StaleRollbackCreatesMoney(c: Crypto, config: Config)
    ensures var p := ExecuteCrossShardCommit(c, SpentSince(config), TimedOutEntry(c), NoFailure);
            && !p.ok
            && p.ledger.shards == [ShardState(map["a" := Account(10, 0)], map["a" := 0], true),
                                   ShardState(map["b" := Account(1, 0)], map[], true)]
            && Supply(SpentSince(config).shards) == 9 && Supply(p.ledger.shards) == 11
  {
    var L, e := SpentSince(config), TimedOutEntry(c);
    var from, to := L.shards[0], L.shards[1];
    var from', to' := ShardState(map["a" := Account(10, 0)], map["a" := 0], true), ShardState(map["b" := Account(1, 0)], map[], true);
    EarlyFailureRollsBack(c, L, e, NoFailure);
    assert from.accounts["a" := Account(10, 0)] == from'.accounts && from.nonces["a" := 0] == from'.nonces;
    assert to.accounts["b" := Account(1, 0)] == to'.accounts;
    assert RestoreSource(from, e.rollback.value) == from' && RevokeCredit(to, "b", 5) == to';
    assert [from, to][0 := from'][1 := to'] == [from', to'];
    TwoAccounts(from, to, "a", "b");
    TwoAccounts(from', to', "a", "b");
  }

  lemma TwoAccounts(s: ShardState, t: ShardState, a: Address, b: Address)
    requires s.accounts.Keys == {a} && t.accounts.Keys == {b}
    ensures Supply([s, t]) == BalanceOf(s, a) + BalanceOf(t, b)
  {
    assert [s, t][..1] == [s] && [s][..0] == [];
    OneAccount(s, a);
    OneAccount(t, b);
    assert Supply([s, t]) == Supply([s]) + ShardTotal(t) && Supply([s]) == Supply([]) + ShardTotal(s);
  }

  lemma OneAccount(s: ShardState, a: Address)
    requires s.accounts.Keys == {a}
    ensures ShardTotal(s) == BalanceOf(s, a)
  {
    var none: map<Address, nat> := map[];
    assert a in s.accounts;
    assert Balances(s.accounts) == none[a := BalanceOf(s, a)];
    MapSumUpdate(none, a, BalanceOf(s, a));
  }

  /** A transfer that would commit if nothing timed out. */
  ghost predicate WouldCommit(c: Crypto, L: LedgerState, ctx: CrossTx) {
    && Ready(L, ctx) && ctx.fromShard != ctx.toShard && ctx.key !in L.keys
    && Payable(c, L, ctx) && ctx.tx.amount > 0
  }

  function AfterTimeout(c: Crypto, L: LedgerState, ctx: CrossTx, fp: FailurePoint): LedgerState
    requires Placed(L, ctx)
  {
    ExecuteCrossShardCommit(c, L, ctx, fp).ledger
  }

  /** The destination shard as rollback finds it. */
  function Destination(L: LedgerState, ctx: CrossTx, fp: FailurePoint): ShardState
    requires Placed(L, ctx)
  {
    var to := L.shards[ctx.toShard];
    if fp == CommitAfterCredit then Credit(to, ctx.tx.to, ctx.tx.amount) else to
  }

  /**
    Wherever a timeout strikes once the source is captured, the attempt fails, the lock is released, no
    key is recorded and the source shard answers every query as before; only the destination's receiver
    may differ. Data from earlier attempts plays no part: it has been overwritten.
   */
  lemma TimeoutRestoresSource(c: Crypto, L: LedgerState, ctx: CrossTx, fp: FailurePoint)
    requires WouldCommit(c, L, ctx) && fp != NoFailure && fp != PrepareBeforeCapture
    ensures !ExecuteCrossShardCommit(c, L, ctx, fp).ok
    ensures var L' := AfterTimeout(c, L, ctx, fp);
            && L' == L.(shards := L'.shards) && |L'.shards| == |L.shards|
            && L'.shards[ctx.fromShard].accounts == L.shards[ctx.fromShard].accounts
            && (forall a :: NonceOf(L'.shards[ctx.fromShard], a) == NonceOf(L.shards[ctx.fromShard], a))
            && L'.shards[ctx.toShard] == RevokeCredit(Destination(L, ctx, fp), ctx.tx.to, ctx.tx.amount)
            && (forall i :: 0 <= i < |L.shards| && i != ctx.fromShard && i != ctx.toShard ==> L'.shards[i] == L.shards[i])
  {
    var from := L.shards[ctx.fromShard];
    assert L.locks + {LockOf(ctx.tx)} - {LockOf(ctx.tx)} == L.locks;
    assert from.accounts[ctx.tx.from := from.accounts[ctx.tx.from]] == from.accounts;
  }

  /** The state under which rollback after a timeout gives back the ledger it started from. */
  predicate RollbackCondition(L: LedgerState, ctx: CrossTx, fp: FailurePoint)
    requires Placed(L, ctx)
  {
    var from, to := L.shards[ctx.fromShard], L.shards[ctx.toShard];
    match fp
    case CommitAfterCredit => BalanceOf(to, ctx.tx.to) + ctx.tx.amount <= U64_MAX
    case PrepareBeforeCapture =>
      ctx.rollback.Some? ==>
        SourceAgrees(from, ctx.rollback.value) && ReceiverShort(to, ctx.tx.to, ctx.rollback.value.amount)
    case _ => BalanceOf(to, ctx.tx.to) < ctx.tx.amount
  }

  /** Nothing changes at the destination but the receiver's balance, and not even that under the condition. */
  lemma ReceiverAfterTimeout(L: LedgerState, ctx: CrossTx, fp: FailurePoint)
    requires Placed(L, ctx) && ctx.tx.amount > 0 && fp != NoFailure && fp != PrepareBeforeCapture
    ensures var to, to' := L.shards[ctx.toShard], RevokeCredit(Destination(L, ctx, fp), ctx.tx.to, ctx.tx.amount);
            && to'.nonces == to.nonces
            && (forall a :: a != ctx.tx.to ==> (a in to.accounts <==> a in to'.accounts))
            && (forall a :: a != ctx.tx.to && a in to.accounts ==> to.accounts[a] == to'.accounts[a])
            && (BalanceOf(to', ctx.tx.to) == BalanceOf(to, ctx.tx.to) <==> RollbackCondition(L, ctx, fp))
  {
  }

  /**
    Rollback is exact if and only if the condition holds: after a complete debit and credit, that the
    credit did not saturate; after less than that, that the receiver holds less than the amount
    (otherwise rollback takes the amount from funds that never arrived); before the capture, that there
    is no older data or that it still describes both sides.
   */
  lemma RollbackIsExact(c: Crypto, L: LedgerState, ctx: CrossTx, fp: FailurePoint)
    requires WouldCommit(c, L, ctx) && fp != NoFailure
    ensures SameObservations(L.shards, AfterTimeout(c, L, ctx, fp).shards) <==> RollbackCondition(L, ctx, fp)
  {
    if fp == PrepareBeforeCapture {
      if ctx.rollback.Some? {
        StaleRollbackIsExact(c, L, ctx, fp);
      }
    } else {
      TimeoutRestoresSource(c, L, ctx, fp);
      ReceiverAfterTimeout(L, ctx, fp);
      OnlyReceiverMatters(L, ctx, AfterTimeout(c, L, ctx, fp).shards);
    }
  }

  /** If only the receiver can answer differently, whether the ledger does is whether the receiver does. */
  lemma OnlyReceiverMatters(L: LedgerState, ctx: CrossTx, shards: seq<ShardState>)
    requires Placed(L, ctx) && |shards| == |L.shards|
    requires forall i :: 0 <= i < |shards| && i != ctx.fromShard && i != ctx.toShard ==> shards[i] == L.shards[i]
    requires forall a :: BalanceOf(shards[ctx.fromShard], a) == BalanceOf(L.shards[ctx.fromShard], a)
                      && NonceOf(shards[ctx.fromShard], a) == NonceOf(L.shards[ctx.fromShard], a)
    requires forall a :: a != ctx.tx.to ==> BalanceOf(shards[ctx.toShard], a) == BalanceOf(L.shards[ctx.toShard], a)
    requires shards[ctx.toShard].nonces == L.shards[ctx.toShard].nonces
    ensures SameObservations(L.shards, shards)
       <==> BalanceOf(shards[ctx.toShard], ctx.tx.to) == BalanceOf(L.shards[ctx.toShard], ctx.tx.to)
  {
  }
}
