/**
  The sharded ledger as a mathematical state machine: what one shard does with a batch, what
  two-phase commit does with one cross-shard transfer, and what draining the retry queue does.
  The classes in ShardingCoordinator.dfy are proved to take exactly these steps.
 */
module Ledger {
  import opened Common

  type Address = string
  type Key = string

  const MAX_RETRY_ATTEMPTS: nat := 3

  datatype Transaction = Transaction(
    from: Address, to: Address, amount: u64, gasFee: u64, timestamp: u64, nonce: u64,
    signature: Option<string>, publicKey: Option<string>, memo: Option<string>)

  datatype Account = Account(balance: u64, nonce: u64)

  /** The fields a wallet signs. The memo is not among them. */
  datatype SignedMessage = SignedMessage(from: Address, to: Address, amount: u64, nonce: u64, timestamp: u64)

  /**
    The cryptographic functions the ledger calls, uninterpreted.
    addressHash: the first eight bytes of the address digest as a number.
    ed25519: does this public key accept this signature of this message (false on malformed hex).
    idempotency: the digest of the concatenated addresses, the amount and the nonce.
    blockDigest: the digest of a block header. It covers how many transactions there are, not which.
   */
  datatype Crypto = Crypto(
    addressHash: Address -> nat,
    ed25519: (string, string, SignedMessage) -> bool,
    idempotency: (string, u64, u64) -> Key,
    blockDigest: BlockHeader -> string)

  datatype BlockHeader = BlockHeader(
    index: nat, timestamp: u64, txCount: nat, prevHash: string, nonce: u64, validator: string, stateRoot: string)

  datatype Config = Config(shardCount: nat, maxShards: nat, txPerShard: nat, crossShardEnabled: bool)

  predicate ValidConfig(cfg: Config) {
    1 <= cfg.shardCount <= cfg.maxShards && 1 <= cfg.txPerShard
  }

  function ShardOf(c: Crypto, address: Address, shardCount: nat): (s: nat)
    requires shardCount > 0
    ensures s < shardCount
  {
    c.addressHash(address) % shardCount
  }

  predicate SignatureOk(c: Crypto, tx: Transaction) {
    && tx.signature.Some? && tx.signature.value != ""
    && tx.publicKey.Some? && tx.publicKey.value != ""
    && c.ed25519(tx.publicKey.value, tx.signature.value,
                 SignedMessage(tx.from, tx.to, tx.amount, tx.nonce, tx.timestamp))
  }

  // ---------------------------------------------------------------- one shard

  /** What one shard stores: accounts, the next expected nonce of each sender, and its health flag. */
  datatype ShardState = ShardState(accounts: map<Address, Account>, nonces: map<Address, u64>, healthy: bool)

  function BalanceOf(s: ShardState, a: Address): u64 {
    if a in s.accounts then s.accounts[a].balance else 0
  }

  function NonceOf(s: ShardState, a: Address): u64 {
    if a in s.nonces then s.nonces[a] else 0
  }

  /** The validation chain of a same-shard transaction. */
  predicate Accepts(c: Crypto, s: ShardState, tx: Transaction) {
    && tx.amount != 0
    && BalanceOf(s, tx.from) >= tx.amount
    && tx.nonce == NonceOf(s, tx.from)
    && SignatureOk(c, tx)
  }

  function Debit(s: ShardState, tx: Transaction): ShardState
    requires tx.from in s.accounts && s.accounts[tx.from].balance >= tx.amount
  {
    var sender := s.accounts[tx.from];
    s.(accounts := s.accounts[tx.from := sender.(balance := sender.balance - tx.amount)],
       nonces := s.nonces[tx.from := WrapAdd(tx.nonce, 1)])
  }

  function Credit(s: ShardState, to: Address, amount: u64): ShardState {
    var receiver := if to in s.accounts
                    then s.accounts[to].(balance := SaturatingAdd(s.accounts[to].balance, amount))
                    else Account(amount, 0);
    s.(accounts := s.accounts[to := receiver])
  }

  function ApplyTransaction(s: ShardState, tx: Transaction): ShardState
    requires tx.from in s.accounts && s.accounts[tx.from].balance >= tx.amount
  {
    Credit(Debit(s, tx), tx.to, tx.amount)
  }

  datatype Batch = Batch(shard: ShardState, processed: seq<Transaction>)

  /** A batch in order: rejected transactions are skipped, accepted ones applied and reported. */
  function RunBatch(c: Crypto, s: ShardState, txs: seq<Transaction>): Batch {
    if txs == [] then Batch(s, []) else
      var prev := RunBatch(c, s, txs[..|txs| - 1]);
      var tx := txs[|txs| - 1];
      if Accepts(c, prev.shard, tx)
      then Batch(ApplyTransaction(prev.shard, tx), prev.processed + [tx])
      else prev
  }

  // ---------------------------------------------------------------- classification

  predicate IsSameShard(c: Crypto, tx: Transaction, shardCount: nat, s: nat)
    requires shardCount > 0
  {
    ShardOf(c, tx.from, shardCount) == s && ShardOf(c, tx.to, shardCount) == s
  }

  /** The same-shard transactions of one shard, in arrival order. */
  function Group(c: Crypto, txs: seq<Transaction>, shardCount: nat, s: nat): seq<Transaction>
    requires shardCount > 0
  {
    if txs == [] then [] else
      var prev := Group(c, txs[..|txs| - 1], shardCount, s);
      var tx := txs[|txs| - 1];
      if IsSameShard(c, tx, shardCount, s) then prev + [tx] else prev
  }

  datatype CommitState = Preparing | Prepared | Committing | Committed | Aborting | Aborted

  datatype RollbackData = RollbackData(from: Address, originalBalance: u64, originalNonce: u64, amount: u64)

  datatype CrossTx = CrossTx(
    fromShard: nat, toShard: nat, tx: Transaction, commit: CommitState,
    rollback: Option<RollbackData>, retries: nat, key: Key)

  function IdempotencyKey(c: Crypto, tx: Transaction): Key {
    c.idempotency(tx.from + tx.to, tx.amount, tx.nonce)
  }

  function NewCrossTx(c: Crypto, tx: Transaction, shardCount: nat): CrossTx
    requires shardCount > 0
  {
    CrossTx(ShardOf(c, tx.from, shardCount), ShardOf(c, tx.to, shardCount), tx, Preparing, None, 0,
            IdempotencyKey(c, tx))
  }

  predicate IsCrossShard(c: Crypto, tx: Transaction, shardCount: nat)
    requires shardCount > 0
  {
    ShardOf(c, tx.from, shardCount) != ShardOf(c, tx.to, shardCount)
  }

  /** The cross-shard transactions in arrival order; dropped when cross-shard transfers are disabled. */
  function CrossGroup(c: Crypto, cfg: Config, txs: seq<Transaction>): seq<CrossTx>
    requires cfg.shardCount > 0
  {
    if txs == [] then [] else
      var prev := CrossGroup(c, cfg, txs[..|txs| - 1]);
      var tx := txs[|txs| - 1];
      if IsCrossShard(c, tx, cfg.shardCount) && cfg.crossShardEnabled
      then prev + [NewCrossTx(c, tx, cfg.shardCount)] else prev
  }

  // ---------------------------------------------------------------- the coordinator

  /** A distributed lock names a sender and a nonce. */
  datatype LockKey = LockKey(from: Address, nonce: u64)

  datatype LedgerState = LedgerState(
    config: Config, shards: seq<ShardState>, queue: seq<CrossTx>, locks: set<LockKey>, keys: set<Key>)

  datatype Groups = Groups(shards: seq<ShardState>, processed: seq<Transaction>)

  /** Same-shard groups, run in the order in which their tasks are joined. A finished shard is marked healthy. */
  function RunGroups(c: Crypto, shards: seq<ShardState>, txs: seq<Transaction>, order: seq<nat>): Groups
    requires |shards| > 0
    requires forall i :: 0 <= i < |order| ==> order[i] < |shards|
    ensures |RunGroups(c, shards, txs, order).shards| == |shards|
  {
    if order == [] then Groups(shards, []) else
      var prev := RunGroups(c, shards, txs, order[..|order| - 1]);
      var s := order[|order| - 1];
      var batch := RunBatch(c, prev.shards[s], Group(c, txs, |shards|, s));
      Groups(prev.shards[s := batch.shard.(healthy := true)], prev.processed + batch.processed)
  }

  /** The groups may finish in any order, but each nonempty group runs exactly once. */
  ghost predicate IsGroupOrder(c: Crypto, txs: seq<Transaction>, shardCount: nat, order: seq<nat>)
    requires shardCount > 0
  {
    && (forall i :: 0 <= i < |order| ==> order[i] < shardCount)
    && (forall i, j :: 0 <= i < j < |order| ==> order[i] != order[j])
    && (forall s :: 0 <= s < shardCount ==> (s in order <==> Group(c, txs, shardCount, s) != []))
  }

  /** Queue the cross-shard transactions, then run the same-shard groups. */
  function ProcessParallel(c: Crypto, L: LedgerState, txs: seq<Transaction>, order: seq<nat>): (LedgerState, seq<Transaction>)
    requires |L.shards| == L.config.shardCount > 0
    requires forall i :: 0 <= i < |order| ==> order[i] < |L.shards|
  {
    var groups := RunGroups(c, L.shards, txs, order);
    (L.(shards := groups.shards, queue := L.queue + CrossGroup(c, L.config, txs)), groups.processed)
  }

  // ---------------------------------------------------------------- two-phase commit

  /** Where a timeout may cancel two-phase commit. */
  datatype FailurePoint =
    | NoFailure
    | PrepareBeforeCapture
    | PrepareAfterCapture
    | CommitBeforeDebit
    | CommitAfterDebit
    | CommitAfterCredit

  predicate Placed(L: LedgerState, ctx: CrossTx) {
    ctx.fromShard < |L.shards| && ctx.toShard < |L.shards|
  }

  function LockOf(tx: Transaction): LockKey {
    LockKey(tx.from, tx.nonce)
  }

  function Unlock(L: LedgerState, tx: Transaction): LedgerState {
    L.(locks := L.locks - {LockOf(tx)})
  }

  datatype Phase = Phase(ledger: LedgerState, ctx: CrossTx, ok: bool)

  function PreparePhase(c: Crypto, L: LedgerState, ctx: CrossTx, fp: FailurePoint): Phase
    requires Placed(L, ctx)
  {
    var tx := ctx.tx;
    if LockOf(tx) in L.locks then Phase(L, ctx, false) else
      var locked := L.(locks := L.locks + {LockOf(tx)});
      var from := L.shards[ctx.fromShard];
      if fp == PrepareBeforeCapture then Phase(locked, ctx, false)
      else if !from.healthy || !L.shards[ctx.toShard].healthy then Phase(Unlock(locked, tx), ctx, false)
      else if tx.from !in from.accounts then Phase(locked, ctx, false)
      else if BalanceOf(from, tx.from) < tx.amount || tx.nonce != NonceOf(from, tx.from) || !SignatureOk(c, tx)
      then Phase(Unlock(locked, tx), ctx, false)
      else
        var data := RollbackData(tx.from, BalanceOf(from, tx.from), NonceOf(from, tx.from), tx.amount);
        Phase(locked, ctx.(rollback := Some(data)), fp != PrepareAfterCapture)
  }

  function CommitPhase(L: LedgerState, ctx: CrossTx, fp: FailurePoint): Phase
    requires Placed(L, ctx)
  {
    var tx := ctx.tx;
    var from := L.shards[ctx.fromShard];
    if fp == CommitBeforeDebit || tx.from !in from.accounts || from.accounts[tx.from].balance < tx.amount
    then Phase(L, ctx, false)
    else
      var debited := L.(shards := L.shards[ctx.fromShard := Debit(from, tx)]);
      if fp == CommitAfterDebit then Phase(debited, ctx, false) else
        var to := debited.shards[ctx.toShard];
        var credited := debited.(shards := debited.shards[ctx.toShard := Credit(to, tx.to, tx.amount)]);
        Phase(credited, ctx, fp != CommitAfterCredit)
  }

  function RestoreSource(s: ShardState, data: RollbackData): ShardState {
    if BalanceOf(s, data.from) == data.originalBalance then s else
      s.(accounts := if data.from in s.accounts
                     then s.accounts[data.from := s.accounts[data.from].(balance := data.originalBalance)]
                     else s.accounts,
         nonces := s.nonces[data.from := data.originalNonce])
  }

  function RevokeCredit(s: ShardState, to: Address, amount: u64): ShardState {
    if BalanceOf(s, to) >= amount && to in s.accounts
    then s.(accounts := s.accounts[to := s.accounts[to].(balance := SaturatingSub(s.accounts[to].balance, amount))])
    else s
  }

  function RollbackPhase(L: LedgerState, ctx: CrossTx): LedgerState
    requires Placed(L, ctx)
  {
    var unlocked := Unlock(L, ctx.tx);
    match ctx.rollback
    case None => unlocked
    case Some(data) =>
      var restored := L.shards[ctx.fromShard := RestoreSource(L.shards[ctx.fromShard], data)];
      var revoked := restored[ctx.toShard := RevokeCredit(restored[ctx.toShard], ctx.tx.to, data.amount)];
      unlocked.(shards := revoked)
  }

  function Abort(p: Phase): Phase
    requires Placed(p.ledger, p.ctx)
  {
    Phase(RollbackPhase(p.ledger, p.ctx), p.ctx.(commit := Aborted), false)
  }

  /** Prepare, and commit if prepared. */
  function RunPhases(c: Crypto, L: LedgerState, ctx: CrossTx, fp: FailurePoint): (p: Phase)
    requires Placed(L, ctx)
    ensures |p.ledger.shards| == |L.shards| && Placed(L, p.ctx)
  {
    var prepared := PreparePhase(c, L, ctx.(commit := Preparing), fp);
    if prepared.ok then CommitPhase(prepared.ledger, prepared.ctx.(commit := Committing), fp) else prepared
  }

  /** One attempt at a cross-shard transfer. An entry whose idempotency key is known counts as done. */
  function ExecuteCrossShardCommit(c: Crypto, L: LedgerState, ctx: CrossTx, fp: FailurePoint): (p: Phase)
    requires Placed(L, ctx)
    ensures |p.ledger.shards| == |L.shards|
  {
    if ctx.key in L.keys then Phase(L, ctx, true) else
      var ran := RunPhases(c, L, ctx, fp);
      if !ran.ok then Abort(ran) else
        var L' := Unlock(ran.ledger, ctx.tx);
        Phase(L'.(keys := L'.keys + {ctx.key}), ran.ctx.(commit := Committed), true)
  }

  // ---------------------------------------------------------------- the retry queue

  /**
    The outcome of attempting a list of queue entries once each: `committed` is what goes into the
    block: the transfers that moved funds (`applied`) and the entries that counted as done because
    their key was known (`skipped`). `retained` is what goes back into the queue.
   */
  datatype Drained = Drained(
    ledger: LedgerState, committed: seq<Transaction>, applied: seq<Transaction>, skipped: seq<Transaction>,
    retained: seq<CrossTx>)

  ghost predicate AllPlaced(L: LedgerState, entries: seq<CrossTx>) {
    forall i :: 0 <= i < |entries| ==> Placed(L, entries[i])
  }

  /** Add the outcome p of attempting ctx to what earlier attempts produced. */
  function Absorb(prev: Drained, ctx: CrossTx, p: Phase): Drained {
    if !p.ok then
      prev.(ledger := p.ledger,
            retained := if ctx.retries + 1 < MAX_RETRY_ATTEMPTS
                        then prev.retained + [p.ctx.(retries := ctx.retries + 1)] else prev.retained)
    else if ctx.key in prev.ledger.keys then
      prev.(ledger := p.ledger, committed := prev.committed + [ctx.tx], skipped := prev.skipped + [ctx.tx])
    else
      prev.(ledger := p.ledger, committed := prev.committed + [ctx.tx], applied := prev.applied + [ctx.tx])
  }

  function Drain(c: Crypto, L: LedgerState, entries: seq<CrossTx>): (d: Drained)
    requires AllPlaced(L, entries)
    ensures |d.ledger.shards| == |L.shards|
  {
    if entries == [] then Drained(L, [], [], [], []) else
      var prev := Drain(c, L, entries[..|entries| - 1]);
      var ctx := entries[|entries| - 1];
      Absorb(prev, ctx, ExecuteCrossShardCommit(c, prev.ledger, ctx, NoFailure))
  }

  /** The same with a failure point for each attempt. */
  function DrainWith(c: Crypto, L: LedgerState, entries: seq<CrossTx>, fps: seq<FailurePoint>): (d: Drained)
    requires AllPlaced(L, entries) && |fps| == |entries|
    ensures |d.ledger.shards| == |L.shards|
  {
    if entries == [] then Drained(L, [], [], [], []) else
      var n := |entries| - 1;
      var prev := DrainWith(c, L, entries[..n], fps[..n]);
      Absorb(prev, entries[n], ExecuteCrossShardCommit(c, prev.ledger, entries[n], fps[n]))
  }

  /** Attempt every queued entry once, then put the failed ones back. */
  function ProcessCrossShardQueue(c: Crypto, L: LedgerState): Drained
    requires AllPlaced(L, L.queue)
  {
    var d := Drain(c, L.(queue := []), L.queue);
    d.(ledger := d.ledger.(queue := d.retained))
  }

  function ProcessQueueWith(c: Crypto, L: LedgerState, fps: seq<FailurePoint>): Drained
    requires AllPlaced(L, L.queue) && |fps| == |L.queue|
  {
    var d := DrainWith(c, L.(queue := []), L.queue, fps);
    d.(ledger := d.ledger.(queue := d.retained))
  }
}
