/**
  The sharding coordinator as the node runs it: shards and queue are updated in place, batches and
  the queue are worked off in loops. Every method is proved to take the step that the functions in
  Ledger.dfy and Expansion.dfy describe.
 */
module ShardingCoordinator {
  import opened Common
  import opened Ledger
  import opened Expansion
  import opened LedgerSafety

  datatype TxError = ZeroAmount | InsufficientBalance | InvalidNonce | SenderNotFound

  class Shard {
    const crypto: Crypto
    var state: map<Address, Account>
    var nonceTracker: map<Address, u64>
    var processedCount: nat
    var isHealthy: bool

    constructor (crypto: Crypto)
      ensures this.crypto == crypto && Value() == ShardState(map[], map[], true)
    {
      this.crypto := crypto;
      state, nonceTracker, processedCount, isHealthy := map[], map[], 0, true;
    }

    ghost function Value(): ShardState
      reads this
    {
      ShardState(state, nonceTracker, isHealthy)
    }

    method ValidateTransaction(tx: Transaction) returns (error: Option<TxError>)
      ensures error.None? <==>
              tx.amount != 0 && BalanceOf(Value(), tx.from) >= tx.amount && tx.nonce == NonceOf(Value(), tx.from)
    {
      if tx.amount == 0 {
        return Some(ZeroAmount);
      }
      var senderBalance := if tx.from in state then state[tx.from].balance else 0;
      if senderBalance < tx.amount {
        return Some(InsufficientBalance);
      }
      var expectedNonce := if tx.from in nonceTracker then nonceTracker[tx.from] else 0;
      if tx.nonce != expectedNonce {
        return Some(InvalidNonce);
      }
      return None;
    }

    /** Debit, credit, advance the nonce; on an error nothing changes. */
    method ApplyTransaction(tx: Transaction) returns (error: Option<TxError>)
      modifies this`state, this`nonceTracker
      ensures error.None? <==> tx.from in old(state) && old(state)[tx.from].balance >= tx.amount
      ensures error.None? ==> Value() == Ledger.ApplyTransaction(old(Value()), tx)
      ensures error.Some? ==> Value() == old(Value())
    {
      if tx.from !in state {
        return Some(SenderNotFound);
      }
      if state[tx.from].balance < tx.amount {
        return Some(InsufficientBalance);
      }
      Debit(tx);
      Credit(tx.to, tx.amount);
      return None;
    }

    /** Take the amount from the sender and advance its nonce. */
    method Debit(tx: Transaction)
      requires tx.from in state && state[tx.from].balance >= tx.amount
      modifies this`state, this`nonceTracker
      ensures Value() == Ledger.Debit(old(Value()), tx)
    {
      var sender := state[tx.from];
      state := state[tx.from := sender.(balance := sender.balance - tx.amount)];
      nonceTracker := nonceTracker[tx.from := WrapAdd(tx.nonce, 1)];
    }

    /** Give the amount to the receiver, creating the account if it is missing. */
    method Credit(to: Address, amount: u64)
      modifies this`state
      ensures Value() == Ledger.Credit(old(Value()), to, amount)
    {
      if to in state {
        state := state[to := state[to].(balance := SaturatingAdd(state[to].balance, amount))];
      } else {
        state := state[to := Account(amount, 0)];
      }
    }

    /** Put the captured balance and nonce back if the balance changed. */
    method RestoreSource(data: RollbackData)
      modifies this`state, this`nonceTracker
      ensures Value() == Ledger.RestoreSource(old(Value()), data)
    {
      var current := if data.from in state then state[data.from].balance else 0;
      if current != data.originalBalance {
        if data.from in state {
          state := state[data.from := state[data.from].(balance := data.originalBalance)];
        }
        nonceTracker := nonceTracker[data.from := data.originalNonce];
      }
    }

    /** Take the amount back from a receiver that holds at least that much. */
    method RevokeCredit(to: Address, amount: u64)
      modifies this`state
      ensures Value() == Ledger.RevokeCredit(old(Value()), to, amount)
    {
      var held := if to in state then state[to].balance else 0;
      if held >= amount && to in state {
        state := state[to := state[to].(balance := SaturatingSub(state[to].balance, amount))];
      }
    }

    method ProcessTransactions(txs: seq<Transaction>) returns (processed: seq<Transaction>)
      modifies this
      ensures Value() == RunBatch(crypto, old(Value()), txs).shard
      ensures processed == RunBatch(crypto, old(Value()), txs).processed
      ensures processedCount == old(processedCount) + |processed|
    {
      processed := [];
      for i := 0 to |txs|
        invariant Batch(Value(), processed) == RunBatch(crypto, old(Value()), txs[..i])
        invariant processedCount == old(processedCount)
      {
        assert txs[..i + 1][..i] == txs[..i];
        var invalid := ValidateTransaction(txs[i]);
        if invalid.None? && SignatureOk(crypto, txs[i]) {
          var failed := ApplyTransaction(txs[i]);
          if failed.None? {
            processed := processed + [txs[i]];
          }
        }
      }
      assert txs[..|txs|] == txs;
      processedCount := processedCount + |processed|;
    }
  }

  class Coordinator {
    const crypto: Crypto
    var config: Config
    var shards: seq<Shard>
    var crossShardQueue: seq<CrossTx>
    var txLocks: set<LockKey>
    var processedKeys: set<Key>

    ghost predicate Valid()
      reads this, shards
    {
      && |shards| == config.shardCount > 0
      && (forall i :: 0 <= i < |shards| ==> shards[i].crypto == crypto)
      && forall i, j :: 0 <= i < j < |shards| ==> shards[i] != shards[j]
    }

    ghost function Value(): LedgerState
      reads this, shards
    {
      LedgerState(config, Values(shards), crossShardQueue, txLocks, processedKeys)
    }

    /** The state without the queue, which no attempt reads or writes. */
    ghost function Core(): LedgerState
      reads this, shards
    {
      LedgerState(config, Values(shards), [], txLocks, processedKeys)
    }

    constructor (crypto: Crypto, config: Config)
      requires ValidConfig(config)
      ensures Valid() && this.crypto == crypto && fresh(shards)
      ensures Value() == LedgerState(config, seq(config.shardCount, _ => ShardState(map[], map[], true)), [], {}, {})
    {
      this.crypto, this.config := crypto, config;
      crossShardQueue, txLocks, processedKeys := [], {}, {};
      var created := NewShards(crypto, config.shardCount);
      shards := created;
    }

    /** Split a batch into same-shard groups and cross-shard entries. */
    method ClassifyTransactions(txs: seq<Transaction>) returns (sameShard: map<nat, seq<Transaction>>, cross: seq<CrossTx>)
      requires config.shardCount > 0
      ensures forall s: nat :: s in sameShard <==> s < config.shardCount && Group(crypto, txs, config.shardCount, s) != []
      ensures forall s :: s in sameShard ==> sameShard[s] == Group(crypto, txs, config.shardCount, s)
      ensures cross == CrossGroup(crypto, config, txs)
    {
      sameShard, cross := map[], [];
      for i := 0 to |txs|
        invariant forall s: nat :: s in sameShard <==> s < config.shardCount && Group(crypto, txs[..i], config.shardCount, s) != []
        invariant forall s :: s in sameShard ==> sameShard[s] == Group(crypto, txs[..i], config.shardCount, s)
        invariant cross == CrossGroup(crypto, config, txs[..i])
      {
        assert txs[..i + 1][..i] == txs[..i];
        var fromShard := ShardOf(crypto, txs[i].from, config.shardCount);
        var toShard := ShardOf(crypto, txs[i].to, config.shardCount);
        if fromShard == toShard {
          var group := if fromShard in sameShard then sameShard[fromShard] else [];
          sameShard := sameShard[fromShard := group + [txs[i]]];
        } else if config.crossShardEnabled {
          cross := cross + [NewCrossTx(crypto, txs[i], config.shardCount)];
        }
      }
      assert txs[..|txs|] == txs;
    }

    /**
      Queue the cross-shard transactions and run the same-shard groups, which may finish in any order:
      the map is visited in no particular order.
     */
    method ProcessParallel(txs: seq<Transaction>) returns (processed: seq<Transaction>, ghost order: seq<nat>)
      requires Valid()
      modifies this`crossShardQueue, shards
      ensures Valid() && shards == old(shards)
      ensures IsGroupOrder(crypto, txs, config.shardCount, order)
      ensures (Value(), processed) == Ledger.ProcessParallel(crypto, old(Value()), txs, order)
    {
      var sameShard, cross := ClassifyTransactions(txs);
      crossShardQueue := crossShardQueue + cross;
      processed, order := RunSameShard(sameShard, txs);
    }

    /** Every group is run by its own shard; the map is visited in no particular order. */
    method RunSameShard(sameShard: map<nat, seq<Transaction>>, ghost txs: seq<Transaction>)
      returns (processed: seq<Transaction>, ghost order: seq<nat>)
      requires Valid()
      requires forall s: nat :: s in sameShard <==> s < |shards| && Group(crypto, txs, |shards|, s) != []
      requires forall s :: s in sameShard ==> sameShard[s] == Group(crypto, txs, |shards|, s)
      modifies shards
      ensures Valid() && IsGroupOrder(crypto, txs, |shards|, order)
      ensures Groups(Values(shards), processed) == RunGroups(crypto, old(Values(shards)), txs, order)
    {
      processed, order := [], [];
      ghost var before := Values(shards);
      ghost var g := Groups(before, []);
      var remaining := sameShard.Keys;
      while remaining != {}
        invariant IsSplit(sameShard.Keys, order, remaining)
        invariant InRange(order, |before|) && g == RunGroups(crypto, before, txs, order)
        invariant Values(shards) == g.shards && processed == g.processed
        decreases |remaining|
      {
        var s :| s in remaining;
        var batch := shards[s].ProcessTransactions(sameShard[s]);
        shards[s].isHealthy := true;
        OneShardChanged(shards, g.shards, s);
        g := RunGroupsSnoc(crypto, before, txs, order, s);
        processed := processed + batch;
        order := SplitStep(sameShard.Keys, order, remaining, s);
        remaining := remaining - {s};
      }
    }

    /** Health, funds, nonce and signature at the source; captures what rollback needs and takes the lock. */
    method PreparePhase(ctx: CrossTx, fp: FailurePoint) returns (ctx': CrossTx, ok: bool)
      requires Valid() && Placed(Core(), ctx)
      modifies this`txLocks
      ensures Phase(Core(), ctx', ok) == Ledger.PreparePhase(crypto, old(Core()), ctx, fp)
    {
      ctx', ok := ctx, false;
      var tx := ctx.tx;
      if LockOf(tx) in txLocks {
        return;
      }
      txLocks := txLocks + {LockOf(tx)};
      if fp == PrepareBeforeCapture {
        return;
      }
      var from := shards[ctx.fromShard];
      if !from.isHealthy || !shards[ctx.toShard].isHealthy {
        txLocks := txLocks - {LockOf(tx)};
        return;
      }
      if tx.from !in from.state {
        return;  // the lock stays until rollback releases it
      }
      var senderBalance := from.state[tx.from].balance;
      var senderNonce := if tx.from in from.nonceTracker then from.nonceTracker[tx.from] else 0;
      if senderBalance < tx.amount || tx.nonce != senderNonce || !SignatureOk(crypto, tx) {
        txLocks := txLocks - {LockOf(tx)};
        return;
      }
      ctx' := ctx.(rollback := Some(RollbackData(tx.from, senderBalance, senderNonce, tx.amount)));
      ok := fp != PrepareAfterCapture;
    }

    /** Debit the source shard, then credit the destination shard. */
    method CommitPhase(ctx: CrossTx, fp: FailurePoint) returns (ok: bool)
      requires Valid() && Placed(Core(), ctx)
      modifies shards
      ensures Valid()
      ensures Phase(Core(), ctx, ok) == Ledger.CommitPhase(old(Core()), ctx, fp)
    {
      var tx, from := ctx.tx, shards[ctx.fromShard];
      if fp == CommitBeforeDebit || tx.from !in from.state || from.state[tx.from].balance < tx.amount {
        return false;
      }
      ghost var values := Values(shards);
      from.Debit(tx);
      OneShardChanged(shards, values, ctx.fromShard);
      if fp == CommitAfterDebit {
        return false;
      }
      values := Values(shards);
      shards[ctx.toShard].Credit(tx.to, tx.amount);
      OneShardChanged(shards, values, ctx.toShard);
      return fp != CommitAfterCredit;
    }

    /** Release the lock; with captured data, restore the source and take the amount back from the destination. */
    method RollbackPhase(ctx: CrossTx)
      requires Valid() && Placed(Core(), ctx)
      modifies this`txLocks, shards
      ensures Valid()
      ensures Core() == Ledger.RollbackPhase(old(Core()), ctx)
    {
      txLocks := txLocks - {LockOf(ctx.tx)};
      if ctx.rollback.None? {
        return;
      }
      ghost var values := Values(shards);
      shards[ctx.fromShard].RestoreSource(ctx.rollback.value);
      OneShardChanged(shards, values, ctx.fromShard);
      values := Values(shards);
      shards[ctx.toShard].RevokeCredit(ctx.tx.to, ctx.rollback.value.amount);
      OneShardChanged(shards, values, ctx.toShard);
    }

    /** Prepare, and commit if prepared. */
    method RunPhases(ctx: CrossTx, fp: FailurePoint) returns (ctx': CrossTx, ok: bool)
      requires Valid() && Placed(Core(), ctx)
      modifies this`txLocks, shards
      ensures Valid()
      ensures Phase(Core(), ctx', ok) == Ledger.RunPhases(crypto, old(Core()), ctx, fp)
    {
      ctx', ok := PreparePhase(ctx.(commit := Preparing), fp);
      if ok {
        ctx' := ctx'.(commit := Committing);
        ok := CommitPhase(ctx', fp);
      }
    }

    /** Skip known keys; otherwise run both phases, roll back on failure, record the key on success. */
    method ExecuteCrossShardCommit(ctx: CrossTx, fp: FailurePoint) returns (ctx': CrossTx, ok: bool)
      requires Valid() && Placed(Core(), ctx)
      modifies this`txLocks, this`processedKeys, shards
      ensures Valid()
      ensures Phase(Core(), ctx', ok) == Ledger.ExecuteCrossShardCommit(crypto, old(Core()), ctx, fp)
    {
      if ctx.key in processedKeys {
        return ctx, true;
      }
      ctx', ok := RunPhases(ctx, fp);
      if !ok {
        RollbackPhase(ctx');
        return ctx'.(commit := Aborted), false;
      }
      processedKeys := processedKeys + {ctx.key};
      txLocks := txLocks - {LockOf(ctx.tx)};
      return ctx'.(commit := Committed), true;
    }

    /** Take the front entry off the queue and attempt it once. */
    method AttemptFront(committed: seq<Transaction>, failed: seq<CrossTx>, fp: FailurePoint, ghost prev: Drained)
      returns (committed': seq<Transaction>, failed': seq<CrossTx>)
      requires Valid() && crossShardQueue != [] && Placed(Core(), crossShardQueue[0])
      requires Core() == prev.ledger && committed == prev.committed && failed == prev.retained
      modifies this`crossShardQueue, this`txLocks, this`processedKeys, shards
      ensures Valid() && crossShardQueue == old(crossShardQueue)[1..]
      ensures var ctx := old(crossShardQueue)[0];
              var d := Absorb(prev, ctx, Ledger.ExecuteCrossShardCommit(crypto, prev.ledger, ctx, fp));
              Core() == d.ledger && committed' == d.committed && failed' == d.retained
    {
      var ctx := crossShardQueue[0];
      crossShardQueue := crossShardQueue[1..];
      committed', failed' := committed, failed;
      var ctx', ok := ExecuteCrossShardCommit(ctx, fp);
      if ok {
        committed' := committed + [ctx.tx];
      } else if ctx.retries + 1 < MAX_RETRY_ATTEMPTS {
        failed' := failed + [ctx'.(retries := ctx.retries + 1)];
      }
    }

    /**
      Attempt every queued entry once, each with its own failure point; failed entries go back into the
      queue until their third failure.
     */
    method ProcessCrossShardQueue(fps: seq<FailurePoint>) returns (committed: seq<Transaction>)
      requires Valid() && AllPlaced(Core(), crossShardQueue) && |fps| == |crossShardQueue|
      modifies this`crossShardQueue, this`txLocks, this`processedKeys, shards
      ensures Valid()
      ensures Value() == ProcessQueueWith(crypto, old(Value()), fps).ledger
      ensures committed == ProcessQueueWith(crypto, old(Value()), fps).committed
    {
      ghost var entries, start := crossShardQueue, Core();
      ghost var d := Drained(start, [], [], [], []);
      var done: nat := 0;
      committed := [];
      var failed: seq<CrossTx> := [];
      while crossShardQueue != []
        invariant done <= |entries| && crossShardQueue == entries[done..]
        invariant Valid() && AllPlaced(start, entries)
        invariant d == DrainWith(crypto, start, entries[..done], fps[..done])
        invariant Core() == d.ledger && committed == d.committed && failed == d.retained
        decreases |crossShardQueue|
      {
        committed, failed := AttemptFront(committed, failed, fps[done], d);
        d := DrainSnoc(crypto, start, entries, fps, done);
        done := done + 1;
      }
      assert entries[..done] == entries && fps[..done] == fps;
      crossShardQueue := failed;
    }

    /** Collect all accounts, place them in freshly made shards, swap the shards in. */
    method ExpandShards(additional: nat)
      requires Valid() && ValidConfig(config)
      modifies this`config, this`shards
      ensures Valid() && (shards == old(shards) || fresh(shards))
      ensures Value() == Expansion.ExpandShards(crypto, old(Value()), additional)
    {
      var newCount := Min(config.shardCount + additional, config.maxShards);
      if newCount == config.shardCount {
        return;
      }
      GrowTo(newCount);
    }

    method GrowTo(newCount: nat)
      requires Valid() && newCount > 0
      modifies this`config, this`shards
      ensures Valid() && fresh(shards)
      ensures Value() == old(Value()).(config := old(config).(shardCount := newCount),
                                       shards := Redistributed(crypto, AllAccounts(old(Values(shards))), newCount))
    {
      var allAccounts := CollectAccounts(shards);
      var newShards := BuildShards(crypto, allAccounts, newCount);
      shards := newShards;
      config := config.(shardCount := newCount);
    }

    /** Create or overwrite an account in its home shard. */
    method InitAccount(address: Address, balance: u64)
      requires Valid()
      modifies shards
      ensures Valid()
      ensures var s := ShardOf(crypto, address, config.shardCount);
              var home := old(Value()).shards[s];
              Value() == old(Value()).(shards := old(Value()).shards[s := home.(
                accounts := home.accounts[address := Account(balance, 0)], nonces := home.nonces[address := 0])])
    {
      var s := ShardOf(crypto, address, config.shardCount);
      shards[s].state := shards[s].state[address := Account(balance, 0)];
      shards[s].nonceTracker := shards[s].nonceTracker[address := 0];
      assert Values(shards) == old(Values(shards))[s := shards[s].Value()];
    }

    method GetBalance(address: Address) returns (balance: u64)
      requires Valid()
      ensures balance == Expansion.GetBalance(crypto, Value(), address)
    {
      var shard := shards[ShardOf(crypto, address, config.shardCount)];
      balance := if address in shard.state then shard.state[address].balance else 0;
    }
  }

  ghost function Values(shards: seq<Shard>): (values: seq<ShardState>)
    reads shards
    ensures |values| == |shards| && forall i :: 0 <= i < |shards| ==> values[i] == shards[i].Value()
  {
    seq(|shards|, i requires 0 <= i < |shards| reads shards => shards[i].Value())
  }

  /** The keys visited so far, in order and without repeats, and the keys still to visit. */
  ghost predicate IsSplit(keys: set<nat>, order: seq<nat>, remaining: set<nat>) {
    && remaining <= keys
    && (forall s :: s in keys ==> s in order || s in remaining)
    && (forall i :: 0 <= i < |order| ==> order[i] in keys && order[i] !in remaining)
    && (forall i, j :: 0 <= i < j < |order| ==> order[i] != order[j])
  }

  lemma SplitStep(keys: set<nat>, order: seq<nat>, remaining: set<nat>, s: nat) returns (order': seq<nat>)
    requires IsSplit(keys, order, remaining) && s in remaining
    ensures order' == order + [s] && IsSplit(keys, order', remaining - {s})
  {
    order' := order + [s];
    forall k | k in keys ensures k in order' || k in remaining - {s} {
      if k in order {
        assert k in order';
      } else if k == s {
        assert order'[|order|] == s;
      }
    }
  }

  lemma RunGroupsSnoc(c: Crypto, shards: seq<ShardState>, txs: seq<Transaction>, order: seq<nat>, s: nat) returns (g: Groups)
    requires s < |shards| && InRange(order, |shards|)
    ensures InRange(order + [s], |shards|) && g == RunGroups(c, shards, txs, order + [s])
    ensures var prev := RunGroups(c, shards, txs, order);
            var batch := RunBatch(c, prev.shards[s], Group(c, txs, |shards|, s));
            g == Groups(prev.shards[s := batch.shard.(healthy := true)], prev.processed + batch.processed)
  {
    g := RunGroups(c, shards, txs, order + [s]);
    assert (order + [s])[..|order|] == order;
  }

  lemma DrainSnoc(c: Crypto, L: LedgerState, entries: seq<CrossTx>, fps: seq<FailurePoint>, k: nat) returns (d: Drained)
    requires k < |entries| == |fps| && AllPlaced(L, entries)
    ensures d == DrainWith(c, L, entries[..k + 1], fps[..k + 1])
    ensures var prev := DrainWith(c, L, entries[..k], fps[..k]);
            d == Absorb(prev, entries[k], ExecuteCrossShardCommit(c, prev.ledger, entries[k], fps[k]))
  {
    assert entries[..k + 1][..k] == entries[..k] && fps[..k + 1][..k] == fps[..k];
    d := DrainWith(c, L, entries[..k + 1], fps[..k + 1]);
  }

  lemma OneShardChanged(shards: seq<Shard>, before: seq<ShardState>, i: nat)
    requires i < |shards| == |before|
    requires forall j :: 0 <= j < |shards| && j != i ==> shards[j].Value() == before[j]
    ensures Values(shards) == before[i := shards[i].Value()]
  {
  }

  method NewShards(crypto: Crypto, count: nat) returns (created: seq<Shard>)
    ensures |created| == count && fresh(created)
    ensures forall k :: 0 <= k < count ==> created[k].crypto == crypto
    ensures forall k :: 0 <= k < count ==> created[k].Value() == ShardState(map[], map[], true)
    ensures forall k, l :: 0 <= k < l < count ==> created[k] != created[l]
  {
    created := [];
    for i := 0 to count
      invariant |created| == i && fresh(created)
      invariant forall k :: 0 <= k < i ==> created[k].crypto == crypto
      invariant forall k :: 0 <= k < i ==> created[k].Value() == ShardState(map[], map[], true)
      invariant forall k, l :: 0 <= k < l < i ==> created[k] != created[l]
    {
      var shard := new Shard(crypto);
      created := created + [shard];
    }
  }

  method CollectAccounts(shards: seq<Shard>) returns (all: map<Address, Account>)
    ensures all == AllAccounts(Values(shards))
  {
    all := map[];
    for i := 0 to |shards|
      invariant all == AllAccounts(Values(shards)[..i])
    {
      assert Values(shards)[..i + 1][..i] == Values(shards)[..i];
      all := all + shards[i].state;
    }
    assert Values(shards)[..|shards|] == Values(shards);
  }

  method BuildShards(crypto: Crypto, all: map<Address, Account>, count: nat) returns (created: seq<Shard>)
    requires count > 0
    ensures |created| == count && fresh(created)
    ensures forall k :: 0 <= k < count ==> created[k].crypto == crypto
    ensures forall k, l :: 0 <= k < l < count ==> created[k] != created[l]
    ensures Values(created) == Redistributed(crypto, all, count)
  {
    created := NewShards(crypto, count);
    Redistribute(crypto, created, all);
  }

  /** Put every account into the shard it hashes to, visiting the map in no particular order. */
  method Redistribute(c: Crypto, shards: seq<Shard>, all: map<Address, Account>)
    requires |shards| > 0
    requires forall i :: 0 <= i < |shards| ==> shards[i].Value() == ShardState(map[], map[], true)
    requires forall i, j :: 0 <= i < j < |shards| ==> shards[i] != shards[j]
    modifies shards
    ensures forall i :: 0 <= i < |shards| ==> shards[i].Value() == ShardState(Part(c, all, |shards|, i), map[], true)
  {
    var remaining := all.Keys;
    ghost var placed: map<Address, Account> := map[];
    while remaining != {}
      invariant remaining <= all.Keys
      invariant placed == map a | a in all && a !in remaining :: all[a]
      invariant forall i :: 0 <= i < |shards| ==> shards[i].Value() == ShardState(Part(c, placed, |shards|, i), map[], true)
      decreases |remaining|
    {
      var a :| a in remaining;
      var s := ShardOf(c, a, |shards|);
      shards[s].state := shards[s].state[a := all[a]];
      remaining := remaining - {a};
      placed := placed[a := all[a]];
    }
    assert placed == all;
  }
}
