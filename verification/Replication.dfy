/**
  Replication: a follower that executes the transactions of a block reaches the accounts, nonces and
  idempotency keys of the proposer that built it. No state root is ever compared, so everything
  rests on this.
 */
module Replication {
  import opened Common
  import opened Ledger
  import opened LedgerSafety
  import opened TwoPhaseCommit

  datatype Produced = Produced(ledger: LedgerState, processed: seq<Transaction>, drained: Drained)

  /** The transactions that go into the block: same-shard results first, then the queue's results. */
  function BlockTransactions(p: Produced): seq<Transaction> {
    p.processed + p.drained.committed
  }

  /** What a node does to its ledger while producing a block, and also while applying one. */
  ghost function Execute(c: Crypto, L: LedgerState, txs: seq<Transaction>, order: seq<nat>): Produced
    requires Invariant(c, L) && IsGroupOrder(c, txs, L.config.shardCount, order)
  {
    var (L', processed) := ProcessParallel(c, L, txs, order);
    SubmitKeepsInvariant(c, L, txs, order);
    DrainIsSafe(c, L'.(queue := []), L'.queue);
    var d := ProcessCrossShardQueue(c, L');
    Produced(d.ledger, processed, d)
  }

  lemma SubmitKeepsInvariant(c: Crypto, L: LedgerState, txs: seq<Transaction>, order: seq<nat>)
    requires Invariant(c, L) && IsGroupOrder(c, txs, L.config.shardCount, order)
    ensures Invariant(c, ProcessParallel(c, L, txs, order).0)
  {
    GroupsKeep(c, L.shards, txs, order);
    CrossGroupOk(c, L.config, txs);
  }

  lemma ExecuteKeepsInvariant(c: Crypto, L: LedgerState, txs: seq<Transaction>, order: seq<nat>)
    requires Invariant(c, L) && IsGroupOrder(c, txs, L.config.shardCount, order)
    ensures Invariant(c, Execute(c, L, txs, order).ledger)
  {
    SubmitKeepsInvariant(c, L, txs, order);
    var L' := ProcessParallel(c, L, txs, order).0;
    DrainIsSafe(c, L'.(queue := []), L'.queue);
  }

  /** The two halves of an execution, spelled out. */
  lemma ExecuteUnfolds(c: Crypto, L: LedgerState, txs: seq<Transaction>, order: seq<nat>)
    requires Invariant(c, L) && IsGroupOrder(c, txs, L.config.shardCount, order)
    ensures var groups := RunGroups(c, L.shards, txs, order);
            var queue := L.queue + CrossGroup(c, L.config, txs);
            var middle := L.(shards := groups.shards, queue := []);
            var p := Execute(c, L, txs, order);
            && Invariant(c, middle) && EntriesOk(c, |L.shards|, queue) && AllPlaced(middle, queue)
            && p.processed == groups.processed
            && p.ledger == Drain(c, middle, queue).ledger.(queue := p.drained.retained)
            && p.drained == Drain(c, middle, queue).(ledger := p.ledger)
  {
    SubmitKeepsInvariant(c, L, txs, order);
    var L' := ProcessParallel(c, L, txs, order).0;
    DrainIsSafe(c, L'.(queue := []), L'.queue);
  }

  lemma ExecuteKeepsSupply(c: Crypto, L: LedgerState, txs: seq<Transaction>, order: seq<nat>)
    requires Invariant(c, L) && IsGroupOrder(c, txs, L.config.shardCount, order) && Supply(L.shards) <= U64_MAX
    ensures Supply(Execute(c, L, txs, order).ledger.shards) == Supply(L.shards)
  {
    ExecuteUnfolds(c, L, txs, order);
    GroupsKeep(c, L.shards, txs, order);
    var middle := L.(shards := RunGroups(c, L.shards, txs, order).shards, queue := []);
    DrainIsSafe(c, middle, L.queue + CrossGroup(c, L.config, txs));
  }

  // ---------------------------------------------------------------- same-shard groups replay

  /** Running only the accepted transactions of a batch again accepts all of them and ends alike. */
  lemma {:induction false} BatchReplays(c: Crypto, s: ShardState, txs: seq<Transaction>)
    ensures RunBatch(c, s, RunBatch(c, s, txs).processed) == RunBatch(c, s, txs)
  {
    if txs != [] {
      BatchReplays(c, s, txs[..|txs| - 1]);
      var prev := RunBatch(c, s, txs[..|txs| - 1]);
      var tx := txs[|txs| - 1];
      assert (prev.processed + [tx])[..|prev.processed|] == prev.processed;
    }
  }

  lemma {:induction false} GroupConcat(c: Crypto, l: seq<Transaction>, m: seq<Transaction>, n: nat, s: nat)
    requires n > 0
    ensures Group(c, l + m, n, s) == Group(c, l, n, s) + Group(c, m, n, s)
    decreases |m|
  {
    if m == [] {
      assert l + m == l;
    } else {
      assert (l + m)[..|l + m| - 1] == l + m[..|m| - 1];
      GroupConcat(c, l, m[..|m| - 1], n, s);
    }
  }

  lemma {:induction false} CrossGroupConcat(c: Crypto, cfg: Config, l: seq<Transaction>, m: seq<Transaction>)
    requires cfg.shardCount > 0
    ensures CrossGroup(c, cfg, l + m) == CrossGroup(c, cfg, l) + CrossGroup(c, cfg, m)
    decreases |m|
  {
    if m == [] {
      assert l + m == l;
    } else {
      assert (l + m)[..|l + m| - 1] == l + m[..|m| - 1];
      CrossGroupConcat(c, cfg, l, m[..|m| - 1]);
    }
  }

  lemma {:induction false} GroupOfOwn(c: Crypto, txs: seq<Transaction>, n: nat, home: nat, s: nat)
    requires n > 0 && AllSameShard(c, txs, n, home)
    ensures Group(c, txs, n, s) == if s == home then txs else []
  {
    if txs != [] {
      GroupOfOwn(c, txs[..|txs| - 1], n, home, s);
      assert IsSameShard(c, txs[|txs| - 1], n, home);
    }
  }

  lemma {:induction false} CrossGroupOfOwn(c: Crypto, cfg: Config, txs: seq<Transaction>, home: nat)
    requires cfg.shardCount > 0 && AllSameShard(c, txs, cfg.shardCount, home)
    ensures CrossGroup(c, cfg, txs) == []
  {
    if txs != [] {
      CrossGroupOfOwn(c, cfg, txs[..|txs| - 1], home);
      assert IsSameShard(c, txs[|txs| - 1], cfg.shardCount, home);
    }
  }

  ghost predicate Distinct(order: seq<nat>) {
    forall i, j :: 0 <= i < j < |order| ==> order[i] != order[j]
  }

  /** The batch of shard s, run from the state before the block. */
  function BatchOf(c: Crypto, shards: seq<ShardState>, txs: seq<Transaction>, s: nat): Batch
    requires s < |shards|
  {
    RunBatch(c, shards[s], Group(c, txs, |shards|, s))
  }

  /** One more group, of a shard that has not run yet. */
  lemma OneMoreGroup(c: Crypto, shards: seq<ShardState>, txs: seq<Transaction>, front: seq<nat>, last: nat, s: nat)
    requires |shards| > 0 && s < |shards| && last < |shards| && InRange(front, |shards|) && InRange(front + [last], |shards|)
    requires HomePlaced(c, shards) && AllHealthy(shards)
    requires RunGroups(c, shards, txs, front).shards[last] == shards[last]
    ensures var prev, g, batch := RunGroups(c, shards, txs, front), RunGroups(c, shards, txs, front + [last]), BatchOf(c, shards, txs, last);
            && g.shards == prev.shards[last := batch.shard]
            && Group(c, g.processed, |shards|, s)
               == Group(c, prev.processed, |shards|, s) + if s == last then batch.processed else []
  {
    var prev, batch := RunGroups(c, shards, txs, front), BatchOf(c, shards, txs, last);
    assert (front + [last])[..|front|] == front;
    GroupIsSameShard(c, txs, |shards|, last);
    BatchKeeps(c, shards, last, Group(c, txs, |shards|, last));
    assert batch.shard.(healthy := true) == batch.shard;
    GroupConcat(c, prev.processed, batch.processed, |shards|, s);
    GroupOfOwn(c, batch.processed, |shards|, last, s);
  }

  /**
    Groups in any order: each shard ends as its own batch leaves it, and the reported transactions of
    each shard are exactly its accepted ones.
   */
  lemma {:induction false} GroupsByShard(c: Crypto, shards: seq<ShardState>, txs: seq<Transaction>, order: seq<nat>, s: nat)
    requires |shards| > 0 && s < |shards| && InRange(order, |shards|) && Distinct(order)
    requires HomePlaced(c, shards) && AllHealthy(shards)
    ensures var g := RunGroups(c, shards, txs, order);
            && g.shards[s] == (if s in order then BatchOf(c, shards, txs, s).shard else shards[s])
            && Group(c, g.processed, |shards|, s) == if s in order then BatchOf(c, shards, txs, s).processed else []
  {
    if order != [] {
      var front, last := order[..|order| - 1], order[|order| - 1];
      assert order == front + [last];
      GroupsByShard(c, shards, txs, front, s);
      GroupsByShard(c, shards, txs, front, last);
      assert last !in front;
      OneMoreGroup(c, shards, txs, front, last, s);
    }
  }

  lemma {:induction false} GroupsAreNotCross(c: Crypto, cfg: Config, shards: seq<ShardState>, txs: seq<Transaction>, order: seq<nat>)
    requires |shards| == cfg.shardCount > 0 && InRange(order, |shards|)
    ensures CrossGroup(c, cfg, RunGroups(c, shards, txs, order).processed) == []
  {
    if order != [] {
      var front, last := order[..|order| - 1], order[|order| - 1];
      GroupsAreNotCross(c, cfg, shards, txs, front);
      var prev := RunGroups(c, shards, txs, front);
      var group := Group(c, txs, |shards|, last);
      GroupIsSameShard(c, txs, |shards|, last);
      ProcessedIsSameShard(c, prev.shards[last], group, |shards|, last);
      var processed := RunBatch(c, prev.shards[last], group).processed;
      CrossGroupOfOwn(c, cfg, processed, last);
      CrossGroupConcat(c, cfg, prev.processed, processed);
    }
  }

  lemma {:induction false} ProcessedIsSameShard(c: Crypto, s: ShardState, txs: seq<Transaction>, n: nat, home: nat)
    requires n > 0 && AllSameShard(c, txs, n, home)
    ensures AllSameShard(c, RunBatch(c, s, txs).processed, n, home)
  {
    if txs != [] {
      ProcessedIsSameShard(c, s, txs[..|txs| - 1], n, home);
      assert IsSameShard(c, txs[|txs| - 1], n, home);
    }
  }

  // ---------------------------------------------------------------- the queue replays

  /** Every committed entry is a cross-shard transaction, and cross-shard transfers are enabled. */
  lemma {:induction false} CommittedIsCross(c: Crypto, L: LedgerState, entries: seq<CrossTx>)
    requires |L.shards| > 0 && EntriesOk(c, |L.shards|, entries) && AllPlaced(L, entries)
    ensures AllCross(c, Drain(c, L, entries).committed, |L.shards|)
  {
    if entries != [] {
      var front, e := entries[..|entries| - 1], entries[|entries| - 1];
      CommittedIsCross(c, L, front);
      assert EntryOk(c, |L.shards|, e);
      assert Drain(c, L, entries).committed == Drain(c, L, front).committed
          || Drain(c, L, entries).committed == Drain(c, L, front).committed + [e.tx];
    }
  }

  ghost predicate AllCross(c: Crypto, txs: seq<Transaction>, n: nat)
    requires n > 0
  {
    forall i :: 0 <= i < |txs| ==> IsCrossShard(c, txs[i], n)
  }

  lemma {:induction false} GroupOfCross(c: Crypto, txs: seq<Transaction>, n: nat, s: nat)
    requires n > 0 && AllCross(c, txs, n)
    ensures Group(c, txs, n, s) == []
  {
    if txs != [] {
      GroupOfCross(c, txs[..|txs| - 1], n, s);
      assert IsCrossShard(c, txs[|txs| - 1], n);
    }
  }

  /** Two ledgers between which no query or key check can tell. */
  ghost predicate Alike(P: LedgerState, F: LedgerState) {
    P.shards == F.shards && P.keys == F.keys && P.locks == F.locks == {}
  }

  /** What one ledger commits, the other commits from a fresh entry. */
  lemma ReplayAttempt(c: Crypto, P: LedgerState, F: LedgerState, e: CrossTx)
    requires Alike(P, F) && InOrder(c, P) && EntryOk(c, |P.shards|, e)
    ensures var p, entry := ExecuteCrossShardCommit(c, P, e, NoFailure), NewCrossTx(c, e.tx, |P.shards|);
            && entry.key == e.key
            && (!p.ok ==> p.ledger == P)
            && (p.ok ==> var f := ExecuteCrossShardCommit(c, F, entry, NoFailure); f.ok && Alike(p.ledger, f.ledger))
  {
    CommitIsAtomic(c, P, e);
    CommitIsAtomic(c, F, NewCrossTx(c, e.tx, |P.shards|));
  }

  /** The fresh entries for one more committed transaction. */
  lemma OneMoreCross(c: Crypto, cfg: Config, txs: seq<Transaction>, tx: Transaction)
    requires cfg.shardCount > 0 && IsCrossShard(c, tx, cfg.shardCount) && cfg.crossShardEnabled
    ensures CrossGroup(c, cfg, txs + [tx]) == CrossGroup(c, cfg, txs) + [NewCrossTx(c, tx, cfg.shardCount)]
  {
    assert (txs + [tx])[..|txs|] == txs;
  }

  lemma DrainOneMore(c: Crypto, L: LedgerState, entries: seq<CrossTx>, e: CrossTx)
    requires AllPlaced(L, entries) && Placed(L, e)
    ensures AllPlaced(L, entries + [e])
    ensures var prev := Drain(c, L, entries);
            Drain(c, L, entries + [e]) == Absorb(prev, e, ExecuteCrossShardCommit(c, prev.ledger, e, NoFailure))
  {
    assert (entries + [e])[..|entries|] == entries;
  }

  ghost predicate SameOutcome(p: Drained, f: Drained) {
    Alike(p.ledger, f.ledger) && f.committed == p.committed && f.applied == p.applied && f.skipped == p.skipped && f.retained == []
  }

  /**
    Two ledgers with the same shards and keys: the follower's pass over fresh entries for what the
    proposer committed commits all of them, retains nothing, and leaves the same shards and keys.
   */
  lemma {:induction false} DrainReplays(c: Crypto, P: LedgerState, F: LedgerState, entries: seq<CrossTx>)
    requires P.config == F.config && P.config.crossShardEnabled && |P.shards| == P.config.shardCount
    requires InOrder(c, P) && Alike(P, F)
    requires EntriesOk(c, |P.shards|, entries) && AllPlaced(P, entries)
    requires AllPlaced(F, CrossGroup(c, F.config, Drain(c, P, entries).committed))
    ensures SameOutcome(Drain(c, P, entries), Drain(c, F, CrossGroup(c, F.config, Drain(c, P, entries).committed)))
  {
    if entries != [] {
      var front, e := entries[..|entries| - 1], entries[|entries| - 1];
      var prev := Drain(c, P, front);
      var again := CrossGroup(c, F.config, prev.committed);
      CrossGroupOk(c, F.config, prev.committed);
      PlacedIfOk(c, F, again);
      DrainReplays(c, P, F, front);
      DrainIsSafe(c, P, front);
      assert EntryOk(c, |P.shards|, e);
      ReplayAttempt(c, prev.ledger, Drain(c, F, again).ledger, e);
      if ExecuteCrossShardCommit(c, prev.ledger, e, NoFailure).ok {
        OneMoreCross(c, F.config, prev.committed, e.tx);
        DrainOneMore(c, F, again, NewCrossTx(c, e.tx, F.config.shardCount));
      }
    }
  }

  lemma PlacedIfOk(c: Crypto, L: LedgerState, entries: seq<CrossTx>)
    requires L.config.shardCount == |L.shards| > 0 && EntriesOk(c, |L.shards|, entries)
    ensures AllPlaced(L, entries)
  {
  }

  // ---------------------------------------------------------------- the theorem

  /** Same layout, same accounts, nonces and health, same idempotency keys. Queues may differ. */
  ghost predicate SameLedger(P: LedgerState, F: LedgerState) {
    P.config == F.config && P.shards == F.shards && P.keys == F.keys
  }

  lemma SameShardPartReplays(c: Crypto, P: LedgerState, txs: seq<Transaction>, order: seq<nat>,
                             block: seq<Transaction>, order': seq<nat>)
    requires Invariant(c, P) && IsGroupOrder(c, txs, P.config.shardCount, order)
    requires IsGroupOrder(c, block, P.config.shardCount, order')
    requires forall s :: 0 <= s < |P.shards| ==>
               Group(c, block, |P.shards|, s) == Group(c, RunGroups(c, P.shards, txs, order).processed, |P.shards|, s)
    ensures RunGroups(c, P.shards, block, order').shards == RunGroups(c, P.shards, txs, order).shards
  {
    var p, f := RunGroups(c, P.shards, txs, order), RunGroups(c, P.shards, block, order');
    forall s | 0 <= s < |P.shards| ensures p.shards[s] == f.shards[s] {
      GroupsByShard(c, P.shards, txs, order, s);
      GroupsByShard(c, P.shards, block, order', s);
      BatchReplays(c, P.shards[s], Group(c, txs, |P.shards|, s));
    }
  }

  /** How the block's transactions split again at the follower. */
  lemma BlockSplits(c: Crypto, cfg: Config, processed: seq<Transaction>, committed: seq<Transaction>)
    requires cfg.shardCount > 0 && CrossGroup(c, cfg, processed) == [] && AllCross(c, committed, cfg.shardCount)
    ensures forall s :: 0 <= s < cfg.shardCount ==>
              Group(c, processed + committed, cfg.shardCount, s) == Group(c, processed, cfg.shardCount, s)
    ensures CrossGroup(c, cfg, processed + committed) == CrossGroup(c, cfg, committed)
  {
    CrossGroupConcat(c, cfg, processed, committed);
    forall s | 0 <= s < cfg.shardCount
      ensures Group(c, processed + committed, cfg.shardCount, s) == Group(c, processed, cfg.shardCount, s)
    {
      GroupConcat(c, processed, committed, cfg.shardCount, s);
      GroupOfCross(c, committed, cfg.shardCount, s);
    }
  }

  ghost predicate DrainsAlike(c: Crypto, P: LedgerState, pQueue: seq<CrossTx>, F: LedgerState, fQueue: seq<CrossTx>) {
    && AllPlaced(P, pQueue) && AllPlaced(F, fQueue)
    && var p, f := Drain(c, P, pQueue), Drain(c, F, fQueue);
       && f.ledger.shards == p.ledger.shards && f.ledger.keys == p.ledger.keys
       && f.committed == p.committed && f.applied == p.applied && f.retained == []
       && f.ledger.config == F.config && p.ledger.config == P.config
  }

  lemma QueuePartReplays(c: Crypto, P: LedgerState, pQueue: seq<CrossTx>, F: LedgerState, fQueue: seq<CrossTx>)
    requires Invariant(c, P) && Invariant(c, F) && SameLedger(P, F)
    requires EntriesOk(c, |P.shards|, pQueue) && AllPlaced(P, pQueue) && AllPlaced(F, fQueue)
    requires fQueue == CrossGroup(c, F.config, Drain(c, P, pQueue).committed)
    requires !P.config.crossShardEnabled ==> pQueue == []
    ensures DrainsAlike(c, P, pQueue, F, fQueue)
  {
    DrainIsSafe(c, P, pQueue);
    CrossGroupOk(c, F.config, Drain(c, P, pQueue).committed);
    DrainIsSafe(c, F, fQueue);
    if P.config.crossShardEnabled {
      DrainReplays(c, P, F, pQueue);
    }
  }

  /**
    Whatever the proposer was given, whatever waited in its queue, whatever it rejected, and in
    whatever order either node's shard groups finished: a follower with the same ledger and an empty
    queue ends with the same ledger and an empty queue, and applies the same cross-shard transfers.
   */
  lemma FollowerReplicates(c: Crypto, P: LedgerState, F: LedgerState,
                           txs: seq<Transaction>, order: seq<nat>, order': seq<nat>)
    requires Invariant(c, P) && Invariant(c, F) && SameLedger(P, F) && F.queue == []
    requires IsGroupOrder(c, txs, P.config.shardCount, order)
    requires IsGroupOrder(c, BlockTransactions(Execute(c, P, txs, order)), F.config.shardCount, order')
    ensures var p := Execute(c, P, txs, order);
            var f := Execute(c, F, BlockTransactions(p), order');
            && SameLedger(p.ledger, f.ledger) && f.ledger.queue == []
            && f.drained.committed == p.drained.committed && f.drained.applied == p.drained.applied
  {
    var p := Execute(c, P, txs, order);
    var block := BlockTransactions(p);
    var pGroups, pQueue := RunGroups(c, P.shards, txs, order), P.queue + CrossGroup(c, P.config, txs);
    var fGroups, fQueue := RunGroups(c, F.shards, block, order'), F.queue + CrossGroup(c, F.config, block);
    var P' := P.(shards := pGroups.shards, queue := []);
    var F' := F.(shards := fGroups.shards, queue := []);
    ExecuteUnfolds(c, P, txs, order);
    ExecuteUnfolds(c, F, block, order');
    assert pGroups.shards == fGroups.shards && fQueue == CrossGroup(c, F.config, p.drained.committed) by {
      CommittedIsCross(c, P', pQueue);
      GroupsAreNotCross(c, P.config, P.shards, txs, order);
      BlockSplits(c, P.config, p.processed, p.drained.committed);
      SameShardPartReplays(c, P, txs, order, block, order');
    }
    assert !P.config.crossShardEnabled ==> pQueue == [] by {
      CrossGroupOk(c, P.config, txs);
    }
    QueuePartReplays(c, P', pQueue, F', fQueue);
  }
}
