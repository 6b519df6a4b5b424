/**
  Expansion on one node alone. The node's main loop expands the proposer's shards after a block and nobody
  else's, so proposer and follower no longer agree on nonces.
 */
module LoneExpansion {
  import opened Ledger
  import opened LedgerSafety
  import opened Expansion
  import opened Replication
  import opened ReplicationLimits

  /** Every balance and nonce query is answered alike, whatever the number of shards. */
  ghost predicate SameAnswers(c: Crypto, L: LedgerState, M: LedgerState)
    requires |L.shards| == L.config.shardCount > 0 && |M.shards| == M.config.shardCount > 0
  {
    forall a :: GetBalance(c, L, a) == GetBalance(c, M, a) && HomeNonce(c, L.shards, a) == HomeNonce(c, M.shards, a)
  }

  /**
    When expansion on one node alone is harmless: the two nodes answer alike afterwards if and only if the
    expansion did nothing, or nobody had sent anything. They stay the same ledger only if it did nothing.
   */
  lemma LoneExpansionExactly(c: Crypto, L: LedgerState, additional: nat)
    requires ValidConfig(L.config) && |L.shards| == L.config.shardCount && HomePlaced(c, L.shards)
    ensures var L' := ExpandShards(c, L, additional);
            var idle := ExpandedCount(L.config, additional) == L.config.shardCount;
            && |L'.shards| == L'.config.shardCount > 0
            && (SameAnswers(c, L, L') <==> idle || forall a :: HomeNonce(c, L.shards, a) == 0)
            && (SameLedger(L, L') <==> idle)
  {
    var L' := ExpandShards(c, L, additional);
    ExpansionIsSafe(c, L, additional);
    if L'.config != L.config && SameAnswers(c, L, L') {
      forall a ensures HomeNonce(c, L.shards, a) == 0 {
        assert HomeNonce(c, L'.shards, a) == 0;
      }
    }
  }

  lemma RefusedBatch(c: Crypto, s: ShardState, tx: Transaction)
    requires !Accepts(c, s, tx)
    ensures RunBatch(c, s, [tx]) == Batch(s, [])
  {
    assert [tx][..0] == [];
  }

  lemma RefusedGroups(c: Crypto, shards: seq<ShardState>, tx: Transaction, s: nat)
    requires s < |shards| && IsSameShard(c, tx, |shards|, s) && !Accepts(c, shards[s], tx) && AllHealthy(shards)
    ensures IsGroupOrder(c, [tx], |shards|, [s])
    ensures RunGroups(c, shards, [tx], [s]) == Groups(shards, [])
  {
    SingleOrder(c, tx, |shards|, s);
    SingleGroup(c, tx, |shards|, s);
    RefusedBatch(c, shards[s], tx);
    RanNothing(c, shards, [tx], s);
  }

  lemma RanNothing(c: Crypto, shards: seq<ShardState>, txs: seq<Transaction>, s: nat)
    requires s < |shards| && shards[s].healthy && RunBatch(c, shards[s], Group(c, txs, |shards|, s)) == Batch(shards[s], [])
    ensures RunGroups(c, shards, txs, [s]) == Groups(shards, [])
  {
    assert [s][..0] == [];
    assert shards[s].(healthy := true) == shards[s] && shards[s := shards[s]] == shards;
  }

  lemma NoCross(c: Crypto, cfg: Config, tx: Transaction, s: nat)
    requires cfg.shardCount > 0 && IsSameShard(c, tx, cfg.shardCount, s)
    ensures CrossGroup(c, cfg, [tx]) == []
  {
    assert [tx][..0] == [];
  }

  /** A node with nothing queued that executes one acceptable same-shard transaction debits its sender. */
  lemma ExecutesOne(c: Crypto, L: LedgerState, tx: Transaction, s: nat)
    requires Invariant(c, L) && L.queue == [] && s < |L.shards| && IsSameShard(c, tx, |L.shards|, s) && Accepts(c, L.shards[s], tx)
    requires tx.from != tx.to
    ensures IsGroupOrder(c, [tx], L.config.shardCount, [s])
    ensures var p := Execute(c, L, [tx], [s]);
            && BlockTransactions(p) == [tx] && |p.ledger.shards| == p.ledger.config.shardCount > 0
            && GetBalance(c, p.ledger, tx.from) == GetBalance(c, L, tx.from) - tx.amount
  {
    SingleGroups(c, L.shards, tx, s);
    NoCross(c, L.config, tx, s);
    ExecuteUnfolds(c, L, [tx], [s]);
    ExecuteKeepsInvariant(c, L, [tx], [s]);
    ApplyMoves(c, L.shards[s], tx, tx.from);
  }

  /** And one that it refuses changes nothing. */
  lemma RefusesOne(c: Crypto, L: LedgerState, tx: Transaction, s: nat)
    requires Invariant(c, L) && L.queue == [] && s < |L.shards| && IsSameShard(c, tx, |L.shards|, s) && !Accepts(c, L.shards[s], tx)
    ensures IsGroupOrder(c, [tx], L.config.shardCount, [s])
    ensures Execute(c, L, [tx], [s]).ledger == L
  {
    RefusedGroups(c, L.shards, tx, s);
    NoCross(c, L.config, tx, s);
    ExecuteUnfolds(c, L, [tx], [s]);
  }

  /**
    The next block on which they part. For any sender that has sent before: the expanded proposer applies its
    nonce zero again, if it is within one shard and funded; a follower that did not expand refuses it.
   */
  lemma ReplayPartsThem(c: Crypto, L: LedgerState, additional: nat, tx: Transaction, s: nat, s': nat)
    requires Invariant(c, L) && L.queue == [] && ExpandedCount(L.config, additional) > L.config.shardCount
    requires IsSameShard(c, tx, L.config.shardCount, s) && IsSameShard(c, tx, ExpandedCount(L.config, additional), s')
    requires HomeNonce(c, L.shards, tx.from) != 0 && tx.nonce == 0 && tx.from != tx.to
    requires 0 < tx.amount <= GetBalance(c, L, tx.from) && SignatureOk(c, tx)
    ensures var P := ExpandShards(c, L, additional);
            && Invariant(c, P) && IsGroupOrder(c, [tx], P.config.shardCount, [s']) && IsGroupOrder(c, [tx], L.config.shardCount, [s])
            && var p, f := Execute(c, P, [tx], [s']), Execute(c, L, [tx], [s]);
               && BlockTransactions(p) == [tx] && f.ledger == L && |p.ledger.shards| == p.ledger.config.shardCount > 0
               && GetBalance(c, p.ledger, tx.from) == GetBalance(c, L, tx.from) - tx.amount
               && GetBalance(c, f.ledger, tx.from) == GetBalance(c, L, tx.from)
  {
    var P := ExpandShards(c, L, additional);
    ExpansionIsSafe(c, L, additional);
    assert HomeNonce(c, P.shards, tx.from) == 0 && GetBalance(c, P, tx.from) == GetBalance(c, L, tx.from);
    ExecutesOne(c, P, tx, s');
    RefusesOne(c, L, tx, s);
  }

  /** A ledger in which "a" has sent once, one shard that becomes two, and the block that parts the nodes. */
  lemma ConcreteReplay()
    ensures var c := ToyCrypto();
            var L := Toy([ShardState(map["a" := Account(1, 0)], map["a" := 1], true)], []);
            var P := ExpandShards(c, L, 1);
            var tx := Transfer("a", "ccc", 0);
            && Invariant(c, L) && Invariant(c, P)
            && IsGroupOrder(c, [tx], 2, [1]) && IsGroupOrder(c, [tx], 1, [0]) && P.config.shardCount == 2
            && var p, f := Execute(c, P, [tx], [1]), Execute(c, L, [tx], [0]);
               && BlockTransactions(p) == [tx] && |p.ledger.shards| == p.ledger.config.shardCount > 0
               && f.ledger == L && GetBalance(c, p.ledger, "a") == 0 && GetBalance(c, f.ledger, "a") == 1
  {
    var c, L, tx := ToyCrypto(), Toy([ShardState(map["a" := Account(1, 0)], map["a" := 1], true)], []), Transfer("a", "ccc", 0);
    ReplayPartsThem(c, L, 1, tx, 0, 1);
  }
}
