/** Two concrete ledgers that show the conditions of replication are needed. */
module ReplicationLimits {
  import opened Common
  import opened Ledger
  import opened LedgerSafety
  import opened TwoPhaseCommit
  import opened Replication
  import opened NodeChain

  function ToyCrypto(): Crypto {
    Crypto((a: Address) => |a|, (k, s, m) => true, (a, m, n) => a, h => "digest")
  }

  function Transfer(from: Address, to: Address, gasFee: u64): Transaction {
    Transaction(from, to, 1, gasFee, 1, 0, Some("s"), Some("k"), None)
  }

  function Toy(shards: seq<ShardState>, queue: seq<CrossTx>): LedgerState {
    LedgerState(Config(|shards|, 8, 1, true), shards, queue, {}, {})
  }

  lemma SingleGroup(c: Crypto, tx: Transaction, n: nat, s: nat)
    requires n > 0
    ensures Group(c, [tx], n, s) == if IsSameShard(c, tx, n, s) then [tx] else []
  {
  }

  lemma SingleBatch(c: Crypto, s: ShardState, tx: Transaction)
    requires Accepts(c, s, tx)
    ensures RunBatch(c, s, [tx]) == Batch(ApplyTransaction(s, tx), [tx])
  {
  }

  lemma SingleOrder(c: Crypto, tx: Transaction, n: nat, s: nat)
    requires s < n && IsSameShard(c, tx, n, s)
    ensures IsGroupOrder(c, [tx], n, [s])
  {
    forall i | 0 <= i < n ensures i in [s] <==> Group(c, [tx], n, i) != [] {
      SingleGroup(c, tx, n, i);
    }
  }

  lemma SingleGroups(c: Crypto, shards: seq<ShardState>, tx: Transaction, s: nat)
    requires s < |shards| && IsSameShard(c, tx, |shards|, s) && Accepts(c, shards[s], tx)
    ensures IsGroupOrder(c, [tx], |shards|, [s])
    ensures RunGroups(c, shards, [tx], [s])
         == Groups(shards[s := ApplyTransaction(shards[s], tx).(healthy := true)], [tx])
  {
    SingleOrder(c, tx, |shards|, s);
    SingleGroup(c, tx, |shards|, s);
    SingleBatch(c, shards[s], tx);
    assert [s][..0] == [];
  }

  function OneShard(): seq<ShardState> {
    [ShardState(map["a" := Account(1, 0)], map[], true)]
  }

  /** The shard takes a transaction with a gas fee like any other. */
  lemma FeeIsProcessed(c: Crypto, L: LedgerState, tx: Transaction)
    requires c == ToyCrypto() && L == Toy(OneShard(), []) && tx == Transfer("a", "b", 1)
    ensures Invariant(c, L) && IsGroupOrder(c, [tx], 1, [0])
    ensures RunGroups(c, L.shards, [tx], [0]).processed == [tx] && CrossGroup(c, L.config, [tx]) == []
  {
    assert IsSameShard(c, tx, 1, 0) && Accepts(c, OneShard()[0], tx);
    SingleGroups(c, OneShard(), tx, 0);
    assert [tx][..0] == [];
  }

  lemma FeeIsRefused(c: Crypto, blocks: seq<Block>, b: Block)
    requires |blocks| > 0 && b.txs != [] && b.txs[0].gasFee != 0
    ensures !AcceptsBlock(c, blocks, b)
  {
  }

  /**
    A shard applies a transaction that carries a gas fee, so a proposer may put it into a block; every
    follower then refuses that block, whatever its timestamp.
   */
  lemma GasFeeBlockIsRefused(blocks: seq<Block>, timestamp: u64)
    requires |blocks| > 0
    ensures var c := ToyCrypto();
            var L := Toy([ShardState(map["a" := Account(1, 0)], map[], true)], []);
            var tx := Transfer("a", "b", 1);
            && Invariant(c, L) && IsGroupOrder(c, [tx], 1, [0])
            && var p := Execute(c, L, [tx], [0]);
               && BlockTransactions(p) == [tx]
               && !AcceptsBlock(c, blocks, NextBlock(c, blocks[|blocks| - 1], BlockTransactions(p), "v", timestamp, ""))
  {
    var c := ToyCrypto();
    var L := Toy(OneShard(), []);
    var tx := Transfer("a", "b", 1);
    FeeIsProcessed(c, L, tx);
    ExecuteUnfolds(c, L, [tx], [0]);
    FeeIsRefused(c, blocks, NextBlock(c, blocks[|blocks| - 1], [tx], "v", timestamp, ""));
  }

  function TwoShards(): seq<ShardState> {
    [ShardState(map[], map[], true), ShardState(map["a" := Account(1, 0), "ccc" := Account(1, 0)], map[], true)]
  }

  /** A transfer across shards that has not been attempted yet. */
  function Waiting(): CrossTx {
    NewCrossTx(ToyCrypto(), Transfer("a", "bb", 0), 2)
  }

  /** The shards after the only transaction of the block. */
  function AfterBlock(): seq<ShardState> {
    TwoShards()[1 := ApplyTransaction(TwoShards()[1], Transfer("ccc", "a", 0))]
  }

  lemma ToyInvariants()
    ensures Invariant(ToyCrypto(), Toy(TwoShards(), [])) && Invariant(ToyCrypto(), Toy(TwoShards(), [Waiting()]))
    ensures EntryOk(ToyCrypto(), 2, Waiting())
  {
    assert EntryOk(ToyCrypto(), 2, Waiting());
  }

  lemma ToyBlock()
    ensures var tx := Transfer("ccc", "a", 0);
            && IsGroupOrder(ToyCrypto(), [tx], 2, [1])
            && RunGroups(ToyCrypto(), TwoShards(), [tx], [1]) == Groups(AfterBlock(), [tx])
            && CrossGroup(ToyCrypto(), Toy(TwoShards(), []).config, [tx]) == []
  {
    var tx := Transfer("ccc", "a", 0);
    assert IsSameShard(ToyCrypto(), tx, 2, 1) && Accepts(ToyCrypto(), TwoShards()[1], tx);
    SingleGroups(ToyCrypto(), TwoShards(), tx, 1);
    assert [tx][..0] == [];
  }

  /**
    A follower whose queue still holds a transfer executes it while applying a block that does not
    contain it, and so leaves the proposer behind.
   */
  lemma QueuedFollowerDiverges()
    ensures var c, P, F, tx := ToyCrypto(), Toy(TwoShards(), []), Toy(TwoShards(), [Waiting()]), Transfer("ccc", "a", 0);
            && Invariant(c, P) && Invariant(c, F) && SameLedger(P, F) && IsGroupOrder(c, [tx], 2, [1])
            && BlockTransactions(Execute(c, P, [tx], [1])) == [tx]
            && Execute(c, P, [tx], [1]).ledger.shards == AfterBlock()
            && Execute(c, F, [tx], [1]).ledger.shards == Transferred(AfterBlock(), Waiting()) != AfterBlock()
  {
    var c, P, F, tx := ToyCrypto(), Toy(TwoShards(), []), Toy(TwoShards(), [Waiting()]), Transfer("ccc", "a", 0);
    ToyInvariants();
    ToyBlock();
    ExecuteUnfolds(c, P, [tx], [1]);
    WaitingGoesThrough(c, F, tx);
    assert "bb" in Transferred(AfterBlock(), Waiting())[0].accounts && "bb" !in AfterBlock()[0].accounts;
  }

  lemma WaitingGoesThrough(c: Crypto, F: LedgerState, tx: Transaction)
    requires c == ToyCrypto() && F == Toy(TwoShards(), [Waiting()]) && tx == Transfer("ccc", "a", 0)
    requires Invariant(c, F) && EntryOk(c, 2, Waiting()) && IsGroupOrder(c, [tx], 2, [1])
    requires RunGroups(c, F.shards, [tx], [1]) == Groups(AfterBlock(), [tx]) && CrossGroup(c, F.config, [tx]) == []
    ensures Execute(c, F, [tx], [1]).ledger.shards == Transferred(AfterBlock(), Waiting())
  {
    ExecuteUnfolds(c, F, [tx], [1]);
    var middle := F.(shards := AfterBlock(), queue := []);
    assert F.queue + [] == [Waiting()] && [Waiting()][..0] == [];
    CommitIsAtomic(c, middle, Waiting());
  }
}
