/**
  The node: a coordinator, the chain of blocks and the mempool, changed in place. Its methods are
  proved to take the steps of NodeChain.dfy and to keep the node in order.
 */
module SultanBlockchain {
  import opened Common
  import opened Ledger
  import opened Replication
  import opened NodeChain
  import opened ShardingCoordinator
  import Ordering
  import QueuePasses

  class Blockchain {
    const crypto: Crypto
    const coordinator: Coordinator
    var blocks: seq<Block>
    var pendingTransactions: seq<Transaction>

    ghost predicate Valid()
      reads this, coordinator, coordinator.shards
    {
      coordinator.Valid() && coordinator.crypto == crypto && NodeOk(crypto, Node())
    }

    ghost function Node(): NodeState
      reads this, coordinator, coordinator.shards
    {
      NodeState(coordinator.Value(), blocks, pendingTransactions)
    }

    constructor (crypto: Crypto, config: Config, timestamp: u64)
      requires ValidConfig(config)
      ensures Valid() && fresh(coordinator) && fresh(coordinator.shards)
      ensures blocks == [Block(0, timestamp, [], "0", "genesis", 0, "genesis", "0")] && pendingTransactions == []
    {
      this.crypto := crypto;
      var created := new Coordinator(crypto, config);
      coordinator := created;
      blocks := [Block(0, timestamp, [], "0", "genesis", 0, "genesis", "0")];
      pendingTransactions := [];
    }

    method SubmitTransaction(tx: Transaction)
      requires Valid()
      modifies this`pendingTransactions
      ensures Valid() && Node() == old(Node()).(pending := old(pendingTransactions) + [tx])
    {
      pendingTransactions := pendingTransactions + [tx];
    }

    /** Empty the mempool, sorted for block production. */
    method DrainPendingTransactions() returns (txs: seq<Transaction>)
      requires Valid()
      modifies this`pendingTransactions
      ensures Valid() && Node() == old(Node()).(pending := [])
      ensures txs == NodeChain.DrainOrder(old(pendingTransactions))
    {
      txs := Ordering.Sort(Earlier, pendingTransactions);
      pendingTransactions := [];
    }

    /** Run the same-shard groups and then the queue: what producing and applying a block have in common. */
    method ExecuteTransactions(txs: seq<Transaction>)
      returns (processed: seq<Transaction>, committed: seq<Transaction>, ghost order: seq<nat>)
      requires Valid()
      modifies coordinator, coordinator.shards
      ensures coordinator.Valid() && coordinator.shards == old(coordinator.shards)
      ensures IsGroupOrder(crypto, txs, coordinator.config.shardCount, order)
      ensures coordinator.config == old(coordinator.config)
      ensures var p := Execute(crypto, old(coordinator.Value()), txs, order);
              coordinator.Value() == p.ledger && processed == p.processed && committed == p.drained.committed
    {
      ghost var before := coordinator.Value();
      processed, order := coordinator.ProcessParallel(txs);
      ExecuteUnfolds(crypto, before, txs, order);
      SubmitKeepsInvariant(crypto, before, txs, order);
      PlacedIfOk(crypto, coordinator.Core(), coordinator.crossShardQueue);
      var calm := seq(|coordinator.crossShardQueue|, _ => NoFailure);
      QueuePasses.CalmPass(crypto, coordinator.Core(), coordinator.crossShardQueue, calm);
      committed := coordinator.ProcessCrossShardQueue(calm);
    }

    /** Produce the next block. The clock and the aggregate of the shard roots come from outside. */
    method CreateBlock(txs: seq<Transaction>, validator: string, timestamp: u64, stateRoot: string)
      returns (block: Block, ghost order: seq<nat>)
      requires Valid()
      modifies this`blocks, coordinator, coordinator.shards
      ensures Valid()
      ensures IsGroupOrder(crypto, txs, old(coordinator.config.shardCount), order)
      ensures Node() == NodeChain.CreateBlock(crypto, old(Node()), txs, order, validator, timestamp, stateRoot)
      ensures block == blocks[|blocks| - 1]
    {
      ghost var before := Node();
      var processed, committed;
      processed, committed, order := ExecuteTransactions(txs);
      block := SealBlock(processed + committed, validator, timestamp, stateRoot);
      blocks := blocks + [block];
      assert Node() == NodeChain.CreateBlock(crypto, before, txs, order, validator, timestamp, stateRoot);
      CreateKeepsNode(crypto, before, txs, order, validator, timestamp, stateRoot);
    }

    method SealBlock(txs: seq<Transaction>, validator: string, timestamp: u64, stateRoot: string) returns (block: Block)
      requires blocks != []
      ensures block == NextBlock(crypto, blocks[|blocks| - 1], txs, validator, timestamp, stateRoot)
    {
      var last := blocks[|blocks| - 1];
      block := Block(last.index + 1, timestamp, txs, last.hash, "", 0, validator, stateRoot);
      block := block.(hash := crypto.blockDigest(HeaderOf(block)));
    }

    /** Index, linkage, clock, digest, and then every transaction: no gas fee and a good signature. */
    method ValidateBlock(block: Block) returns (valid: bool)
      requires Valid()
      ensures valid <==> ValidBlock(crypto, blocks, block)
    {
      var prev := blocks[|blocks| - 1];
      if block.index != prev.index + 1 || block.prevHash != prev.hash || block.timestamp <= prev.timestamp {
        return false;
      }
      var isGenesis := block.index == 0 && block.hash == "genesis";
      if !isGenesis && block.hash != crypto.blockDigest(HeaderOf(block)) {
        return false;
      }
      for i := 0 to |block.txs|
        invariant forall k :: 0 <= k < i ==> block.txs[k].gasFee == 0 && SignatureOk(crypto, block.txs[k])
      {
        if block.txs[i].gasFee != 0 || !SignatureOk(crypto, block.txs[i]) {
          return false;
        }
      }
      return true;
    }

    /** Validate a block from another validator, execute its transactions and append it; or refuse it and change nothing. */
    method ApplyBlock(block: Block) returns (applied: bool, ghost order: seq<nat>)
      requires Valid()
      modifies this`blocks, this`pendingTransactions, coordinator, coordinator.shards
      ensures Valid()
      ensures applied <==> AcceptsBlock(crypto, old(blocks), block)
      ensures applied ==> IsGroupOrder(crypto, block.txs, old(coordinator.config.shardCount), order)
                          && Node() == NodeChain.ApplyBlock(crypto, old(Node()), block, order)
      ensures !applied ==> Node() == old(Node())
    {
      order := [];
      applied := ValidateBlock(block);
      if !applied || block.index != |blocks| || block.prevHash != blocks[|blocks| - 1].hash {
        return false, order;
      }
      order := AppendAccepted(block);
    }

    /** Execute an accepted block's transactions, drop them from the mempool, append the block. */
    method AppendAccepted(block: Block) returns (ghost order: seq<nat>)
      requires Valid() && AcceptsBlock(crypto, blocks, block)
      modifies this`blocks, this`pendingTransactions, coordinator, coordinator.shards
      ensures Valid()
      ensures IsGroupOrder(crypto, block.txs, old(coordinator.config.shardCount), order)
      ensures Node() == NodeChain.ApplyBlock(crypto, old(Node()), block, order)
    {
      ghost var before := Node();
      if block.txs == [] {
        order := [];
        NoGroups(crypto, coordinator.config.shardCount);
      } else {
        order := ExecuteBlock(block.txs);
      }
      blocks := blocks + [block];
      ApplyKeepsNode(crypto, before, block, order);
    }

    /** Drop the block's transactions from the mempool and execute them. */
    method ExecuteBlock(txs: seq<Transaction>) returns (ghost order: seq<nat>)
      requires Valid()
      modifies this`pendingTransactions, coordinator, coordinator.shards
      ensures coordinator.Valid() && coordinator.shards == old(coordinator.shards)
      ensures IsGroupOrder(crypto, txs, old(coordinator.config.shardCount), order)
      ensures coordinator.Value() == Execute(crypto, old(coordinator.Value()), txs, order).ledger
      ensures pendingTransactions == LeftOver(old(pendingTransactions), txs)
    {
      pendingTransactions := RetainLeftOver(pendingTransactions, txs);
      var _, _, o := ExecuteTransactions(txs);
      order := o;
    }

    method VerifyIntegrity() returns (ok: bool)
      ensures ok <==> Linked(blocks)
    {
      var i := 1;
      while i < |blocks|
        invariant forall k :: 0 < k < i && k < |blocks|
                              ==> blocks[k].prevHash == blocks[k - 1].hash && blocks[k].index == blocks[k - 1].index + 1
      {
        if blocks[i].prevHash != blocks[i - 1].hash || blocks[i].index != blocks[i - 1].index + 1 {
          return false;
        }
        i := i + 1;
      }
      return true;
    }
  }

  lemma NoGroups(c: Crypto, n: nat)
    requires n > 0
    ensures IsGroupOrder(c, [], n, [])
  {
  }

  /** Drop the pending transactions whose key occurs in the block, one block transaction at a time. */
  method RetainLeftOver(pending: seq<Transaction>, block: seq<Transaction>) returns (left: seq<Transaction>)
    ensures left == LeftOver(pending, block)
  {
    left := pending;
    NothingIncluded(pending);
    for i := 0 to |block|
      invariant left == LeftOver(pending, block[..i])
    {
      var kept: seq<Transaction> := [];
      for j := 0 to |left|
        invariant kept == LeftOver(left[..j], [block[i]])
      {
        assert left[..j + 1][..j] == left[..j];
        assert Included(left[j], [block[i]]) <==> MempoolKey(left[j]) == MempoolKey(block[i]) by {
          assert [block[i]][0] == block[i];
        }
        if MempoolKey(left[j]) != MempoolKey(block[i]) {
          kept := kept + [left[j]];
        }
      }
      assert left[..|left|] == left;
      LeftOverTwice(pending, block, i);
      left := kept;
    }
    assert block[..|block|] == block;
  }

  lemma {:induction false} NothingIncluded(pending: seq<Transaction>)
    ensures LeftOver(pending, []) == pending
  {
    if pending != [] {
      NothingIncluded(pending[..|pending| - 1]);
    }
  }

  /** Dropping for one more block transaction is dropping again from what was left. */
  lemma {:induction false} LeftOverTwice(pending: seq<Transaction>, block: seq<Transaction>, i: nat)
    requires i < |block|
    ensures LeftOver(LeftOver(pending, block[..i]), [block[i]]) == LeftOver(pending, block[..i + 1])
  {
    if pending != [] {
      var front, last := pending[..|pending| - 1], pending[|pending| - 1];
      LeftOverTwice(front, block, i);
      var left := LeftOver(front, block[..i]);
      assert (left + [last])[..|left|] == left;
      IncludedSnoc(last, block, i);
    }
  }

  lemma IncludedSnoc(tx: Transaction, block: seq<Transaction>, i: nat)
    requires i < |block|
    ensures Included(tx, block[..i + 1]) <==> Included(tx, block[..i]) || Included(tx, [block[i]])
  {
    assert [block[i]][0] == block[i];
    if Included(tx, block[..i]) {
      var k :| 0 <= k < i && MempoolKey(block[..i][k]) == MempoolKey(tx);
      assert block[..i + 1][k] == block[..i][k];
    }
    if Included(tx, [block[i]]) {
      assert block[..i + 1][i] == block[i];
    }
    if Included(tx, block[..i + 1]) {
      var k :| 0 <= k < i + 1 && MempoolKey(block[..i + 1][k]) == MempoolKey(tx);
      if k < i {
        assert block[..i][k] == block[..i + 1][k];
      } else {
        assert [block[i]][0] == block[..i + 1][k];
      }
    }
  }
}
