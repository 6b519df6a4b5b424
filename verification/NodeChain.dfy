/**
  A node's chain: producing a block, validating and applying one, and the linkage of the chain.
  RoundReplicates says when a follower accepts what the proposer produced and that it then agrees.
 */
module NodeChain {
  import opened Common
  import opened Ledger
  import opened LedgerSafety
  import opened TwoPhaseCommit
  import opened Replication
  import opened Ordering

  datatype Block = Block(
    index: nat, timestamp: u64, txs: seq<Transaction>, prevHash: string, hash: string, nonce: u64,
    validator: string, stateRoot: string)

  /** The ledger, the chain, and the mempool. */
  datatype NodeState = NodeState(ledger: LedgerState, blocks: seq<Block>, pending: seq<Transaction>)

  function HeaderOf(b: Block): BlockHeader {
    BlockHeader(b.index, b.timestamp, |b.txs|, b.prevHash, b.nonce, b.validator, b.stateRoot)
  }

  // ---------------------------------------------------------------- mempool

  function Decimal(n: nat): string {
    if n < 10 then ['0' + n as char] else Decimal(n / 10) + ['0' + (n % 10) as char]
  }

  /** The text by which a pending transaction is matched against a block. */
  function MempoolKey(tx: Transaction): string {
    tx.from + ":" + tx.to + ":" + Decimal(tx.nonce)
  }

  predicate Included(tx: Transaction, block: seq<Transaction>) {
    exists i :: 0 <= i < |block| && MempoolKey(block[i]) == MempoolKey(tx)
  }

  /** The pending transactions that the block leaves over, in order. */
  function LeftOver(pending: seq<Transaction>, block: seq<Transaction>): (r: seq<Transaction>)
    ensures forall i :: 0 <= i < |r| ==> r[i] in pending && !Included(r[i], block)
  {
    if pending == [] then [] else
      var front, last := pending[..|pending| - 1], pending[|pending| - 1];
      if Included(last, block) then LeftOver(front, block) else LeftOver(front, block) + [last]
  }

  /** Timestamp, then sender, then nonce. */
  predicate Earlier(a: Transaction, b: Transaction) {
    a.timestamp < b.timestamp
    || (a.timestamp == b.timestamp
        && (if a.from == b.from then a.nonce <= b.nonce else StringLe(a.from, b.from)))
  }

  function DrainOrder(pending: seq<Transaction>): seq<Transaction> {
    Sort(Earlier, pending)
  }

  lemma EarlierIsAnOrder()
    ensures TotalPreorder(Earlier)
  {
    StringOrder();
    assert forall a, b :: Earlier(a, b) || Earlier(b, a);
    forall a, b, d | Earlier(a, b) && Earlier(b, d) ensures Earlier(a, d) {
      if a.timestamp == b.timestamp == d.timestamp && a.from != b.from && b.from != d.from {
        assert StringLe(a.from, d.from);
      }
    }
  }

  /**
    Nodes whose mempools hold the same transactions, received in any order, drain the same sequence,
    as long as no two of them share timestamp, sender and nonce.
   */
  lemma DrainIgnoresArrival(p: seq<Transaction>, q: seq<Transaction>)
    requires multiset(p) == multiset(q)
    requires forall x, y :: x in multiset(p) && y in multiset(p) && x != y
               ==> (x.timestamp, x.from, x.nonce) != (y.timestamp, y.from, y.nonce)
    ensures DrainOrder(p) == DrainOrder(q) && multiset(DrainOrder(p)) == multiset(p) && SortedBy(Earlier, DrainOrder(p))
  {
    EarlierIsAnOrder();
    StringOrder();
    SortIgnoresArrival(Earlier, p, q);
    SortSorts(Earlier, p);
  }

  // ---------------------------------------------------------------- chain linkage

  /** What the integrity check walks over: consecutive indices and matching hashes. */
  predicate Linked(blocks: seq<Block>) {
    forall i :: 0 < i < |blocks| ==> blocks[i].prevHash == blocks[i - 1].hash && blocks[i].index == blocks[i - 1].index + 1
  }

  ghost predicate ChainOk(blocks: seq<Block>) {
    |blocks| > 0 && blocks[0].index == 0 && Linked(blocks)
  }

  lemma {:induction false} IndexIsHeight(blocks: seq<Block>, i: nat)
    requires ChainOk(blocks) && i < |blocks|
    ensures blocks[i].index == i
  {
    if i > 0 {
      IndexIsHeight(blocks, i - 1);
    }
  }

  // ---------------------------------------------------------------- producing and applying

  /** The node keeps a linked chain, a ledger in order, and nothing else is assumed of it. */
  ghost predicate NodeOk(c: Crypto, N: NodeState) {
    Invariant(c, N.ledger) && ChainOk(N.blocks)
  }

  function NextBlock(c: Crypto, last: Block, txs: seq<Transaction>, validator: string, timestamp: u64, stateRoot: string): Block {
    var draft := Block(last.index + 1, timestamp, txs, last.hash, "", 0, validator, stateRoot);
    draft.(hash := c.blockDigest(HeaderOf(draft)))
  }

  ghost function CreateBlock(c: Crypto, N: NodeState, txs: seq<Transaction>, order: seq<nat>,
                             validator: string, timestamp: u64, stateRoot: string): NodeState
    requires NodeOk(c, N) && IsGroupOrder(c, txs, N.ledger.config.shardCount, order)
  {
    var p := Execute(c, N.ledger, txs, order);
    var block := NextBlock(c, N.blocks[|N.blocks| - 1], BlockTransactions(p), validator, timestamp, stateRoot);
    N.(ledger := p.ledger, blocks := N.blocks + [block])
  }

  predicate ValidBlock(c: Crypto, blocks: seq<Block>, b: Block)
    requires |blocks| > 0
  {
    var last := blocks[|blocks| - 1];
    && b.index == last.index + 1
    && b.prevHash == last.hash
    && b.timestamp > last.timestamp
    && ((b.index == 0 && b.hash == "genesis") || b.hash == c.blockDigest(HeaderOf(b)))
    && forall i :: 0 <= i < |b.txs| ==> b.txs[i].gasFee == 0 && SignatureOk(c, b.txs[i])
  }

  /** Validation, then the height and linkage checks of block application. */
  predicate AcceptsBlock(c: Crypto, blocks: seq<Block>, b: Block)
    requires |blocks| > 0
  {
    ValidBlock(c, blocks, b) && b.index == |blocks| && b.prevHash == blocks[|blocks| - 1].hash
  }

  /** Applying an accepted block. An empty block does not even touch the queue. */
  ghost function ApplyBlock(c: Crypto, N: NodeState, b: Block, order: seq<nat>): NodeState
    requires NodeOk(c, N) && AcceptsBlock(c, N.blocks, b)
    requires IsGroupOrder(c, b.txs, N.ledger.config.shardCount, order)
  {
    if b.txs == [] then N.(blocks := N.blocks + [b]) else
      NodeState(Execute(c, N.ledger, b.txs, order).ledger, N.blocks + [b], LeftOver(N.pending, b.txs))
  }

  lemma ChainExtends(blocks: seq<Block>, b: Block)
    requires ChainOk(blocks)
    requires b.prevHash == blocks[|blocks| - 1].hash && b.index == blocks[|blocks| - 1].index + 1
    ensures ChainOk(blocks + [b])
  {
  }

  lemma CreateKeepsNode(c: Crypto, N: NodeState, txs: seq<Transaction>, order: seq<nat>,
                        validator: string, timestamp: u64, stateRoot: string)
    requires NodeOk(c, N) && IsGroupOrder(c, txs, N.ledger.config.shardCount, order)
    ensures NodeOk(c, CreateBlock(c, N, txs, order, validator, timestamp, stateRoot))
  {
    ExecuteKeepsInvariant(c, N.ledger, txs, order);
    ChainExtends(N.blocks, CreateBlock(c, N, txs, order, validator, timestamp, stateRoot).blocks[|N.blocks|]);
  }

  lemma ApplyKeepsNode(c: Crypto, N: NodeState, b: Block, order: seq<nat>)
    requires NodeOk(c, N) && AcceptsBlock(c, N.blocks, b)
    requires IsGroupOrder(c, b.txs, N.ledger.config.shardCount, order)
    ensures NodeOk(c, ApplyBlock(c, N, b, order))
  {
    ChainExtends(N.blocks, b);
    if b.txs != [] {
      ExecuteKeepsInvariant(c, N.ledger, b.txs, order);
    }
  }

  // ---------------------------------------------------------------- which blocks are accepted

  ghost predicate AllSigned(c: Crypto, txs: seq<Transaction>) {
    forall i :: 0 <= i < |txs| ==> SignatureOk(c, txs[i])
  }

  ghost predicate AllFree(txs: seq<Transaction>) {
    forall i :: 0 <= i < |txs| ==> txs[i].gasFee == 0
  }

  lemma {:induction false} BatchIsSigned(c: Crypto, s: ShardState, txs: seq<Transaction>)
    ensures AllSigned(c, RunBatch(c, s, txs).processed)
  {
    if txs != [] {
      BatchIsSigned(c, s, txs[..|txs| - 1]);
    }
  }

  lemma {:induction false} GroupsAreSigned(c: Crypto, shards: seq<ShardState>, txs: seq<Transaction>, order: seq<nat>)
    requires |shards| > 0 && InRange(order, |shards|)
    ensures AllSigned(c, RunGroups(c, shards, txs, order).processed)
  {
    if order != [] {
      var front, last := order[..|order| - 1], order[|order| - 1];
      GroupsAreSigned(c, shards, txs, front);
      BatchIsSigned(c, RunGroups(c, shards, txs, front).shards[last], Group(c, txs, |shards|, last));
    }
  }

  /** A transfer that moved funds was signed; an entry that was skipped need not be. */
  lemma {:induction false} CommittedIsSigned(c: Crypto, L: LedgerState, entries: seq<CrossTx>)
    requires |L.shards| > 0 && HomePlaced(c, L.shards) && AllHealthy(L.shards) && L.locks == {}
    requires EntriesOk(c, |L.shards|, entries) && AllPlaced(L, entries)
    ensures var d := Drain(c, L, entries);
            AllSigned(c, d.applied) && (AllSigned(c, d.committed) <==> AllSigned(c, d.skipped))
  {
    if entries != [] {
      var front, e := entries[..|entries| - 1], entries[|entries| - 1];
      CommittedIsSigned(c, L, front);
      DrainIsSafe(c, L, front);
      assert EntryOk(c, |L.shards|, e);
      var prev := Drain(c, L, front);
      CommitIsAtomic(c, prev.ledger, e);
      SignedSnoc(c, prev.committed, e.tx);
      SignedSnoc(c, prev.skipped, e.tx);
      SignedSnoc(c, prev.applied, e.tx);
    }
  }

  lemma SignedSnoc(c: Crypto, txs: seq<Transaction>, tx: Transaction)
    ensures AllSigned(c, txs + [tx]) <==> AllSigned(c, txs) && SignatureOk(c, tx)
  {
    assert (txs + [tx])[|txs|] == tx;
    forall i | 0 <= i < |txs| ensures (txs + [tx])[i] == txs[i] {
    }
    if AllSigned(c, txs + [tx]) {
      forall i | 0 <= i < |txs| ensures SignatureOk(c, txs[i]) {
        assert SignatureOk(c, (txs + [tx])[i]);
      }
    }
  }

  lemma SignedConcat(c: Crypto, l: seq<Transaction>, m: seq<Transaction>)
    requires AllSigned(c, l)
    ensures AllSigned(c, l + m) <==> AllSigned(c, m)
  {
    if AllSigned(c, l + m) {
      forall i | 0 <= i < |m| ensures SignatureOk(c, m[i]) {
        assert (l + m)[|l| + i] == m[i];
      }
    }
  }

  /** The transactions of a produced block are signed exactly when the skipped entries are. */
  lemma ProducedIsSigned(c: Crypto, L: LedgerState, txs: seq<Transaction>, order: seq<nat>)
    requires Invariant(c, L) && IsGroupOrder(c, txs, L.config.shardCount, order)
    ensures var p := Execute(c, L, txs, order);
            AllSigned(c, BlockTransactions(p)) <==> AllSigned(c, p.drained.skipped)
  {
    var p := Execute(c, L, txs, order);
    ExecuteUnfolds(c, L, txs, order);
    GroupsAreSigned(c, L.shards, txs, order);
    CommittedIsSigned(c, L.(shards := RunGroups(c, L.shards, txs, order).shards, queue := []),
                      L.queue + CrossGroup(c, L.config, txs));
    SignedConcat(c, p.processed, p.drained.committed);
  }

  // ---------------------------------------------------------------- replication

  /** A follower in step with its proposer: same chain, same ledger, nothing queued. */
  ghost predicate InStep(c: Crypto, P: NodeState, F: NodeState) {
    NodeOk(c, P) && NodeOk(c, F) && P.blocks == F.blocks && SameLedger(P.ledger, F.ledger) && F.ledger.queue == []
  }

  /**
    One round. The follower accepts the proposer's block exactly when the clock advanced, every
    transaction in it is free of gas fees, and every skipped duplicate is signed; and once it applies
    the block, in whatever order its own shard groups finish, the two nodes are in step again.
   */
  lemma RoundReplicates(c: Crypto, P: NodeState, F: NodeState, txs: seq<Transaction>, order: seq<nat>,
                        validator: string, timestamp: u64, stateRoot: string)
    requires InStep(c, P, F) && IsGroupOrder(c, txs, P.ledger.config.shardCount, order)
    ensures var P' := CreateBlock(c, P, txs, order, validator, timestamp, stateRoot);
            var b := P'.blocks[|P.blocks|];
            && (AcceptsBlock(c, F.blocks, b) <==>
                  && timestamp > P.blocks[|P.blocks| - 1].timestamp
                  && AllFree(b.txs)
                  && AllSigned(c, Execute(c, P.ledger, txs, order).drained.skipped))
            && (AcceptsBlock(c, F.blocks, b) ==>
                  forall order' :: IsGroupOrder(c, b.txs, F.ledger.config.shardCount, order')
                                   ==> InStep(c, P', ApplyBlock(c, F, b, order')))
  {
    var P' := CreateBlock(c, P, txs, order, validator, timestamp, stateRoot);
    var p := Execute(c, P.ledger, txs, order);
    var b := P'.blocks[|P.blocks|];
    CreateKeepsNode(c, P, txs, order, validator, timestamp, stateRoot);
    IndexIsHeight(P.blocks, |P.blocks| - 1);
    ProducedIsSigned(c, P.ledger, txs, order);
    assert b.txs == BlockTransactions(p);
    assert HeaderOf(b) == HeaderOf(b.(hash := ""));
    if AcceptsBlock(c, F.blocks, b) {
      forall order' | IsGroupOrder(c, b.txs, F.ledger.config.shardCount, order')
        ensures InStep(c, P', ApplyBlock(c, F, b, order'))
      {
        FollowerReplicates(c, P.ledger, F.ledger, txs, order, order');
        ApplyKeepsNode(c, F, b, order');
        if b.txs == [] {
          NothingToDo(c, F.ledger, order');
        }
      }
    }
  }

  /** Executing no transactions with an empty queue changes nothing. */
  lemma NothingToDo(c: Crypto, L: LedgerState, order: seq<nat>)
    requires Invariant(c, L) && L.queue == [] && IsGroupOrder(c, [], L.config.shardCount, order)
    ensures Execute(c, L, [], order).ledger == L
  {
  }
}
