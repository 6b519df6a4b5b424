/** Whole runs of a proposer and its follower, and where replication would break. */
module ChainRuns {
  import opened Common
  import opened Ledger
  import opened LedgerSafety
  import opened Replication
  import opened CatchingUp
  import opened WaitingQueues
  import opened NodeChain

  // ---------------------------------------------------------------- where a block's transactions come from

  lemma {:induction false} GroupDrawsFrom(c: Crypto, txs: seq<Transaction>, n: nat, s: nat)
    requires n > 0
    ensures forall tx :: tx in Group(c, txs, n, s) ==> tx in txs
  {
    if txs != [] {
      GroupDrawsFrom(c, txs[..|txs| - 1], n, s);
    }
  }

  lemma {:induction false} BatchDrawsFrom(c: Crypto, s: ShardState, txs: seq<Transaction>)
    ensures forall tx :: tx in RunBatch(c, s, txs).processed ==> tx in txs
  {
    if txs != [] {
      BatchDrawsFrom(c, s, txs[..|txs| - 1]);
    }
  }

  lemma {:induction false} GroupsDrawFrom(c: Crypto, shards: seq<ShardState>, txs: seq<Transaction>, order: seq<nat>)
    requires |shards| > 0 && InRange(order, |shards|)
    ensures forall tx :: tx in RunGroups(c, shards, txs, order).processed ==> tx in txs
  {
    if order != [] {
      var front, last := order[..|order| - 1], order[|order| - 1];
      GroupsDrawFrom(c, shards, txs, front);
      GroupDrawsFrom(c, txs, |shards|, last);
      BatchDrawsFrom(c, RunGroups(c, shards, txs, front).shards[last], Group(c, txs, |shards|, last));
    }
  }

  lemma {:induction false} CrossGroupDrawsFrom(c: Crypto, cfg: Config, txs: seq<Transaction>)
    requires cfg.shardCount > 0
    ensures forall e :: e in CrossGroup(c, cfg, txs) ==> e.tx in txs
  {
    if txs != [] {
      CrossGroupDrawsFrom(c, cfg, txs[..|txs| - 1]);
    }
  }

  lemma {:induction false} DrainDrawsFrom(c: Crypto, L: LedgerState, entries: seq<CrossTx>)
    requires AllPlaced(L, entries)
    ensures forall tx :: tx in Drain(c, L, entries).committed ==> exists e :: e in entries && e.tx == tx
  {
    if entries != [] {
      var front, last := entries[..|entries| - 1], entries[|entries| - 1];
      DrainDrawsFrom(c, L, front);
      forall tx | tx in Drain(c, L, entries).committed ensures exists e :: e in entries && e.tx == tx {
        if tx in Drain(c, L, front).committed {
          var e :| e in front && e.tx == tx;
          assert e in entries;
        } else {
          assert last in entries && last.tx == tx;
        }
      }
    }
  }

  /** A block holds only transactions handed to it or waiting in the proposer's queue. */
  lemma BlockDrawsFrom(c: Crypto, L: LedgerState, txs: seq<Transaction>, order: seq<nat>)
    requires Invariant(c, L) && IsGroupOrder(c, txs, L.config.shardCount, order)
    ensures forall tx :: tx in BlockTransactions(Execute(c, L, txs, order))
                         ==> tx in txs || exists e :: e in L.queue && e.tx == tx
  {
    var queue := L.queue + CrossGroup(c, L.config, txs);
    var middle := L.(shards := RunGroups(c, L.shards, txs, order).shards, queue := []);
    ExecuteUnfolds(c, L, txs, order);
    GroupsDrawFrom(c, L.shards, txs, order);
    CrossGroupDrawsFrom(c, L.config, txs);
    DrainDrawsFrom(c, middle, queue);
  }

  predicate Clean(c: Crypto, tx: Transaction) {
    tx.gasFee == 0 && SignatureOk(c, tx)
  }

  /** A proposer given only signed, fee-free transactions produces a block its follower accepts, once the clock advanced. */
  lemma CleanBlockIsAccepted(c: Crypto, P: NodeState, F: NodeState, txs: seq<Transaction>, order: seq<nat>,
                             validator: string, timestamp: u64, stateRoot: string)
    requires InStep(c, P, F) && IsGroupOrder(c, txs, P.ledger.config.shardCount, order)
    requires forall tx :: tx in txs ==> Clean(c, tx)
    requires forall e :: e in P.ledger.queue ==> Clean(c, e.tx)
    requires timestamp > P.blocks[|P.blocks| - 1].timestamp
    ensures AcceptsBlock(c, F.blocks, CreateBlock(c, P, txs, order, validator, timestamp, stateRoot).blocks[|P.blocks|])
  {
    var b := CreateBlock(c, P, txs, order, validator, timestamp, stateRoot).blocks[|P.blocks|];
    RoundReplicates(c, P, F, txs, order, validator, timestamp, stateRoot);
    BlockDrawsFrom(c, P.ledger, txs, order);
    ProducedIsSigned(c, P.ledger, txs, order);
    assert b.txs == BlockTransactions(Execute(c, P.ledger, txs, order));
    forall i | 0 <= i < |b.txs| ensures Clean(c, b.txs[i]) {
      assert b.txs[i] in b.txs;
    }
  }

  // ---------------------------------------------------------------- runs

  datatype Round = Round(
    txs: seq<Transaction>, order: seq<nat>, validator: string, timestamp: u64, stateRoot: string,
    followerOrder: seq<nat>)

  /** The proposer produces the round's block and the follower accepts and applies it. */
  ghost predicate PlaysRound(c: Crypto, P: NodeState, F: NodeState, r: Round, P': NodeState, F': NodeState) {
    && NodeOk(c, P) && NodeOk(c, F)
    && IsGroupOrder(c, r.txs, P.ledger.config.shardCount, r.order)
    && P' == CreateBlock(c, P, r.txs, r.order, r.validator, r.timestamp, r.stateRoot)
    && var b := P'.blocks[|P.blocks|];
       && AcceptsBlock(c, F.blocks, b)
       && IsGroupOrder(c, b.txs, F.ledger.config.shardCount, r.followerOrder)
       && F' == ApplyBlock(c, F, b, r.followerOrder)
  }

  ghost predicate PlaysRoundAt(c: Crypto, ps: seq<NodeState>, fs: seq<NodeState>, rs: seq<Round>, i: nat)
    requires |ps| == |fs| == |rs| + 1 && i < |rs|
  {
    PlaysRound(c, ps[i], fs[i], rs[i], ps[i + 1], fs[i + 1])
  }

  ghost predicate IsReplicatedRun(c: Crypto, ps: seq<NodeState>, fs: seq<NodeState>, rs: seq<Round>) {
    && |ps| == |fs| == |rs| + 1
    && forall i :: 0 <= i < |rs| ==> PlaysRoundAt(c, ps, fs, rs, i)
  }

  lemma RoundKeepsStep(c: Crypto, P: NodeState, F: NodeState, r: Round, P': NodeState, F': NodeState)
    requires InStep(c, P, F) && PlaysRound(c, P, F, r, P', F')
    ensures InStep(c, P', F')
  {
    RoundReplicates(c, P, F, r.txs, r.order, r.validator, r.timestamp, r.stateRoot);
  }

  lemma RoundAtKeepsStep(c: Crypto, ps: seq<NodeState>, fs: seq<NodeState>, rs: seq<Round>, k: nat)
    requires IsReplicatedRun(c, ps, fs, rs) && k < |rs|
    ensures InStep(c, ps[k], fs[k]) ==> InStep(c, ps[k + 1], fs[k + 1])
  {
    assert PlaysRoundAt(c, ps, fs, rs, k);
    if InStep(c, ps[k], fs[k]) {
      RoundKeepsStep(c, ps[k], fs[k], rs[k], ps[k + 1], fs[k + 1]);
    }
  }

  /** A property that the first state has and every step keeps. */
  lemma {:induction false} KeptByEveryStep(kept: nat -> bool, k: nat)
    requires kept(0) && forall i: nat :: i < k && kept(i) ==> kept(i + 1)
    ensures kept(k)
  {
    if k > 0 {
      KeptByEveryStep(kept, k - 1);
    }
  }

  /** However many blocks are exchanged, and whatever accumulates in the proposer's queue, the nodes stay in step. */
  lemma RunReplicates(c: Crypto, ps: seq<NodeState>, fs: seq<NodeState>, rs: seq<Round>, i: nat)
    requires IsReplicatedRun(c, ps, fs, rs) && InStep(c, ps[0], fs[0]) && i < |ps|
    ensures InStep(c, ps[i], fs[i])
  {
    var kept := (k: nat) => k < |ps| == |fs| && InStep(c, ps[k], fs[k]);
    forall k: nat | k < i && kept(k) ensures kept(k + 1) {
      RoundAtKeepsStep(c, ps, fs, rs, k);
    }
    KeptByEveryStep(kept, i);
  }

  // ---------------------------------------------------------------- taking turns

  /** One block of a network: who proposes it, and the order in which each node's shard groups finish. */
  datatype Turn = Turn(
    proposer: nat, txs: seq<Transaction>, order: seq<nat>, validator: string, timestamp: u64, stateRoot: string,
    orders: seq<seq<nat>>)

  /** The proposer produces a block; every other node accepts and applies it. */
  ghost predicate PlaysTurn(c: Crypto, nodes: seq<NodeState>, t: Turn, nodes': seq<NodeState>) {
    && t.proposer < |nodes| == |nodes'| == |t.orders|
    && (forall j :: 0 <= j < |nodes| ==> NodeOk(c, nodes[j]))
    && var P := nodes[t.proposer];
       && IsGroupOrder(c, t.txs, P.ledger.config.shardCount, t.order)
       && nodes'[t.proposer] == CreateBlock(c, P, t.txs, t.order, t.validator, t.timestamp, t.stateRoot)
       && var b := nodes'[t.proposer].blocks[|P.blocks|];
          forall j :: 0 <= j < |nodes| && j != t.proposer ==> Follows(c, nodes[j], b, t.orders[j], nodes'[j])
  }

  ghost predicate Follows(c: Crypto, F: NodeState, b: Block, order: seq<nat>, F': NodeState) {
    && NodeOk(c, F) && AcceptsBlock(c, F.blocks, b) && IsGroupOrder(c, b.txs, F.ledger.config.shardCount, order)
    && F' == ApplyBlock(c, F, b, order)
  }

  /** All nodes have the same chain and the same ledger; what waits in their queues may differ. */
  ghost predicate Agreed(c: Crypto, nodes: seq<NodeState>) {
    |nodes| > 0 && forall j :: 0 <= j < |nodes| ==> Alongside(c, nodes[0], nodes[j])
  }

  ghost predicate Alongside(c: Crypto, P: NodeState, F: NodeState) {
    NodeOk(c, P) && NodeOk(c, F) && P.blocks == F.blocks && SameLedger(P.ledger, F.ledger)
  }

  /** The block is empty and not executed at all, or it applies whatever the follower applies from its own queue. */
  ghost predicate Harmless(c: Crypto, P: LedgerState, F: LedgerState, txs: seq<Transaction>, order: seq<nat>, order': seq<nat>)
    requires Meets(c, P, F, txs, order, order')
  {
    var p := Execute(c, P, txs, order);
    BlockTransactions(p) == [] || Covers(p.drained.applied, OwnTransfers(c, F, BlockTransactions(p), order'))
  }

  /** No two different transfers the two nodes apply from their queues share an idempotency key. */
  ghost predicate Telling(c: Crypto, P: LedgerState, F: LedgerState, txs: seq<Transaction>, order: seq<nat>, order': seq<nat>)
    requires Meets(c, P, F, txs, order, order')
  {
    var p := Execute(c, P, txs, order);
    KeysTell(c, p.drained.applied, OwnTransfers(c, F, BlockTransactions(p), order'))
  }

  /** A follower whose waiting entries are all idle, or who has none, is not harmed. */
  lemma IdleQueueIsHarmless(c: Crypto, P: LedgerState, F: LedgerState, txs: seq<Transaction>, order: seq<nat>, order': seq<nat>)
    requires Meets(c, P, F, txs, order, order')
    requires var middle := AfterGroups(c, F, BlockTransactions(Execute(c, P, txs, order)), order');
             AllPlaced(middle, F.queue) && AllIdle(c, middle, F.queue)
    ensures Harmless(c, P, F, txs, order, order')
  {
    var block := BlockTransactions(Execute(c, P, txs, order));
    FollowerSplits(c, F, block, order');
    IdleDrain(c, AfterGroups(c, F, block, order'), F.queue);
  }

  /** An empty block leaves the proposer's ledger as it was. */
  lemma EmptyBlockKeeps(c: Crypto, P: LedgerState, F: LedgerState, txs: seq<Transaction>, order: seq<nat>, order': seq<nat>)
    requires Meets(c, P, F, txs, order, order') && BlockTransactions(Execute(c, P, txs, order)) == []
    ensures SameLedger(Execute(c, P, txs, order).ledger, F)
  {
    FollowerReplicates(c, P, F.(queue := []), txs, order, order');
    NothingToDo(c, F.(queue := []), order');
  }

  /** One follower in one turn: it agrees with the proposer afterwards if and only if the block was harmless to it. */
  lemma FollowerAgrees(c: Crypto, P: NodeState, F: NodeState, txs: seq<Transaction>, order: seq<nat>,
                       validator: string, timestamp: u64, stateRoot: string, order': seq<nat>, F': NodeState)
    requires Alongside(c, P, F) && IsGroupOrder(c, txs, P.ledger.config.shardCount, order) && Bounded(P.ledger, txs)
    requires Follows(c, F, CreateBlock(c, P, txs, order, validator, timestamp, stateRoot).blocks[|P.blocks|], order', F')
    ensures Meets(c, P.ledger, F.ledger, txs, order, order')
    ensures var P' := CreateBlock(c, P, txs, order, validator, timestamp, stateRoot);
            && (Harmless(c, P.ledger, F.ledger, txs, order, order') ==> Alongside(c, P', F'))
            && (Telling(c, P.ledger, F.ledger, txs, order, order') ==>
                  (Alongside(c, P', F') <==> Harmless(c, P.ledger, F.ledger, txs, order, order')))
  {
    var P' := CreateBlock(c, P, txs, order, validator, timestamp, stateRoot);
    CreateKeepsNode(c, P, txs, order, validator, timestamp, stateRoot);
    ApplyKeepsNode(c, F, P'.blocks[|P.blocks|], order');
    if BlockTransactions(Execute(c, P.ledger, txs, order)) == [] {
      EmptyBlockKeeps(c, P.ledger, F.ledger, txs, order, order');
    } else {
      WaitingFollower(c, P.ledger, F.ledger, txs, order, order');
    }
  }

  /** What a turn asks for: an amount of work that can be counted in words. */
  ghost predicate BoundedTurn(nodes: seq<NodeState>, t: Turn) {
    t.proposer < |nodes| && |nodes[t.proposer].ledger.queue| + |t.txs| <= U64_SIZE
  }

  /** Every other node of a turn meets the proposer's block. */
  lemma TurnMeets(c: Crypto, nodes: seq<NodeState>, t: Turn, nodes': seq<NodeState>, j: nat)
    requires Agreed(c, nodes) && PlaysTurn(c, nodes, t, nodes') && j < |nodes| && j != t.proposer
    ensures Alongside(c, nodes[t.proposer], nodes[j])
    ensures Meets(c, nodes[t.proposer].ledger, nodes[j].ledger, t.txs, t.order, t.orders[j])
  {
    assert Alongside(c, nodes[0], nodes[t.proposer]) && Alongside(c, nodes[0], nodes[j]);
    assert Follows(c, nodes[j], nodes'[t.proposer].blocks[|nodes[t.proposer].blocks|], t.orders[j], nodes'[j]);
  }

  ghost predicate HarmlessAt(c: Crypto, nodes: seq<NodeState>, t: Turn, j: nat)
    requires j < |nodes| == |t.orders| && t.proposer < |nodes|
  {
    var P, F := nodes[t.proposer].ledger, nodes[j].ledger;
    Meets(c, P, F, t.txs, t.order, t.orders[j]) && Harmless(c, P, F, t.txs, t.order, t.orders[j])
  }

  ghost predicate TellingAt(c: Crypto, nodes: seq<NodeState>, t: Turn, j: nat)
    requires j < |nodes| == |t.orders| && t.proposer < |nodes|
  {
    var P, F := nodes[t.proposer].ledger, nodes[j].ledger;
    Meets(c, P, F, t.txs, t.order, t.orders[j]) && Telling(c, P, F, t.txs, t.order, t.orders[j])
  }

  /** The block harms none of the followers. */
  ghost predicate HarmlessTurn(c: Crypto, nodes: seq<NodeState>, t: Turn) {
    && t.proposer < |nodes| == |t.orders|
    && forall j :: 0 <= j < |nodes| && j != t.proposer ==> HarmlessAt(c, nodes, t, j)
  }

  ghost predicate TellingTurn(c: Crypto, nodes: seq<NodeState>, t: Turn) {
    && t.proposer < |nodes| == |t.orders|
    && forall j :: 0 <= j < |nodes| && j != t.proposer ==> TellingAt(c, nodes, t, j)
  }

  lemma OneOfTheTurn(c: Crypto, nodes: seq<NodeState>, t: Turn, nodes': seq<NodeState>, j: nat)
    requires Agreed(c, nodes) && PlaysTurn(c, nodes, t, nodes') && BoundedTurn(nodes, t) && j < |nodes| && j != t.proposer
    requires Supply(nodes[0].ledger.shards) <= U64_MAX
    ensures HarmlessAt(c, nodes, t, j) ==> Alongside(c, nodes'[t.proposer], nodes'[j])
    ensures TellingAt(c, nodes, t, j) && Alongside(c, nodes'[t.proposer], nodes'[j]) ==> HarmlessAt(c, nodes, t, j)
  {
    var P := nodes[t.proposer];
    TurnMeets(c, nodes, t, nodes', j);
    assert Alongside(c, nodes[0], P);
    FollowerAgrees(c, P, nodes[j], t.txs, t.order, t.validator, t.timestamp, t.stateRoot, t.orders[j], nodes'[j]);
  }

  /** Agreeing with the first node and agreeing with the proposer is the same. */
  lemma AgreedWithProposer(c: Crypto, nodes: seq<NodeState>, p: nat)
    requires p < |nodes| && NodeOk(c, nodes[p])
    ensures Agreed(c, nodes) <==> forall j :: 0 <= j < |nodes| && j != p ==> Alongside(c, nodes[p], nodes[j])
  {
    if Agreed(c, nodes) {
      assert Alongside(c, nodes[0], nodes[p]);
      forall j | 0 <= j < |nodes| && j != p ensures Alongside(c, nodes[p], nodes[j]) {
        assert Alongside(c, nodes[0], nodes[j]);
      }
    }
    if forall j :: 0 <= j < |nodes| && j != p ==> Alongside(c, nodes[p], nodes[j]) {
      forall j | 0 <= j < |nodes| ensures Alongside(c, nodes[0], nodes[j]) {
        assert p != 0 ==> Alongside(c, nodes[p], nodes[0]);
        assert j != p ==> Alongside(c, nodes[p], nodes[j]);
      }
    }
  }

  /**
    One turn. Nodes that agree still agree afterwards if the block harms none of them; and, as long as keys
    tell the transfers apart, only then.
   */
  lemma TurnAgrees(c: Crypto, nodes: seq<NodeState>, t: Turn, nodes': seq<NodeState>)
    requires Agreed(c, nodes) && PlaysTurn(c, nodes, t, nodes') && BoundedTurn(nodes, t)
    requires Supply(nodes[0].ledger.shards) <= U64_MAX
    ensures HarmlessTurn(c, nodes, t) ==> Agreed(c, nodes')
    ensures TellingTurn(c, nodes, t) ==> (Agreed(c, nodes') <==> HarmlessTurn(c, nodes, t))
  {
    var P := nodes[t.proposer];
    CreateKeepsNode(c, P, t.txs, t.order, t.validator, t.timestamp, t.stateRoot);
    AgreedWithProposer(c, nodes', t.proposer);
    if HarmlessTurn(c, nodes, t) {
      forall j | 0 <= j < |nodes| && j != t.proposer ensures Alongside(c, nodes'[t.proposer], nodes'[j]) {
        OneOfTheTurn(c, nodes, t, nodes', j);
      }
    }
    if TellingTurn(c, nodes, t) && Agreed(c, nodes') {
      forall j | 0 <= j < |nodes| && j != t.proposer ensures HarmlessAt(c, nodes, t, j) {
        OneOfTheTurn(c, nodes, t, nodes', j);
      }
    }
  }

  /** No block changes the supply. */
  lemma TurnKeepsSupply(c: Crypto, nodes: seq<NodeState>, t: Turn, nodes': seq<NodeState>)
    requires Agreed(c, nodes) && PlaysTurn(c, nodes, t, nodes') && Agreed(c, nodes')
    requires Supply(nodes[0].ledger.shards) <= U64_MAX
    ensures Supply(nodes'[0].ledger.shards) == Supply(nodes[0].ledger.shards)
  {
    var P := nodes[t.proposer].ledger;
    assert Alongside(c, nodes[0], nodes[t.proposer]) && Alongside(c, nodes'[0], nodes'[t.proposer]);
    ExecuteKeepsSupply(c, P, t.txs, t.order);
  }

  // ---------------------------------------------------------------- rotation

  ghost predicate PlaysTurnAt(c: Crypto, ns: seq<seq<NodeState>>, ts: seq<Turn>, k: nat)
    requires |ns| == |ts| + 1 && k < |ts|
  {
    PlaysTurn(c, ns[k], ts[k], ns[k + 1]) && BoundedTurn(ns[k], ts[k])
  }

  ghost predicate IsRotation(c: Crypto, ns: seq<seq<NodeState>>, ts: seq<Turn>) {
    && |ns| == |ts| + 1
    && forall k :: 0 <= k < |ts| ==> PlaysTurnAt(c, ns, ts, k)
  }

  /** Nodes that agree, with a supply within the word. */
  ghost predicate Sound(c: Crypto, nodes: seq<NodeState>) {
    Agreed(c, nodes) && Supply(nodes[0].ledger.shards) <= U64_MAX
  }

  lemma TurnIsSound(c: Crypto, nodes: seq<NodeState>, t: Turn, nodes': seq<NodeState>)
    requires Sound(c, nodes) && PlaysTurn(c, nodes, t, nodes') && BoundedTurn(nodes, t)
    ensures HarmlessTurn(c, nodes, t) ==> Sound(c, nodes')
    ensures TellingTurn(c, nodes, t) && Agreed(c, nodes') ==> HarmlessTurn(c, nodes, t)
  {
    TurnAgrees(c, nodes, t, nodes');
    if HarmlessTurn(c, nodes, t) {
      TurnKeepsSupply(c, nodes, t, nodes');
    }
  }

  lemma TurnAtIsSound(c: Crypto, ns: seq<seq<NodeState>>, ts: seq<Turn>, k: nat)
    requires IsRotation(c, ns, ts) && k < |ts|
    ensures Sound(c, ns[k]) && HarmlessTurn(c, ns[k], ts[k]) ==> Sound(c, ns[k + 1])
    ensures Sound(c, ns[k]) && TellingTurn(c, ns[k], ts[k]) && Agreed(c, ns[k + 1]) ==> HarmlessTurn(c, ns[k], ts[k])
  {
    assert PlaysTurnAt(c, ns, ts, k);
    if Sound(c, ns[k]) {
      TurnIsSound(c, ns[k], ts[k], ns[k + 1]);
    }
  }

  ghost predicate HarmlessUntil(c: Crypto, ns: seq<seq<NodeState>>, ts: seq<Turn>, k: nat)
    requires k <= |ts| <= |ns|
  {
    forall i :: 0 <= i < k ==> HarmlessTurn(c, ns[i], ts[i])
  }

  /**
    Any number of nodes taking turns as proposer, whatever waits in their queues: they agree after every
    block up to some turn if no block before harmed a follower.
   */
  lemma {:induction false} RotationAgrees(c: Crypto, ns: seq<seq<NodeState>>, ts: seq<Turn>, k: nat)
    requires IsRotation(c, ns, ts) && Sound(c, ns[0]) && k <= |ts| && HarmlessUntil(c, ns, ts, k)
    ensures Sound(c, ns[k])
  {
    if k > 0 {
      RotationAgrees(c, ns, ts, k - 1);
      TurnAtIsSound(c, ns, ts, k - 1);
    }
  }

  ghost predicate AgreedUntil(c: Crypto, ns: seq<seq<NodeState>>, k: nat)
    requires k < |ns|
  {
    forall i :: 0 <= i <= k ==> Agreed(c, ns[i])
  }

  /** And, as long as keys tell the transfers apart, only then. */
  lemma RotationAgreesExactly(c: Crypto, ns: seq<seq<NodeState>>, ts: seq<Turn>, k: nat)
    requires IsRotation(c, ns, ts) && Sound(c, ns[0]) && k <= |ts|
    requires forall i :: 0 <= i < k ==> TellingTurn(c, ns[i], ts[i])
    ensures AgreedUntil(c, ns, k) <==> HarmlessUntil(c, ns, ts, k)
  {
    if HarmlessUntil(c, ns, ts, k) {
      forall i | 0 <= i <= k ensures Agreed(c, ns[i]) {
        RotationAgrees(c, ns, ts, i);
      }
    }
    if AgreedUntil(c, ns, k) {
      AgreedIsHarmless(c, ns, ts, k);
    }
  }

  lemma SoundWhileAgreed(c: Crypto, ns: seq<seq<NodeState>>, ts: seq<Turn>, k: nat)
    requires IsRotation(c, ns, ts) && Sound(c, ns[0]) && k <= |ts| && AgreedUntil(c, ns, k)
    requires forall i :: 0 <= i < k ==> TellingTurn(c, ns[i], ts[i])
    ensures Sound(c, ns[k])
  {
    var kept := (i: nat) => i < |ns| && Sound(c, ns[i]);
    forall i: nat | i < k && kept(i) ensures kept(i + 1) {
      TurnAtIsSound(c, ns, ts, i);
    }
    KeptByEveryStep(kept, k);
  }

  lemma AgreedIsHarmless(c: Crypto, ns: seq<seq<NodeState>>, ts: seq<Turn>, k: nat)
    requires IsRotation(c, ns, ts) && Sound(c, ns[0]) && k <= |ts| && AgreedUntil(c, ns, k)
    requires forall i :: 0 <= i < k ==> TellingTurn(c, ns[i], ts[i])
    ensures HarmlessUntil(c, ns, ts, k)
  {
    forall i | 0 <= i < k ensures HarmlessTurn(c, ns[i], ts[i]) {
      SoundWhileAgreed(c, ns, ts, i);
      TurnAtIsSound(c, ns, ts, i);
    }
  }
}
