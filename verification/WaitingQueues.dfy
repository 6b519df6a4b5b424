/**
  Followers whose own queue is not empty. Such a follower first passes over its own entries and then over
  the block's, so it may apply transfers in another order than the proposer, or others. It still ends with
  the proposer's ledger if and only if its own pass applies nothing that the block does not apply.
 */
module WaitingQueues {
  import opened Common
  import opened Ledger
  import opened LedgerSafety
  import opened TwoPhaseCommit
  import opened Replication
  import opened TransferEffects
  import opened CatchingUp

  // ---------------------------------------------------------------- whole executions

  /** One list of entries after the other. */
  lemma {:induction false} DrainConcat(c: Crypto, L: LedgerState, l: seq<CrossTx>, m: seq<CrossTx>)
    requires InOrder(c, L) && EntriesOk(c, |L.shards|, l) && EntriesOk(c, |L.shards|, m)
    requires AllPlaced(L, l) && AllPlaced(L, m) && AllPlaced(L, l + m)
    ensures AllPlaced(Drain(c, L, l).ledger, m)
    ensures Drain(c, L, l + m).ledger == Drain(c, Drain(c, L, l).ledger, m).ledger
    decreases |m|
  {
    if m == [] {
      assert l + m == l;
    } else {
      var n := |m| - 1;
      assert (l + m)[..|l + m| - 1] == l + m[..n];
      DrainConcat(c, L, l, m[..n]);
    }
  }

  /** What the same-shard part of a block makes of a follower. */
  ghost function AfterGroups(c: Crypto, F: LedgerState, block: seq<Transaction>, order: seq<nat>): LedgerState
    requires |F.shards| == F.config.shardCount > 0 && InRange(order, |F.shards|)
  {
    F.(shards := RunGroups(c, F.shards, block, order).shards, queue := [])
  }

  lemma {:induction false} CrossGroupAtMost(c: Crypto, cfg: Config, txs: seq<Transaction>)
    requires cfg.shardCount > 0
    ensures |CrossGroup(c, cfg, txs)| <= |txs|
  {
    if txs != [] {
      CrossGroupAtMost(c, cfg, txs[..|txs| - 1]);
    }
  }

  /** A block, and a follower that is about to execute it. */
  ghost predicate Meets(c: Crypto, P: LedgerState, F: LedgerState, txs: seq<Transaction>, order: seq<nat>, order': seq<nat>) {
    && Invariant(c, P) && Invariant(c, F) && SameLedger(P, F)
    && IsGroupOrder(c, txs, P.config.shardCount, order)
    && IsGroupOrder(c, BlockTransactions(Execute(c, P, txs, order)), F.config.shardCount, order')
  }

  /** Both nodes reach the same ledger after the same-shard part; from there each passes over its own queue. */
  lemma SameMiddle(c: Crypto, P: LedgerState, F: LedgerState, txs: seq<Transaction>, order: seq<nat>, order': seq<nat>)
    requires Meets(c, P, F, txs, order, order')
    ensures var p := Execute(c, P, txs, order);
            var block := BlockTransactions(p);
            && AfterGroups(c, F, block, order') == AfterGroups(c, P, txs, order)
            && CrossGroup(c, F.config, block) == CrossGroup(c, F.config, p.drained.committed)
  {
    var p := Execute(c, P, txs, order);
    var block := BlockTransactions(p);
    ExecuteUnfolds(c, P, txs, order);
    CommittedIsCross(c, AfterGroups(c, P, txs, order), P.queue + CrossGroup(c, P.config, txs));
    GroupsAreNotCross(c, P.config, P.shards, txs, order);
    BlockSplits(c, P.config, p.processed, p.drained.committed);
    SameShardPartReplays(c, P, txs, order, block, order');
  }

  /** The follower's execution: its own entries, and then fresh ones for the block's. */
  lemma FollowerSplits(c: Crypto, F: LedgerState, block: seq<Transaction>, order: seq<nat>)
    requires Invariant(c, F) && IsGroupOrder(c, block, F.config.shardCount, order)
    ensures var middle, cross := AfterGroups(c, F, block, order), CrossGroup(c, F.config, block);
            && Invariant(c, middle) && AllPlaced(middle, F.queue) && EntriesOk(c, |F.shards|, cross)
            && AllPlaced(Drain(c, middle, F.queue).ledger, cross)
            && var f, d := Execute(c, F, block, order).ledger, Drain(c, Drain(c, middle, F.queue).ledger, cross).ledger;
               f.config == F.config && f.shards == d.shards && f.keys == d.keys
  {
    var middle, cross := AfterGroups(c, F, block, order), CrossGroup(c, F.config, block);
    ExecuteUnfolds(c, F, block, order);
    CrossGroupOk(c, F.config, block);
    PlacedIfOk(c, middle, F.queue);
    PlacedIfOk(c, middle, cross);
    DrainConcat(c, middle, F.queue, cross);
    DrainIsSafe(c, middle, F.queue + cross);
  }

  /** The transfers a follower applies from its own queue when it executes a block. */
  ghost function OwnTransfers(c: Crypto, F: LedgerState, block: seq<Transaction>, order: seq<nat>): seq<Transaction>
    requires Invariant(c, F) && IsGroupOrder(c, block, F.config.shardCount, order)
  {
    FollowerSplits(c, F, block, order);
    Drain(c, AfterGroups(c, F, block, order), F.queue).applied
  }

  /** The supply fits the word, and the block cannot hold more transfers than there are nonces. */
  ghost predicate Bounded(P: LedgerState, txs: seq<Transaction>) {
    Supply(P.shards) <= U64_MAX && |P.queue| + |txs| <= U64_SIZE
  }

  /** If the block applies whatever the follower applies from its own queue, the follower ends with the proposer's ledger. */
  lemma CoveredFollower(c: Crypto, P: LedgerState, F: LedgerState, txs: seq<Transaction>, order: seq<nat>, order': seq<nat>)
    requires Meets(c, P, F, txs, order, order') && Bounded(P, txs)
    requires var p := Execute(c, P, txs, order); Covers(p.drained.applied, OwnTransfers(c, F, BlockTransactions(p), order'))
    ensures var p := Execute(c, P, txs, order); SameLedger(p.ledger, Execute(c, F, BlockTransactions(p), order').ledger)
  {
    var p := Execute(c, P, txs, order);
    var block, theirs := BlockTransactions(p), P.queue + CrossGroup(c, P.config, txs);
    if P.config.crossShardEnabled {
      var middle := AfterGroups(c, F, block, order');
      SameMiddle(c, P, F, txs, order, order');
      FollowerSplits(c, F, block, order');
      ExecuteUnfolds(c, P, txs, order);
      CrossGroupAtMost(c, P.config, txs);
      GroupsKeep(c, P.shards, txs, order);
      CoveredEndsAlike(c, middle, F.queue, theirs);
      DrainIsSafe(c, middle, theirs);
    } else {
      FollowerReplicates(c, P, F, txs, order, order');
    }
  }

  /** And if it does not, the keys differ. */
  lemma UncoveredFollower(c: Crypto, P: LedgerState, F: LedgerState, txs: seq<Transaction>, order: seq<nat>, order': seq<nat>)
    requires Meets(c, P, F, txs, order, order')
    requires var p := Execute(c, P, txs, order);
             && KeysTell(c, p.drained.applied, OwnTransfers(c, F, BlockTransactions(p), order'))
             && SameLedger(p.ledger, Execute(c, F, BlockTransactions(p), order').ledger)
    ensures var p := Execute(c, P, txs, order); Covers(p.drained.applied, OwnTransfers(c, F, BlockTransactions(p), order'))
  {
    var p := Execute(c, P, txs, order);
    var block, theirs := BlockTransactions(p), P.queue + CrossGroup(c, P.config, txs);
    var middle, cross := AfterGroups(c, F, block, order'), CrossGroup(c, F.config, block);
    SameMiddle(c, P, F, txs, order, order');
    FollowerSplits(c, F, block, order');
    ExecuteUnfolds(c, P, txs, order);
    var own := Drain(c, middle, F.queue);
    DrainIsSafe(c, middle, F.queue);
    DrainIsSafe(c, own.ledger, cross);
    DrainIsSafe(c, middle, theirs);
    KeysByFreshness(c, middle.keys, own.ledger.keys, own.applied);
    SameKeysCover(c, p.drained.applied, own.applied);
  }

  /**
    Which queues are harmless to a follower. It ends with the proposer's ledger if and only if every transfer
    its own pass over its queue applies is one the block applies.
   */
  lemma WaitingFollower(c: Crypto, P: LedgerState, F: LedgerState, txs: seq<Transaction>, order: seq<nat>, order': seq<nat>)
    requires Meets(c, P, F, txs, order, order') && Bounded(P, txs)
    ensures var p := Execute(c, P, txs, order);
            var mine := OwnTransfers(c, F, BlockTransactions(p), order');
            var same := SameLedger(p.ledger, Execute(c, F, BlockTransactions(p), order').ledger);
            && (Covers(p.drained.applied, mine) ==> same)
            && (KeysTell(c, p.drained.applied, mine) ==> (same <==> Covers(p.drained.applied, mine)))
  {
    var p := Execute(c, P, txs, order);
    var mine := OwnTransfers(c, F, BlockTransactions(p), order');
    if Covers(p.drained.applied, mine) {
      CoveredFollower(c, P, F, txs, order, order');
    } else if KeysTell(c, p.drained.applied, mine) && SameLedger(p.ledger, Execute(c, F, BlockTransactions(p), order').ledger) {
      UncoveredFollower(c, P, F, txs, order, order');
    }
  }

  // ---------------------------------------------------------------- idle entries

  /** An entry that an attempt in this ledger would skip or abort. */
  predicate Idle(c: Crypto, L: LedgerState, e: CrossTx)
    requires Placed(L, e)
  {
    e.key in L.keys || !Payable(c, L, e)
  }

  ghost predicate AllIdle(c: Crypto, L: LedgerState, entries: seq<CrossTx>)
    requires AllPlaced(L, entries)
  {
    forall i :: 0 <= i < |entries| ==> Idle(c, L, entries[i])
  }

  /** Idle entries leave the ledger alone. */
  lemma {:induction false} IdleDrain(c: Crypto, L: LedgerState, entries: seq<CrossTx>)
    requires InOrder(c, L) && EntriesOk(c, |L.shards|, entries) && AllPlaced(L, entries) && AllIdle(c, L, entries)
    ensures Drain(c, L, entries).ledger == L && Drain(c, L, entries).applied == []
  {
    if entries != [] {
      var n := |entries| - 1;
      IdleDrain(c, L, entries[..n]);
      assert EntryOk(c, |L.shards|, entries[n]) && Idle(c, L, entries[n]);
      CommitIsAtomic(c, L, entries[n]);
    }
  }

  /** Idle entries are harmless, whatever keys they have and however large the supply is. */
  lemma IdleFollower(c: Crypto, P: LedgerState, F: LedgerState, txs: seq<Transaction>, order: seq<nat>, order': seq<nat>)
    requires Meets(c, P, F, txs, order, order')
    requires var middle := AfterGroups(c, F, BlockTransactions(Execute(c, P, txs, order)), order');
             AllPlaced(middle, F.queue) && AllIdle(c, middle, F.queue)
    ensures var p := Execute(c, P, txs, order); SameLedger(p.ledger, Execute(c, F, BlockTransactions(p), order').ledger)
  {
    var block := BlockTransactions(Execute(c, P, txs, order));
    var middle, alone := AfterGroups(c, F, block, order'), F.(queue := []);
    FollowerReplicates(c, P, alone, txs, order, order');
    FollowerSplits(c, F, block, order');
    FollowerSplits(c, alone, block, order');
    IdleDrain(c, middle, F.queue);
  }

  // ---------------------------------------------------------------- one entry per sender

  /** One entry per sender, no two with one key, and none that pays the sender of a later one. */
  ghost predicate Independent(entries: seq<CrossTx>) {
    forall i, j :: 0 <= i < j < |entries| ==>
      entries[i].tx.from != entries[j].tx.from && entries[i].key != entries[j].key && entries[i].tx.to != entries[j].tx.from
  }

  /** A pass leaves an address alone that no entry names. */
  lemma {:induction false} StrangerKeeps(c: Crypto, L: LedgerState, entries: seq<CrossTx>, a: Address)
    requires InOrder(c, L) && EntriesOk(c, |L.shards|, entries) && AllPlaced(L, entries)
    requires forall i :: 0 <= i < |entries| ==> entries[i].tx.from != a && entries[i].tx.to != a
    ensures ViewAt(c, Drain(c, L, entries).ledger.shards, a) == ViewAt(c, L.shards, a)
  {
    if entries != [] {
      var n := |entries| - 1;
      var prev := Drain(c, L, entries[..n]).ledger;
      StrangerKeeps(c, L, entries[..n], a);
      DrainIsSafe(c, L, entries[..n]);
      assert EntryOk(c, |L.shards|, entries[n]);
      CommitIsAtomic(c, prev, entries[n]);
    }
  }

  /** Other keys than these stay unknown. */
  lemma {:induction false} KeyStaysUnknown(c: Crypto, L: LedgerState, entries: seq<CrossTx>, k: Key)
    requires InOrder(c, L) && EntriesOk(c, |L.shards|, entries) && AllPlaced(L, entries)
    requires forall i :: 0 <= i < |entries| ==> entries[i].key != k
    ensures k in Drain(c, L, entries).ledger.keys <==> k in L.keys
  {
    if entries != [] {
      var n := |entries| - 1;
      KeyStaysUnknown(c, L, entries[..n], k);
      DrainIsSafe(c, L, entries[..n]);
      assert EntryOk(c, |L.shards|, entries[n]);
      CommitIsAtomic(c, Drain(c, L, entries[..n]).ledger, entries[n]);
    }
  }

  /** When its turn comes, an entry is as idle as it was before the pass. */
  lemma IdleWhenItsTurnComes(c: Crypto, L: LedgerState, entries: seq<CrossTx>)
    requires InOrder(c, L) && EntriesOk(c, |L.shards|, entries) && AllPlaced(L, entries) && Independent(entries) && entries != []
    ensures var n := |entries| - 1; Idle(c, Drain(c, L, entries[..n]).ledger, entries[n]) <==> Idle(c, L, entries[n])
  {
    var n := |entries| - 1;
    var e, prev := entries[n], Drain(c, L, entries[..n]).ledger;
    assert EntryOk(c, |L.shards|, e);
    if e.tx.from == e.tx.to {
      assert false;
    }
    StrangerKeeps(c, L, entries[..n], e.tx.from);
    KeyStaysUnknown(c, L, entries[..n], e.key);
    PayableAt(c, L, e);
    PayableAt(c, prev, e);
  }

  /** Exactly the entries that are not idle beforehand are applied. */
  ghost predicate AppliesTheBusy(c: Crypto, L: LedgerState, entries: seq<CrossTx>, applied: seq<Transaction>)
    requires AllPlaced(L, entries)
  {
    && (forall i :: 0 <= i < |entries| && !Idle(c, L, entries[i]) ==> entries[i].tx in applied)
    && (forall t :: t in applied ==> exists i :: 0 <= i < |entries| && entries[i].tx == t && !Idle(c, L, entries[i]))
  }

  lemma BusySnoc(c: Crypto, L: LedgerState, entries: seq<CrossTx>, applied: seq<Transaction>, e: CrossTx)
    requires AllPlaced(L, entries) && AllPlaced(L, entries + [e]) && Placed(L, e) && AppliesTheBusy(c, L, entries, applied)
    ensures AppliesTheBusy(c, L, entries + [e], if Idle(c, L, e) then applied else applied + [e.tx])
  {
    var all, now := entries + [e], if Idle(c, L, e) then applied else applied + [e.tx];
    forall t | t in now ensures exists i :: 0 <= i < |all| && all[i].tx == t && !Idle(c, L, all[i]) {
      if t in applied {
        var i :| 0 <= i < |entries| && entries[i].tx == t && !Idle(c, L, entries[i]);
        assert all[i] == entries[i];
      } else {
        assert all[|entries|] == e;
      }
    }
  }

  lemma IndependentStep(c: Crypto, L: LedgerState, front: seq<CrossTx>, e: CrossTx)
    requires InOrder(c, L) && EntriesOk(c, |L.shards|, front) && EntryOk(c, |L.shards|, e)
    requires AllPlaced(L, front) && Placed(L, e) && AllPlaced(L, front + [e])
    requires Idle(c, Drain(c, L, front).ledger, e) <==> Idle(c, L, e)
    requires AppliesTheBusy(c, L, front, Drain(c, L, front).applied)
    ensures AppliesTheBusy(c, L, front + [e], Drain(c, L, front + [e]).applied)
  {
    var prev := Drain(c, L, front);
    DrainIsSafe(c, L, front);
    CommitIsAtomic(c, prev.ledger, e);
    DrainOneMore(c, L, front, e);
    BusySnoc(c, L, front, prev.applied, e);
  }

  lemma {:induction false} IndependentPass(c: Crypto, L: LedgerState, entries: seq<CrossTx>)
    requires InOrder(c, L) && EntriesOk(c, |L.shards|, entries) && AllPlaced(L, entries) && Independent(entries)
    ensures AppliesTheBusy(c, L, entries, Drain(c, L, entries).applied)
  {
    if entries != [] {
      var n := |entries| - 1;
      IndependentPass(c, L, entries[..n]);
      IdleWhenItsTurnComes(c, L, entries);
      UpTo(c, L, entries, n);
      assert entries[..n + 1] == entries;
      IndependentStep(c, L, entries[..n], entries[n]);
    }
  }

  /** Every waiting entry is idle after the same-shard part, or the block applies its transfer. */
  ghost predicate IdleOrCommitted(c: Crypto, L: LedgerState, entries: seq<CrossTx>, block: seq<Transaction>)
    requires AllPlaced(L, entries)
  {
    forall i :: 0 <= i < |entries| ==> Idle(c, L, entries[i]) || In(block, entries[i].tx)
  }

  lemma CoversTheBusy(c: Crypto, L: LedgerState, entries: seq<CrossTx>, mine: seq<Transaction>, block: seq<Transaction>)
    requires AllPlaced(L, entries) && AppliesTheBusy(c, L, entries, mine)
    ensures Covers(block, mine) <==> IdleOrCommitted(c, L, entries, block)
  {
    if Covers(block, mine) {
      forall i | 0 <= i < |entries| ensures Idle(c, L, entries[i]) || In(block, entries[i].tx) {
        if !Idle(c, L, entries[i]) {
          var k :| 0 <= k < |mine| && mine[k] == entries[i].tx;
        }
      }
    }
    if IdleOrCommitted(c, L, entries, block) {
      forall k | 0 <= k < |mine| ensures In(block, mine[k]) {
        assert mine[k] in mine;
        var i :| 0 <= i < |entries| && entries[i].tx == mine[k] && !Idle(c, L, entries[i]);
      }
    }
  }

  /**
    With independent entries the condition needs no pass to check: the follower ends with the proposer's
    ledger if and only if each of its entries is idle or committed by the block.
   */
  lemma IndependentFollower(c: Crypto, P: LedgerState, F: LedgerState, txs: seq<Transaction>, order: seq<nat>, order': seq<nat>)
    requires Meets(c, P, F, txs, order, order') && Bounded(P, txs) && Independent(F.queue)
    ensures var p := Execute(c, P, txs, order);
            var block := BlockTransactions(p);
            var middle := AfterGroups(c, F, block, order');
            var same := SameLedger(p.ledger, Execute(c, F, block, order').ledger);
            && AllPlaced(middle, F.queue)
            && (IdleOrCommitted(c, middle, F.queue, p.drained.applied) ==> same)
            && (KeysTell(c, p.drained.applied, OwnTransfers(c, F, block, order')) ==>
                  (same <==> IdleOrCommitted(c, middle, F.queue, p.drained.applied)))
  {
    var p := Execute(c, P, txs, order);
    var block := BlockTransactions(p);
    var middle := AfterGroups(c, F, block, order');
    FollowerSplits(c, F, block, order');
    IndependentPass(c, middle, F.queue);
    CoversTheBusy(c, middle, F.queue, OwnTransfers(c, F, block, order'), p.drained.applied);
    WaitingFollower(c, P, F, txs, order, order');
  }

  /** Why no entry may pay a later one's sender: an entry that is idle for want of funds is applied once an earlier one brings them. */
  lemma CreditWakesEntry(c: Crypto, L: LedgerState, first: CrossTx, second: CrossTx)
    requires InOrder(c, L) && EntryOk(c, |L.shards|, first) && EntryOk(c, |L.shards|, second)
    requires Placed(L, first) && Placed(L, second) && AllPlaced(L, [first, second])
    requires first.tx.to == second.tx.from && first.key != second.key && !Idle(c, L, first)
    requires second.key !in L.keys && SignatureOk(c, second.tx)
    requires var v := ViewAt(c, L.shards, second.tx.from);
             v.held && v.nonce == second.tx.nonce && v.balance < second.tx.amount <= v.balance + first.tx.amount <= U64_MAX
    ensures Idle(c, L, second) && Drain(c, L, [first, second]).applied == [first.tx, second.tx]
  {
    var after := Paid(c, L, first);
    assert Idle(c, L, second) && InOrder(c, after) && !Idle(c, after, second) by {
      PayableAt(c, L, second);
      CreditArrives(c, L, first, second.tx.from);
      PayableAt(c, after, second);
      TransferKeepsPlacement(c, L, first);
    }
    BothAreApplied(c, L, first, second, after);
  }

  lemma BothAreApplied(c: Crypto, L: LedgerState, first: CrossTx, second: CrossTx, after: LedgerState)
    requires InOrder(c, L) && EntryOk(c, |L.shards|, first) && Placed(L, first) && !Idle(c, L, first)
    requires after == Paid(c, L, first)
    requires InOrder(c, after) && EntryOk(c, |after.shards|, second) && Placed(after, second) && !Idle(c, after, second)
    requires AllPlaced(L, [first, second])
    ensures Drain(c, L, [first, second]).applied == [first.tx, second.tx]
  {
    var one := Drained(after, [first.tx], [first.tx], [], []);
    assert Drain(c, L, [first]) == one by {
      assert [first] == [] + [first];
      OnePaid(c, L, Drained(L, [], [], [], []), first);
      DrainOneMore(c, L, [], first);
    }
    assert [first, second] == [first] + [second];
    OnePaid(c, after, one, second);
    DrainOneMore(c, L, [first], second);
  }

  lemma CreditArrives(c: Crypto, L: LedgerState, e: CrossTx, a: Address)
    requires InOrder(c, L) && EntryOk(c, |L.shards|, e) && Placed(L, e) && Payable(c, L, e) && a == e.tx.to
    requires ViewAt(c, L.shards, a).balance + e.tx.amount <= U64_MAX
    ensures var v := ViewAt(c, L.shards, a);
            ViewAt(c, Paid(c, L, e).shards, a) == v.(balance := v.balance + e.tx.amount, held := true)
  {
    TransferredShards(c, L.shards, Paid(c, L, e).shards, e.tx);
    EffectOfOne(e.tx, a);
    assert Moves(ViewAt(c, L.shards, a), ViewAt(c, Paid(c, L, e).shards, a), EffectOn([e.tx], a));
  }

  lemma OnePaid(c: Crypto, L: LedgerState, prev: Drained, e: CrossTx)
    requires InOrder(c, L) && EntryOk(c, |L.shards|, e) && Placed(L, e) && !Idle(c, L, e) && prev.ledger == L
    ensures Absorb(prev, e, ExecuteCrossShardCommit(c, L, e, NoFailure))
         == prev.(ledger := Paid(c, L, e), committed := prev.committed + [e.tx], applied := prev.applied + [e.tx])
  {
    CommitIsAtomic(c, L, e);
  }
}
