/** What a batch reports and where it ends: transaction by transaction, and batch after batch. */
module Batches {
  import opened Common
  import opened Ledger
  import opened LedgerSafety

  /** Running one list after the other is running the second from where the first ended. */
  lemma {:induction false} BatchConcat(c: Crypto, s: ShardState, l: seq<Transaction>, m: seq<Transaction>)
    ensures var first := RunBatch(c, s, l);
            var second := RunBatch(c, first.shard, m);
            RunBatch(c, s, l + m) == Batch(second.shard, first.processed + second.processed)
    decreases |m|
  {
    if m == [] {
      assert l + m == l;
    } else {
      assert (l + m)[..|l + m| - 1] == l + m[..|m| - 1];
      BatchConcat(c, s, l, m[..|m| - 1]);
    }
  }

  /** A batch of one: reported and applied if the shard accepts it, and otherwise nothing happens. */
  lemma BatchOfOne(c: Crypto, s: ShardState, tx: Transaction)
    ensures var b := RunBatch(c, s, [tx]);
            && (Accepts(c, s, tx) ==> b.processed == [tx] && b.shard == ApplyTransaction(s, tx))
            && (!Accepts(c, s, tx) ==> b.processed == [] && b.shard == s)
  {
    assert [tx][..0] == [];
  }

  /** A refused transaction costs the others nothing, wherever it stands. */
  lemma RefusedIsSkipped(c: Crypto, s: ShardState, l: seq<Transaction>, tx: Transaction, m: seq<Transaction>)
    requires !Accepts(c, RunBatch(c, s, l).shard, tx)
    ensures RunBatch(c, s, l + [tx] + m) == RunBatch(c, s, l + m)
  {
    BatchConcat(c, s, l + [tx], m);
    BatchConcat(c, s, l, [tx]);
    BatchOfOne(c, RunBatch(c, s, l).shard, tx);
    BatchConcat(c, s, l, m);
  }

  /** Does the shard reached so far accept the i-th transaction: a positive amount, held, at the tracker's nonce, signed? */
  predicate AcceptedAt(c: Crypto, s: ShardState, txs: seq<Transaction>, i: nat)
    requires i < |txs|
  {
    var now := RunBatch(c, s, txs[..i]).shard;
    && 0 < txs[i].amount <= BalanceOf(now, txs[i].from)
    && txs[i].nonce == NonceOf(now, txs[i].from)
    && SignatureOk(c, txs[i])
  }

  predicate Increasing(positions: seq<nat>) {
    forall i, j :: 0 <= i < j < |positions| ==> positions[i] < positions[j]
  }

  predicate Names(txs: seq<Transaction>, positions: seq<nat>, processed: seq<Transaction>) {
    && |positions| == |processed|
    && forall k :: 0 <= k < |positions| ==> positions[k] < |txs| && processed[k] == txs[positions[k]]
  }

  predicate AcceptedOnes(c: Crypto, s: ShardState, txs: seq<Transaction>, positions: seq<nat>) {
    forall i :: 0 <= i < |txs| ==> (i in positions <==> AcceptedAt(c, s, txs, i))
  }

  /** The positions of the reported transactions, in order: exactly those accepted when their turn comes. */
  predicate IsReport(c: Crypto, s: ShardState, txs: seq<Transaction>, positions: seq<nat>) {
    && Increasing(positions)
    && Names(txs, positions, RunBatch(c, s, txs).processed)
    && AcceptedOnes(c, s, txs, positions)
  }

  lemma LastReported(c: Crypto, s: ShardState, txs: seq<Transaction>)
    requires txs != []
    ensures var n := |txs| - 1;
            RunBatch(c, s, txs).processed
            == RunBatch(c, s, txs[..n]).processed + if AcceptedAt(c, s, txs, n) then [txs[n]] else []
  {
  }

  lemma AcceptedInFront(c: Crypto, s: ShardState, txs: seq<Transaction>, n: nat, i: nat)
    requires i < n <= |txs|
    ensures AcceptedAt(c, s, txs, i) <==> AcceptedAt(c, s, txs[..n], i)
  {
    assert txs[..n][..i] == txs[..i];
  }

  lemma NamesSnoc(txs: seq<Transaction>, positions: seq<nat>, processed: seq<Transaction>)
    requires txs != [] && Names(txs[..|txs| - 1], positions, processed)
    ensures Names(txs, positions, processed)
    ensures Names(txs, positions + [|txs| - 1], processed + [txs[|txs| - 1]])
    ensures forall k :: 0 <= k < |positions| ==> positions[k] < |txs| - 1
  {
  }

  lemma AcceptedSnoc(c: Crypto, s: ShardState, txs: seq<Transaction>, positions: seq<nat>)
    requires txs != [] && AcceptedOnes(c, s, txs[..|txs| - 1], positions)
    requires forall k :: 0 <= k < |positions| ==> positions[k] < |txs| - 1
    ensures AcceptedAt(c, s, txs, |txs| - 1) ==> AcceptedOnes(c, s, txs, positions + [|txs| - 1])
    ensures !AcceptedAt(c, s, txs, |txs| - 1) ==> AcceptedOnes(c, s, txs, positions)
  {
    var n := |txs| - 1;
    forall i | 0 <= i < n ensures i in positions <==> AcceptedAt(c, s, txs, i) {
      AcceptedInFront(c, s, txs, n, i);
    }
  }

  lemma ReportSnoc(c: Crypto, s: ShardState, txs: seq<Transaction>, positions: seq<nat>)
    requires txs != [] && IsReport(c, s, txs[..|txs| - 1], positions)
    ensures AcceptedAt(c, s, txs, |txs| - 1) ==> IsReport(c, s, txs, positions + [|txs| - 1])
    ensures !AcceptedAt(c, s, txs, |txs| - 1) ==> IsReport(c, s, txs, positions)
  {
    LastReported(c, s, txs);
    NamesSnoc(txs, positions, RunBatch(c, s, txs[..|txs| - 1]).processed);
    AcceptedSnoc(c, s, txs, positions);
  }

  /** The report is complete and sound: a transaction is reported if and only if the shard accepts it when its turn comes. */
  lemma {:induction false} BatchReports(c: Crypto, s: ShardState, txs: seq<Transaction>) returns (positions: seq<nat>)
    ensures IsReport(c, s, txs, positions)
  {
    positions := [];
    if txs != [] {
      var front := BatchReports(c, s, txs[..|txs| - 1]);
      positions := if AcceptedAt(c, s, txs, |txs| - 1) then front + [|txs| - 1] else front;
      ReportSnoc(c, s, txs, front);
    }
  }

  /** A same-shard transaction goes into its own shard's group, a cross-shard one into none, and order is kept. */
  lemma GroupOfOne(c: Crypto, tx: Transaction, n: nat, s: nat)
    requires n > 0
    ensures Group(c, [tx], n, s) == if ShardOf(c, tx.from, n) == s == ShardOf(c, tx.to, n) then [tx] else []
  {
    assert [tx][..0] == [];
  }

  /** A cross-shard transaction becomes one queue entry for its two shards, if such transfers are enabled. */
  lemma CrossGroupOfOne(c: Crypto, cfg: Config, tx: Transaction)
    requires cfg.shardCount > 0
    ensures var n := cfg.shardCount;
            var entries := CrossGroup(c, cfg, [tx]);
            if ShardOf(c, tx.from, n) != ShardOf(c, tx.to, n) && cfg.crossShardEnabled
            then |entries| == 1 && entries[0].tx == tx && entries[0].fromShard == ShardOf(c, tx.from, n)
                 && entries[0].toShard == ShardOf(c, tx.to, n) && entries[0].retries == 0 && entries[0].rollback == None
                 && entries[0].key == IdempotencyKey(c, tx)
            else entries == []
  {
    assert [tx][..0] == [];
  }

  /** A shard number is the rest of the address hash, divided by the number of shards. */
  lemma ShardIsRest(c: Crypto, a: Address, n: nat)
    requires n > 0
    ensures ShardOf(c, a, n) < n && exists q: nat :: c.addressHash(a) == Multiple(q, n) + ShardOf(c, a, n)
  {
    var h := c.addressHash(a);
    assert h == Multiple(h / n, n) + h % n;
  }

  function Multiple(q: nat, n: nat): nat {
    q * n
  }

  // ---------------------------------------------------------------- groups and the queue

  /** The group of one shard, run after others. */
  function Join(c: Crypto, prev: Groups, txs: seq<Transaction>, s: nat): Groups
    requires s < |prev.shards|
  {
    var batch := RunBatch(c, prev.shards[s], Group(c, txs, |prev.shards|, s));
    Groups(prev.shards[s := batch.shard.(healthy := true)], prev.processed + batch.processed)
  }

  lemma GroupsSnoc(c: Crypto, shards: seq<ShardState>, txs: seq<Transaction>, order: seq<nat>, front: seq<nat>, s: nat)
    requires |shards| > 0 && InRange(order, |shards|) && order == front + [s]
    ensures InRange(front, |shards|) && s < |shards|
    ensures RunGroups(c, shards, txs, order) == Join(c, RunGroups(c, shards, txs, front), txs, s)
  {
    assert order[|front|] == s && order[..|front|] == front;
    assert forall i :: 0 <= i < |front| ==> order[i] == front[i];
  }

  /** Groups that are joined later run on what earlier ones left, and report after them. */
  lemma {:induction false} GroupsConcat(c: Crypto, shards: seq<ShardState>, txs: seq<Transaction>,
                                         l: seq<nat>, m: seq<nat>, order: seq<nat>)
    requires |shards| > 0 && InRange(l, |shards|) && InRange(m, |shards|) && InRange(order, |shards|) && order == l + m
    ensures var first := RunGroups(c, shards, txs, l);
            var second := RunGroups(c, first.shards, txs, m);
            RunGroups(c, shards, txs, order) == Groups(second.shards, first.processed + second.processed)
    decreases |m|
  {
    if m == [] {
      assert order == l;
    } else {
      var front, s := m[..|m| - 1], m[|m| - 1];
      var first := RunGroups(c, shards, txs, l);
      assert m == front + [s] && order == l + front + [s];
      GroupsSnoc(c, first.shards, txs, m, front, s);
      GroupsSnoc(c, shards, txs, order, l + front, s);
      GroupsConcat(c, shards, txs, l, front, l + front);
      JoinLater(c, first.processed, RunGroups(c, first.shards, txs, front), txs, s);
    }
  }

  lemma JoinLater(c: Crypto, earlier: seq<Transaction>, prev: Groups, txs: seq<Transaction>, s: nat)
    requires s < |prev.shards|
    ensures var joined := Join(c, prev, txs, s);
            Join(c, Groups(prev.shards, earlier + prev.processed), txs, s) == Groups(joined.shards, earlier + joined.processed)
  {
  }

  /** One group runs its own transactions on its own shard, which is healthy afterwards. */
  lemma GroupAlone(c: Crypto, shards: seq<ShardState>, txs: seq<Transaction>, s: nat, i: nat)
    requires s < |shards| && i < |shards|
    ensures var batch := RunBatch(c, shards[s], Group(c, txs, |shards|, s));
            var groups := RunGroups(c, shards, txs, [s]);
            && groups.processed == batch.processed
            && groups.shards[i] == if i == s then batch.shard.(healthy := true) else shards[i]
  {
    assert [s][..0] == [];
  }

  /** The queue is first in, first out: what waits stays in front of what arrives, in the order of arrival. */
  lemma QueueGrows(c: Crypto, L: LedgerState, txs: seq<Transaction>, more: seq<Transaction>, order: seq<nat>)
    requires |L.shards| == L.config.shardCount > 0 && InRange(order, |L.shards|)
    ensures ProcessParallel(c, L, txs + more, order).0.queue
         == L.queue + CrossGroup(c, L.config, txs) + CrossGroup(c, L.config, more)
  {
    CrossGroupConcat(c, L.config, txs, more);
    Associates(L.queue, CrossGroup(c, L.config, txs), CrossGroup(c, L.config, more));
  }

  lemma Associates<T>(k: seq<T>, l: seq<T>, m: seq<T>)
    ensures k + (l + m) == k + l + m
  {
  }

  lemma {:induction false} CrossGroupConcat(c: Crypto, cfg: Config, l: seq<Transaction>, m: seq<Transaction>)
    requires cfg.shardCount > 0
    ensures CrossGroup(c, cfg, l + m) == CrossGroup(c, cfg, l) + CrossGroup(c, cfg, m)
    decreases |m|
  {
    if m == [] {
      assert l + m == l;
    } else {
      assert (l + m)[..|l + m| - 1] == l + m[..|m| - 1];
      CrossGroupConcat(c, cfg, l, m[..|m| - 1]);
    }
  }

  lemma {:induction false} GroupConcat(c: Crypto, l: seq<Transaction>, m: seq<Transaction>, n: nat, s: nat)
    requires n > 0
    ensures Group(c, l + m, n, s) == Group(c, l, n, s) + Group(c, m, n, s)
    decreases |m|
  {
    if m == [] {
      assert l + m == l;
    } else {
      assert (l + m)[..|l + m| - 1] == l + m[..|m| - 1];
      GroupConcat(c, l, m[..|m| - 1], n, s);
    }
  }

  /** What two drains, one after the other, come to. */
  function Then(first: Drained, second: Drained): Drained {
    Drained(second.ledger, first.committed + second.committed, first.applied + second.applied,
            first.skipped + second.skipped, first.retained + second.retained)
  }

  lemma AbsorbLater(first: Drained, second: Drained, e: CrossTx, p: Phase)
    ensures Absorb(Then(first, second), e, p) == Then(first, Absorb(second, e, p))
  {
  }

  /** One more entry, attempted after others. */
  function Attempt(c: Crypto, prev: Drained, e: CrossTx): Drained
    requires Placed(prev.ledger, e)
  {
    Absorb(prev, e, ExecuteCrossShardCommit(c, prev.ledger, e, NoFailure))
  }

  lemma DrainSnoc(c: Crypto, L: LedgerState, entries: seq<CrossTx>, front: seq<CrossTx>, e: CrossTx)
    requires AllPlaced(L, entries) && entries == front + [e]
    ensures AllPlaced(L, front) && Placed(Drain(c, L, front).ledger, e)
    ensures Drain(c, L, entries) == Attempt(c, Drain(c, L, front), e)
  {
    assert entries[|front|] == e && entries[..|front|] == front;
    assert forall i :: 0 <= i < |front| ==> entries[i] == front[i];
  }

  lemma AttemptLater(c: Crypto, first: Drained, second: Drained, e: CrossTx)
    requires Placed(second.ledger, e)
    ensures Attempt(c, Then(first, second), e) == Then(first, Attempt(c, second, e))
  {
    AbsorbLater(first, second, e, ExecuteCrossShardCommit(c, second.ledger, e, NoFailure));
  }

  /** Attempting one list of entries after the other is attempting the second on what the first left. */
  lemma {:induction false} DrainConcat(c: Crypto, L: LedgerState, l: seq<CrossTx>, m: seq<CrossTx>, entries: seq<CrossTx>)
    requires AllPlaced(L, l) && AllPlaced(L, m) && AllPlaced(L, entries) && entries == l + m
    ensures AllPlaced(Drain(c, L, l).ledger, m)
    ensures Drain(c, L, entries) == Then(Drain(c, L, l), Drain(c, Drain(c, L, l).ledger, m))
    decreases |m|
  {
    if m == [] {
      assert entries == l;
    } else {
      var front, e := m[..|m| - 1], m[|m| - 1];
      var first := Drain(c, L, l);
      assert m == front + [e] && entries == l + front + [e];
      DrainSnoc(c, L, entries, l + front, e);
      DrainSnoc(c, first.ledger, m, front, e);
      DrainConcat(c, L, l, front, l + front);
      AttemptLater(c, first, Drain(c, first.ledger, front), e);
    }
  }

  /**
    An entry that succeeds is committed, as applied or, if its key was known, as skipped; one that fails
    waits for its next attempt, up to three.
   */
  lemma EntryAlone(c: Crypto, L: LedgerState, e: CrossTx)
    requires Placed(L, e)
    ensures AllPlaced(L, [e])
    ensures var p := ExecuteCrossShardCommit(c, L, e, NoFailure);
            var d := Drain(c, L, [e]);
            && d.ledger == p.ledger
            && d.committed == d.applied + d.skipped == (if p.ok then [e.tx] else [])
            && (d.skipped != [] <==> p.ok && e.key in L.keys)
            && d.retained == if !p.ok && e.retries < 2 then [p.ctx.(retries := e.retries + 1)] else []
  {
    assert [e][..0] == [];
  }
}
