/**
  What every step of the sharded ledger keeps: the supply, the placement of accounts, the nonce
  order of each sender, and the at-most-once effect of each idempotency key.
 */
module LedgerSafety {
  import opened Common
  import opened Sums
  import opened Ledger

  // ---------------------------------------------------------------- supply

  ghost function Balances(accounts: map<Address, Account>): map<Address, nat> {
    map a | a in accounts :: accounts[a].balance
  }

  ghost function ShardTotal(s: ShardState): nat {
    MapSum(Balances(s.accounts))
  }

  /** The sum of all balances over all shards. */
  ghost function Supply(shards: seq<ShardState>): nat {
    if shards == [] then 0 else Supply(shards[..|shards| - 1]) + ShardTotal(shards[|shards| - 1])
  }

  lemma {:induction false} SupplyUpdate(shards: seq<ShardState>, i: nat, s: ShardState)
    requires i < |shards|
    ensures Supply(shards[i := s]) == Supply(shards) - ShardTotal(shards[i]) + ShardTotal(s)
  {
    var n := |shards| - 1;
    if i == n {
      assert shards[i := s][..n] == shards[..n];
    } else {
      assert shards[i := s][..n] == shards[..n][i := s];
      SupplyUpdate(shards[..n], i, s);
    }
  }

  lemma {:induction false} ShardTotalBound(shards: seq<ShardState>, i: nat)
    requires i < |shards|
    ensures ShardTotal(shards[i]) <= Supply(shards)
  {
    if i < |shards| - 1 {
      ShardTotalBound(shards[..|shards| - 1], i);
    }
  }

  lemma SetBalance(s: ShardState, s': ShardState, a: Address, account: Account)
    requires s'.accounts == s.accounts[a := account]
    ensures ShardTotal(s') == ShardTotal(s) - BalanceOf(s, a) + account.balance
  {
    assert Balances(s'.accounts) == Balances(s.accounts)[a := account.balance];
    MapSumUpdate(Balances(s.accounts), a, account.balance);
  }

  lemma BalanceBound(s: ShardState, a: Address)
    ensures BalanceOf(s, a) <= ShardTotal(s)
  {
    if a in s.accounts {
      MapSumRemove(Balances(s.accounts), a);
    }
  }

  lemma DebitTotal(s: ShardState, tx: Transaction)
    requires tx.from in s.accounts && s.accounts[tx.from].balance >= tx.amount
    ensures ShardTotal(Debit(s, tx)) == ShardTotal(s) - tx.amount
  {
    var sender := s.accounts[tx.from];
    SetBalance(s, Debit(s, tx), tx.from, sender.(balance := sender.balance - tx.amount));
  }

  lemma CreditTotal(s: ShardState, to: Address, amount: u64)
    requires ShardTotal(s) + amount <= U64_MAX
    ensures ShardTotal(Credit(s, to, amount)) == ShardTotal(s) + amount
  {
    BalanceBound(s, to);
    SetBalance(s, Credit(s, to, amount), to, Credit(s, to, amount).accounts[to]);
  }

  // ---------------------------------------------------------------- nonces

  function HomeNonce(c: Crypto, shards: seq<ShardState>, a: Address): u64
    requires |shards| > 0
  {
    NonceOf(shards[ShardOf(c, a, |shards|)], a)
  }

  /** The nonces of one sender's transactions in a log, in log order. */
  function NoncesOf(log: seq<Transaction>, a: Address): seq<u64> {
    if log == [] then [] else
      var prev := NoncesOf(log[..|log| - 1], a);
      if log[|log| - 1].from == a then prev + [log[|log| - 1].nonce] else prev
  }

  lemma {:induction false} NoncesOfConcat(l: seq<Transaction>, m: seq<Transaction>, a: Address)
    ensures NoncesOf(l + m, a) == NoncesOf(l, a) + NoncesOf(m, a)
    decreases |m|
  {
    if m == [] {
      assert l + m == l;
    } else {
      assert (l + m)[..|l + m| - 1] == l + m[..|m| - 1];
      NoncesOfConcat(l, m[..|m| - 1], a);
    }
  }

  /** The sender's transactions count up from `start` without gap or repeat (modulo the word size) to `next`. */
  ghost predicate CountsUp(nonces: seq<u64>, start: u64, next: u64) {
    && (forall i :: 0 <= i < |nonces| ==> nonces[i] == (start + i) % U64_SIZE)
    && next == (start + |nonces|) % U64_SIZE
  }

  /** Between two shard states, the logged transactions of every sender count up to the tracker value. */
  ghost predicate NonceDiscipline(c: Crypto, before: seq<ShardState>, after: seq<ShardState>, log: seq<Transaction>)
    requires |before| == |after| > 0
  {
    forall a :: CountsUp(NoncesOf(log, a), HomeNonce(c, before, a), HomeNonce(c, after, a))
  }

  lemma WordShift(x: nat, j: nat)
    ensures (x % U64_SIZE + j) % U64_SIZE == (x + j) % U64_SIZE
  {
  }

  lemma CountsUpConcat(m: seq<u64>, n: seq<u64>, start: u64, middle: u64, next: u64)
    requires CountsUp(m, start, middle) && CountsUp(n, middle, next)
    ensures CountsUp(m + n, start, next)
  {
    forall i | 0 <= i < |m + n|
      ensures (m + n)[i] == (start + i) % U64_SIZE
    {
      if i >= |m| {
        assert (m + n)[i] == n[i - |m|];
        WordShift(start + |m|, i - |m|);
      }
    }
    WordShift(start + |m|, |n|);
  }

  lemma NonceDisciplineCompose(c: Crypto, s0: seq<ShardState>, s1: seq<ShardState>, s2: seq<ShardState>,
                               l: seq<Transaction>, m: seq<Transaction>)
    requires |s0| == |s1| == |s2| > 0
    requires NonceDiscipline(c, s0, s1, l) && NonceDiscipline(c, s1, s2, m)
    ensures NonceDiscipline(c, s0, s2, l + m)
  {
    forall a ensures CountsUp(NoncesOf(l + m, a), HomeNonce(c, s0, a), HomeNonce(c, s2, a)) {
      NoncesOfConcat(l, m, a);
      CountsUpConcat(NoncesOf(l, a), NoncesOf(m, a), HomeNonce(c, s0, a), HomeNonce(c, s1, a), HomeNonce(c, s2, a));
    }
  }

  /** Where a transaction's nonce stands in its sender's list. */
  lemma NonceAt(log: seq<Transaction>, a: Address, i: nat)
    requires i < |log| && log[i].from == a
    ensures |NoncesOf(log[..i], a)| < |NoncesOf(log, a)| && NoncesOf(log, a)[|NoncesOf(log[..i], a)|] == log[i].nonce
  {
    var upto := log[..i + 1];
    assert upto[..i] == log[..i] && log == upto + log[i + 1..];
    NoncesOfConcat(upto, log[i + 1..], a);
  }

  lemma {:induction false} NonceFrom(log: seq<Transaction>, a: Address, k: nat) returns (i: nat)
    requires k < |NoncesOf(log, a)|
    ensures i < |log| && log[i].from == a && log[i].nonce == NoncesOf(log, a)[k]
  {
    var n := |log| - 1;
    if k < |NoncesOf(log[..n], a)| {
      i := NonceFrom(log[..n], a, k);
    } else {
      i := n;
    }
  }

  lemma {:induction false} NoncesAtMost(log: seq<Transaction>, a: Address)
    ensures |NoncesOf(log, a)| <= |log|
  {
    if log != [] {
      NoncesAtMost(log[..|log| - 1], a);
    }
  }

  /** Nonces that count up tell a sender's transactions apart, as long as there are no more of them than nonces. */
  lemma NonceTells(log: seq<Transaction>, a: Address, start: u64, next: u64, i: nat, j: nat)
    requires CountsUp(NoncesOf(log, a), start, next) && |NoncesOf(log, a)| <= U64_SIZE
    requires i < |log| && j < |log| && log[i].from == a == log[j].from && log[i].nonce == log[j].nonce
    ensures i == j
  {
    if i < j {
      NonceRises(log, a, start, next, i, j);
    } else if j < i {
      NonceRises(log, a, start, next, j, i);
    }
  }

  lemma NonceRises(log: seq<Transaction>, a: Address, start: u64, next: u64, i: nat, j: nat)
    requires CountsUp(NoncesOf(log, a), start, next) && |NoncesOf(log, a)| <= U64_SIZE
    requires i < j < |log| && log[i].from == a == log[j].from
    ensures log[i].nonce != log[j].nonce
  {
    NonceAt(log, a, i);
    NonceAt(log, a, j);
    NonceAt(log[..j], a, i);
    assert log[..j][..i] == log[..i];
    DifferentOffsets(start, |NoncesOf(log[..i], a)|, |NoncesOf(log[..j], a)|);
  }

  lemma DifferentOffsets(start: u64, x: nat, y: nat)
    requires x < y < U64_SIZE
    ensures (start + x) % U64_SIZE != (start + y) % U64_SIZE
  {
  }

  // ---------------------------------------------------------------- the invariant

  /** Every account and every nonce lives in the shard its address hashes to. */
  ghost predicate HomePlaced(c: Crypto, shards: seq<ShardState>) {
    forall i, a :: 0 <= i < |shards| && (a in shards[i].accounts || a in shards[i].nonces)
                   ==> ShardOf(c, a, |shards|) == i
  }

  ghost predicate AllHealthy(shards: seq<ShardState>) {
    forall i :: 0 <= i < |shards| ==> shards[i].healthy
  }

  /**
    A queued transfer carries current shard indices and a retry count below the limit. If an earlier
    attempt timed out after it captured the source, the captured data is still there.
   */
  ghost predicate QueuedOk(c: Crypto, shardCount: nat, e: CrossTx)
    requires shardCount > 0
  {
    && IsCrossShard(c, e.tx, shardCount)
    && e == NewCrossTx(c, e.tx, shardCount).(commit := e.commit, retries := e.retries, rollback := e.rollback)
    && e.retries < MAX_RETRY_ATTEMPTS
    && (e.rollback.Some? ==> e.rollback.value.from == e.tx.from && e.rollback.value.amount == e.tx.amount)
  }

  ghost predicate QueueOk(c: Crypto, shardCount: nat, entries: seq<CrossTx>)
    requires shardCount > 0
  {
    forall i :: 0 <= i < |entries| ==> QueuedOk(c, shardCount, entries[i])
  }

  /** A queued transfer whose attempts so far never timed out after capturing the source. */
  ghost predicate EntryOk(c: Crypto, shardCount: nat, e: CrossTx)
    requires shardCount > 0
  {
    QueuedOk(c, shardCount, e) && e.rollback == None
  }

  ghost predicate EntriesOk(c: Crypto, shardCount: nat, entries: seq<CrossTx>)
    requires shardCount > 0
  {
    forall i :: 0 <= i < |entries| ==> EntryOk(c, shardCount, entries[i])
  }

  /** A ledger whose queue may hold transfers that timed out. */
  ghost predicate Standing(c: Crypto, L: LedgerState) {
    && ValidConfig(L.config)
    && |L.shards| == L.config.shardCount
    && HomePlaced(c, L.shards)
    && AllHealthy(L.shards)
    && L.locks == {}
    && QueueOk(c, L.config.shardCount, L.queue)
    && (!L.config.crossShardEnabled ==> L.queue == [])
  }

  ghost predicate Invariant(c: Crypto, L: LedgerState) {
    Standing(c, L) && EntriesOk(c, L.config.shardCount, L.queue)
  }

  lemma {:induction false} CrossGroupOk(c: Crypto, cfg: Config, txs: seq<Transaction>)
    requires cfg.shardCount > 0
    ensures EntriesOk(c, cfg.shardCount, CrossGroup(c, cfg, txs))
    ensures forall i :: 0 <= i < |CrossGroup(c, cfg, txs)| ==> CrossGroup(c, cfg, txs)[i].retries == 0
    ensures !cfg.crossShardEnabled ==> CrossGroup(c, cfg, txs) == []
  {
    if txs != [] {
      CrossGroupOk(c, cfg, txs[..|txs| - 1]);
    }
  }

  // ---------------------------------------------------------------- same-shard batches

  lemma {:induction false} GroupIsSameShard(c: Crypto, txs: seq<Transaction>, n: nat, s: nat)
    requires n > 0
    ensures forall i :: 0 <= i < |Group(c, txs, n, s)| ==> IsSameShard(c, Group(c, txs, n, s)[i], n, s)
  {
    if txs != [] {
      GroupIsSameShard(c, txs[..|txs| - 1], n, s);
    }
  }

  ghost predicate AllSameShard(c: Crypto, txs: seq<Transaction>, n: nat, s: nat)
    requires n > 0
  {
    forall i :: 0 <= i < |txs| ==> IsSameShard(c, txs[i], n, s)
  }

  /** An accepted transaction moves its amount from the sender to the receiver, advances the sender's nonce, and does nothing else. */
  lemma ApplyMoves(c: Crypto, s: ShardState, tx: Transaction, a: Address)
    requires Accepts(c, s, tx)
    ensures var s' := ApplyTransaction(s, tx);
            && NonceOf(s', a) == (if a == tx.from then WrapAdd(tx.nonce, 1) else NonceOf(s, a))
            && BalanceOf(s', a) == (if tx.from == tx.to then BalanceOf(s, a)
                                    else if a == tx.from then BalanceOf(s, a) - tx.amount
                                    else if a == tx.to then SaturatingAdd(BalanceOf(s, a), tx.amount)
                                    else BalanceOf(s, a))
  {
  }

  /** Accepting one same-shard transaction keeps supply and placement and advances only its sender's nonce. */
  lemma ApplyKeeps(c: Crypto, shards: seq<ShardState>, s: nat, tx: Transaction)
    requires s < |shards| && HomePlaced(c, shards)
    requires IsSameShard(c, tx, |shards|, s) && Accepts(c, shards[s], tx)
    ensures HomePlaced(c, shards[s := ApplyTransaction(shards[s], tx)])
    ensures Supply(shards) <= U64_MAX ==> Supply(shards[s := ApplyTransaction(shards[s], tx)]) == Supply(shards)
    ensures NonceDiscipline(c, shards, shards[s := ApplyTransaction(shards[s], tx)], [tx])
  {
    var after := shards[s := ApplyTransaction(shards[s], tx)];
    if Supply(shards) <= U64_MAX {
      ShardTotalBound(shards, s);
      DebitTotal(shards[s], tx);
      CreditTotal(Debit(shards[s], tx), tx.to, tx.amount);
      SupplyUpdate(shards, s, after[s]);
    }
    OneNonce(c, shards, after, s, tx);
  }

  lemma NoncesOfOne(tx: Transaction, a: Address)
    ensures NoncesOf([tx], a) == if tx.from == a then [tx.nonce] else []
  {
  }

  lemma CountOne(n: u64)
    ensures CountsUp([n], n, WrapAdd(n, 1)) && CountsUp([], n, n)
  {
  }

  lemma OneNonce(c: Crypto, before: seq<ShardState>, after: seq<ShardState>, s: nat, tx: Transaction)
    requires s < |before| == |after| && ShardOf(c, tx.from, |before|) == s
    requires tx.nonce == NonceOf(before[s], tx.from)
    requires after[s].nonces == before[s].nonces[tx.from := WrapAdd(tx.nonce, 1)]
    requires forall i :: 0 <= i < |before| && i != s ==> after[i].nonces == before[i].nonces
    ensures NonceDiscipline(c, before, after, [tx])
  {
    forall a ensures CountsUp(NoncesOf([tx], a), HomeNonce(c, before, a), HomeNonce(c, after, a)) {
      NoncesOfOne(tx, a);
      CountOne(HomeNonce(c, before, a));
      if ShardOf(c, a, |before|) != s {
        assert after[ShardOf(c, a, |before|)].nonces == before[ShardOf(c, a, |before|)].nonces;
      }
    }
  }

  /** One more accepted transaction, with the shard so far as s. */
  lemma AcceptKeeps(c: Crypto, shards: seq<ShardState>, i: nat, s: ShardState, processed: seq<Transaction>, tx: Transaction)
    requires i < |shards| && HomePlaced(c, shards[i := s]) && NonceDiscipline(c, shards, shards[i := s], processed)
    requires IsSameShard(c, tx, |shards|, i) && Accepts(c, s, tx)
    ensures HomePlaced(c, shards[i := ApplyTransaction(s, tx)])
    ensures Supply(shards[i := s]) <= U64_MAX ==> Supply(shards[i := ApplyTransaction(s, tx)]) == Supply(shards[i := s])
    ensures NonceDiscipline(c, shards, shards[i := ApplyTransaction(s, tx)], processed + [tx])
  {
    var middle := shards[i := s];
    ApplyKeeps(c, middle, i, tx);
    assert middle[i := ApplyTransaction(s, tx)] == shards[i := ApplyTransaction(s, tx)];
    NonceDisciplineCompose(c, shards, middle, shards[i := ApplyTransaction(s, tx)], processed, [tx]);
  }

  lemma {:induction false} BatchKeeps(c: Crypto, shards: seq<ShardState>, s: nat, txs: seq<Transaction>)
    requires s < |shards| && HomePlaced(c, shards)
    requires AllSameShard(c, txs, |shards|, s)
    ensures HomePlaced(c, shards[s := RunBatch(c, shards[s], txs).shard])
    ensures Supply(shards) <= U64_MAX ==> Supply(shards[s := RunBatch(c, shards[s], txs).shard]) == Supply(shards)
    ensures NonceDiscipline(c, shards, shards[s := RunBatch(c, shards[s], txs).shard], RunBatch(c, shards[s], txs).processed)
    ensures RunBatch(c, shards[s], txs).shard.healthy == shards[s].healthy
    ensures AllSameShard(c, RunBatch(c, shards[s], txs).processed, |shards|, s)
  {
    if txs == [] {
      assert shards[s := shards[s]] == shards;
    } else {
      var tx := txs[|txs| - 1];
      BatchKeeps(c, shards, s, txs[..|txs| - 1]);
      var prev := RunBatch(c, shards[s], txs[..|txs| - 1]);
      if Accepts(c, prev.shard, tx) {
        AcceptKeeps(c, shards, s, prev.shard, prev.processed, tx);
      }
    }
  }

  ghost predicate InRange(order: seq<nat>, n: nat) {
    forall i :: 0 <= i < |order| ==> order[i] < n
  }

  lemma {:induction false} GroupsKeep(c: Crypto, shards: seq<ShardState>, txs: seq<Transaction>, order: seq<nat>)
    requires |shards| > 0 && InRange(order, |shards|)
    requires HomePlaced(c, shards) && AllHealthy(shards)
    ensures var g := RunGroups(c, shards, txs, order);
            && HomePlaced(c, g.shards) && AllHealthy(g.shards)
            && (Supply(shards) <= U64_MAX ==> Supply(g.shards) == Supply(shards))
            && NonceDiscipline(c, shards, g.shards, g.processed)
  {
    if order != [] {
      var prev := RunGroups(c, shards, txs, order[..|order| - 1]);
      GroupsKeep(c, shards, txs, order[..|order| - 1]);
      var s := order[|order| - 1];
      var group := Group(c, txs, |shards|, s);
      GroupIsSameShard(c, txs, |shards|, s);
      BatchKeeps(c, prev.shards, s, group);
      var batch := RunBatch(c, prev.shards[s], group);
      assert batch.shard.(healthy := true) == batch.shard;
      NonceDisciplineCompose(c, shards, prev.shards, prev.shards[s := batch.shard], prev.processed, batch.processed);
    }
  }
}
