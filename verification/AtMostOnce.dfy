/**
  How often a transaction can take effect. Between two expansions, no sender's nonce is applied twice and no
  applied transaction is acceptable again; an expansion forgets the trackers and reopens each sender's nonce zero.
 */
module AtMostOnce {
  import opened Common
  import opened Ledger
  import opened LedgerSafety
  import opened Expansion
  import opened LedgerRuns

  /** A history whose nonces are in order and can be told apart. */
  ghost predicate Ordered(c: Crypto, t: Trace) {
    NoncesOk(c, t) && t.tally.slips == 0 && |t.log| < U64_SIZE
  }

  /** The nonces of one sender in the log, and its tracker. */
  lemma LogCountsUp(c: Crypto, t: Trace, a: Address)
    requires Ordered(c, t)
    ensures CountsUp(NoncesOf(t.log, a), HomeNonce(c, t.base, a), HomeNonce(c, t.ledger.shards, a))
    ensures |NoncesOf(t.log, a)| < U64_SIZE
  {
    NoncesAtMost(t.log, a);
  }

  /**
    In every run, as long as no failed attempt moved a tracker: two applied transactions of one sender since
    the last expansion, same-shard or cross-shard, have different nonces. So none is applied twice.
   */
  lemma AppliedOnce(c: Crypto, ts: seq<Trace>, es: seq<Event>, k: nat, i: nat, j: nat)
    requires IsRun(c, ts, es) && k < |ts| && ts[0] == Start(ts[0].ledger) && Standing(c, ts[0].ledger)
    requires var t := ts[k];
             && t.tally.slips == 0 && |t.log| < U64_SIZE && i < |t.log| && j < |t.log|
             && t.log[i].from == t.log[j].from && t.log[i].nonce == t.log[j].nonce
    ensures i == j
  {
    var t, a := ts[k], ts[k].log[i].from;
    RunIsSafe(c, ts, es, k);
    LogCountsUp(c, t, a);
    NonceTells(t.log, a, HomeNonce(c, t.base, a), HomeNonce(c, t.ledger.shards, a), i, j);
  }

  lemma OffsetBelow(start: u64, x: nat, n: nat)
    requires x < n < U64_SIZE
    ensures (start + x) % U64_SIZE != (start + n) % U64_SIZE
  {
  }

  /** What was applied is not acceptable again: neither a shard nor two-phase commit takes its nonce. */
  lemma NeverAcceptedAgain(c: Crypto, t: Trace, i: nat)
    requires Ordered(c, t) && i < |t.log|
    ensures t.log[i].nonce != HomeNonce(c, t.ledger.shards, t.log[i].from)
    ensures !Accepts(c, t.ledger.shards[ShardOf(c, t.log[i].from, |t.ledger.shards|)], t.log[i])
  {
    var a := t.log[i].from;
    LogCountsUp(c, t, a);
    NonceAt(t.log, a, i);
    OffsetBelow(HomeNonce(c, t.base, a), |NoncesOf(t.log[..i], a)|, |NoncesOf(t.log, a)|);
  }

  /**
    What an expansion makes acceptable again, exactly: a transaction within one of the new shards whose nonce
    is zero, if it is signed and its sender still holds the amount.
   */
  lemma ReopenedByExpansion(c: Crypto, L: LedgerState, additional: nat, tx: Transaction, s: nat)
    requires ValidConfig(L.config) && |L.shards| == L.config.shardCount && HomePlaced(c, L.shards)
    requires var n := ExpandedCount(L.config, additional); n > L.config.shardCount && IsSameShard(c, tx, n, s)
    ensures var L' := ExpandShards(c, L, additional);
            && s < |L'.shards|
            && (Accepts(c, L'.shards[s], tx) <==>
                  tx.nonce == 0 && 0 < tx.amount <= GetBalance(c, L, tx.from) && SignatureOk(c, tx))
  {
    var L' := ExpandShards(c, L, additional);
    ExpansionIsSafe(c, L, additional);
    assert GetBalance(c, L', tx.from) == GetBalance(c, L, tx.from) && HomeNonce(c, L'.shards, tx.from) == 0;
  }

  /** At most one of a sender's transactions since the last expansion is reopened by the next: the one with nonce zero. */
  lemma ReopensAtMostOne(c: Crypto, t: Trace, additional: nat, i: nat, j: nat)
    requires Ordered(c, t) && Standing(c, t.ledger) && i < |t.log| && j < |t.log| && t.log[i].from == t.log[j].from
    requires ExpandedCount(t.ledger.config, additional) > t.ledger.config.shardCount
    requires var L' := ExpandShards(c, t.ledger, additional);
             var n := ExpandedCount(t.ledger.config, additional);
             var s := ShardOf(c, t.log[i].from, n);
             && IsSameShard(c, t.log[i], n, s) && IsSameShard(c, t.log[j], n, s) && |L'.shards| == n
             && Accepts(c, L'.shards[s], t.log[i]) && Accepts(c, L'.shards[s], t.log[j])
    ensures i == j
  {
    var a, s := t.log[i].from, ShardOf(c, t.log[i].from, ExpandedCount(t.ledger.config, additional));
    ReopenedByExpansion(c, t.ledger, additional, t.log[i], s);
    ReopenedByExpansion(c, t.ledger, additional, t.log[j], s);
    LogCountsUp(c, t, a);
    NonceTells(t.log, a, HomeNonce(c, t.base, a), HomeNonce(c, t.ledger.shards, a), i, j);
  }
}
