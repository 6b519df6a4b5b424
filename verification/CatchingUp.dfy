/**
  A follower that applied some of a block's transfers before the block came, in an order of its own, catches
  up with the proposer: it skips what it knows, can pay for the rest, and ends in the same shards.
 */
module CatchingUp {
  import opened Common
  import opened Ledger
  import opened LedgerSafety
  import opened TwoPhaseCommit
  import opened Replication
  import opened TransferEffects

  // ---------------------------------------------------------------- which transfers are still ahead

  /** The same movement of funds: sender, receiver, amount and nonce. Time stamps and memos may differ. */
  predicate SameTransfer(t: Transaction, u: Transaction) {
    t.from == u.from && t.to == u.to && t.amount == u.amount && t.nonce == u.nonce
  }

  ghost predicate In(block: seq<Transaction>, t: Transaction) {
    exists j :: 0 <= j < |block| && SameTransfer(block[j], t)
  }

  /** The block applies every one of these transfers. */
  ghost predicate Covers(block: seq<Transaction>, mine: seq<Transaction>) {
    forall i :: 0 <= i < |mine| ==> In(block, mine[i])
  }

  ghost predicate DistinctKeys(c: Crypto, txs: seq<Transaction>) {
    forall i, j :: 0 <= i < j < |txs| ==> IdempotencyKey(c, txs[i]) != IdempotencyKey(c, txs[j])
  }

  /** The transfers whose keys are not among these. */
  function Left(c: Crypto, txs: seq<Transaction>, keys: set<Key>): seq<Transaction> {
    if txs == [] then [] else
      var front, last := Left(c, txs[..|txs| - 1], keys), txs[|txs| - 1];
      if IdempotencyKey(c, last) in keys then front else front + [last]
  }

  lemma {:induction false} LeftSame(c: Crypto, txs: seq<Transaction>, keys: set<Key>, k: Key)
    requires k !in KeysOf(c, txs)
    ensures Left(c, txs, keys + {k}) == Left(c, txs, keys)
  {
    if txs != [] {
      FrontKeys(c, txs);
      LeftSame(c, txs[..|txs| - 1], keys, k);
    }
  }

  lemma FrontKeys(c: Crypto, txs: seq<Transaction>)
    requires txs != []
    ensures KeysOf(c, txs) == KeysOf(c, txs[..|txs| - 1]) + {IdempotencyKey(c, txs[|txs| - 1])}
  {
    var n := |txs| - 1;
    assert txs == txs[..n] + [txs[n]];
    KeysOfConcat(c, txs[..n], [txs[n]]);
    FreshKey(c, {}, txs[n]);
  }

  lemma KeyIn(c: Crypto, txs: seq<Transaction>, k: Key) returns (i: nat)
    requires k in KeysOf(c, txs)
    ensures i < |txs| && IdempotencyKey(c, txs[i]) == k
  {
    i :| 0 <= i < |txs| && IdempotencyKey(c, txs[i]) == k;
  }

  lemma LeftSnoc(c: Crypto, txs: seq<Transaction>, keys: set<Key>, a: Address)
    requires txs != []
    ensures var front, last := Left(c, txs[..|txs| - 1], keys), txs[|txs| - 1];
            EffectOn(Left(c, txs, keys), a)
            == if IdempotencyKey(c, last) in keys then EffectOn(front, a) else Plus(EffectOf(last, a), EffectOn(front, a))
  {
    EffectOfSnoc(Left(c, txs[..|txs| - 1], keys), txs[|txs| - 1], a);
  }

  lemma DistinctFront(c: Crypto, txs: seq<Transaction>)
    requires txs != [] && DistinctKeys(c, txs)
    ensures DistinctKeys(c, txs[..|txs| - 1]) && IdempotencyKey(c, txs[|txs| - 1]) !in KeysOf(c, txs[..|txs| - 1])
  {
    var n := |txs| - 1;
    assert forall j :: 0 <= j < n ==> txs[..n][j] == txs[j];
    if IdempotencyKey(c, txs[n]) in KeysOf(c, txs[..n]) {
      var j := KeyIn(c, txs[..n], IdempotencyKey(c, txs[n]));
    }
  }

  /** One more known key takes one transfer off. */
  lemma {:induction false} LeftShrinks(c: Crypto, txs: seq<Transaction>, keys: set<Key>, i: nat, k: Key, a: Address)
    requires DistinctKeys(c, txs) && i < |txs| && k == IdempotencyKey(c, txs[i]) && k !in keys
    ensures EffectOn(Left(c, txs, keys), a) == Plus(EffectOf(txs[i], a), EffectOn(Left(c, txs, keys + {k}), a))
  {
    var n := |txs| - 1;
    DistinctFront(c, txs);
    LeftSnoc(c, txs, keys, a);
    LeftSnoc(c, txs, keys + {k}, a);
    if i == n {
      LeftSame(c, txs[..n], keys, k);
    } else {
      LeftShrinks(c, txs[..n], keys, i, k, a);
      LastDiffers(c, txs, i);
      AddLast(EffectOf(txs[n], a), EffectOf(txs[i], a), EffectOn(Left(c, txs[..n], keys), a), EffectOn(Left(c, txs[..n], keys + {k}), a));
    }
  }

  lemma LeftWithout(c: Crypto, txs: seq<Transaction>, keys: set<Key>, i: nat, k: Key, t: Transaction)
    requires DistinctKeys(c, txs) && i < |txs| && SameTransfer(t, txs[i]) && IdempotencyKey(c, txs[i]) == k && k !in keys
    ensures forall a :: EffectOn(Left(c, txs, keys), a) == Plus(EffectOf(t, a), EffectOn(Left(c, txs, keys + {k}), a))
  {
    forall a ensures EffectOn(Left(c, txs, keys), a) == Plus(EffectOf(t, a), EffectOn(Left(c, txs, keys + {k}), a)) {
      LeftShrinks(c, txs, keys, i, k, a);
      SameEffect(t, txs[i], a);
    }
  }

  lemma SameEffect(t: Transaction, u: Transaction, a: Address)
    requires SameTransfer(t, u)
    ensures EffectOf(t, a) == EffectOf(u, a)
  {
  }

  lemma LastDiffers(c: Crypto, txs: seq<Transaction>, i: nat)
    requires DistinctKeys(c, txs) && i < |txs| - 1
    ensures IdempotencyKey(c, txs[i]) != IdempotencyKey(c, txs[|txs| - 1])
  {
  }

  lemma AddLast(last: Effect, x: Effect, y: Effect, z: Effect)
    requires y == Plus(x, z)
    ensures Plus(last, y) == Plus(x, Plus(last, z))
  {
  }

  lemma {:induction false} LeftNothing(c: Crypto, txs: seq<Transaction>, keys: set<Key>)
    requires KeysOf(c, txs) <= keys
    ensures Left(c, txs, keys) == []
  {
    if txs != [] {
      FrontKeys(c, txs);
      LeftNothing(c, txs[..|txs| - 1], keys);
    }
  }

  lemma {:induction false} LeftEverything(c: Crypto, txs: seq<Transaction>, keys: set<Key>)
    requires KeysOf(c, txs) !! keys
    ensures Left(c, txs, keys) == txs
  {
    if txs != [] {
      FrontKeys(c, txs);
      LeftEverything(c, txs[..|txs| - 1], keys);
    }
  }

  ghost predicate AllKnown(c: Crypto, txs: seq<Transaction>, keys: set<Key>, a: Address) {
    forall i :: 0 <= i < |txs| && txs[i].from == a ==> IdempotencyKey(c, txs[i]) in keys
  }

  lemma AllKnownFront(c: Crypto, txs: seq<Transaction>, keys: set<Key>, a: Address)
    requires txs != [] && AllKnown(c, txs, keys, a)
    ensures AllKnown(c, txs[..|txs| - 1], keys, a)
  {
  }

  lemma {:induction false} LeftSentNothing(c: Crypto, txs: seq<Transaction>, keys: set<Key>, a: Address)
    requires AllKnown(c, txs, keys, a)
    ensures EffectOn(Left(c, txs, keys), a).sent == 0
  {
    if txs != [] {
      AllKnownFront(c, txs, keys, a);
      LeftSentNothing(c, txs[..|txs| - 1], keys, a);
      LeftSnoc(c, txs, keys, a);
    }
  }

  // ---------------------------------------------------------------- nobody is ahead of the next transfer

  /** Both lists of transfers count up each sender's nonces from here. */
  ghost predicate CountFrom(txs: seq<Transaction>, a: Address, start: u64) {
    CountsUp(NoncesOf(txs, a), start, Word(start + |NoncesOf(txs, a)|))
  }

  lemma SameKey(c: Crypto, t: Transaction, u: Transaction)
    requires SameTransfer(t, u)
    ensures IdempotencyKey(c, t) == IdempotencyKey(c, u)
  {
  }

  lemma Counterpart(block: seq<Transaction>, mine: seq<Transaction>, i: nat) returns (j: nat)
    requires Covers(block, mine) && i < |mine|
    ensures j < |block| && SameTransfer(block[j], mine[i])
  {
    assert In(block, mine[i]);
    j :| 0 <= j < |block| && SameTransfer(block[j], mine[i]);
  }

  /** Whoever applied a later nonce of a sender applied the earlier one as well. */
  lemma EarlierIsMine(mine: seq<Transaction>, block: seq<Transaction>, d: nat, i: nat, j: nat, start: u64) returns (e: nat)
    requires d < j < |block| <= U64_SIZE && i < |mine| && block[j].from == block[d].from == mine[i].from && block[j].nonce == mine[i].nonce
    requires CountFrom(mine, block[d].from, start) && CountFrom(block, block[d].from, start)
    ensures e < |mine| && mine[e].from == block[d].from && mine[e].nonce == block[d].nonce
  {
    var a := block[d].from;
    var before, there, here := |NoncesOf(block[..d], a)|, |NoncesOf(block[..j], a)|, |NoncesOf(mine[..i], a)|;
    NoncesAtMost(block, a);
    NonceAt(block, a, d);
    NonceAt(block, a, j);
    assert before < there by {
      assert block[..j][..d] == block[..d];
      NonceAt(block[..j], a, d);
    }
    NonceAt(mine, a, i);
    OffsetsAgree(start, there, here);
    e := NonceFrom(mine, a, before);
  }

  /** When the block applies a transfer that the follower did not apply itself, it has already applied all the follower did of that sender. */
  lemma NobodyIsAhead(c: Crypto, mine: seq<Transaction>, block: seq<Transaction>, d: nat, i: nat, start: u64) returns (j: nat)
    requires d < |block| <= U64_SIZE && i < |mine| && mine[i].from == block[d].from
    requires CountFrom(mine, block[d].from, start) && CountFrom(block, block[d].from, start)
    requires Covers(block, mine) && IdempotencyKey(c, block[d]) !in KeysOf(c, mine)
    ensures j < d && IdempotencyKey(c, block[j]) == IdempotencyKey(c, mine[i])
  {
    j := Counterpart(block, mine, i);
    SameKey(c, block[j], mine[i]);
    if d < j {
      var e := EarlierIsMine(mine, block, d, i, j, start);
      var f := Counterpart(block, mine, e);
      SameKey(c, block[f], mine[e]);
      NoncesAtMost(block, block[d].from);
      NonceTells(block, block[d].from, start, Word(start + |NoncesOf(block, block[d].from)|), f, d);
    }
  }

  lemma OffsetsAgree(start: u64, x: nat, y: nat)
    requires x < U64_SIZE && (start + x) % U64_SIZE == (start + y) % U64_SIZE
    ensures x <= y
  {
    if y < x {
      DifferentOffsets(start, y, x);
    }
  }

  // ---------------------------------------------------------------- catching up

  /** The follower f is ahead of the proposer p by those of its own transfers whose keys p does not know yet. */
  ghost predicate Level(c: Crypto, mine: seq<Transaction>, p: LedgerState, f: LedgerState) {
    && |p.shards| == |f.shards| && InOrder(c, p) && InOrder(c, f)
    && Supply(p.shards) <= U64_MAX && Supply(f.shards) <= U64_MAX
    && f.keys == p.keys + KeysOf(c, mine)
    && Ahead(c, p.shards, f.shards, Left(c, mine, p.keys))
  }

  /** The ledger after a transfer that is paid. */
  function Paid(c: Crypto, L: LedgerState, e: CrossTx): LedgerState
    requires Placed(L, e) && Payable(c, L, e)
  {
    L.(shards := Transferred(L.shards, e), keys := L.keys + {e.key})
  }

  lemma PaidIsInOrder(c: Crypto, L: LedgerState, e: CrossTx)
    requires InOrder(c, L) && EntryOk(c, |L.shards|, e) && Payable(c, L, e) && Supply(L.shards) <= U64_MAX
    ensures InOrder(c, Paid(c, L, e)) && Supply(Paid(c, L, e).shards) <= U64_MAX
    ensures Ahead(c, L.shards, Paid(c, L, e).shards, [e.tx])
  {
    TransferKeepsPlacement(c, L, e);
    TransferKeepsSupply(c, L, e);
    TransferMoves(c, L, e);
  }

  /** The proposer applies what the follower has applied before. */
  lemma ProposerCatchesUp(c: Crypto, mine: seq<Transaction>, p: LedgerState, f: LedgerState, e: CrossTx, i: nat)
    requires Level(c, mine, p, f) && EntryOk(c, |p.shards|, e) && e.key !in p.keys && Payable(c, p, e)
    requires DistinctKeys(c, mine) && i < |mine| && SameTransfer(e.tx, mine[i])
    ensures e.key in f.keys && Level(c, mine, Paid(c, p, e), f)
  {
    var p' := Paid(c, p, e);
    SameKey(c, e.tx, mine[i]);
    assert e.key in KeysOf(c, mine);
    PaidIsInOrder(c, p, e);
    LeftWithout(c, mine, p.keys, i, e.key, e.tx);
    AheadRest(c, p.shards, p'.shards, f.shards, Left(c, mine, p.keys), e.tx, Left(c, mine, p'.keys));
  }

  lemma {:induction false} OnlyReceives(txs: seq<Transaction>, a: Address)
    requires EffectOn(txs, a).sent == 0
    ensures EffectOn(txs, a).net >= 0
  {
    if txs != [] {
      OnlyReceives(txs[..|txs| - 1], a);
    }
  }

  /** Who sent nothing in the meantime can still pay. */
  lemma StillPayable(c: Crypto, p: LedgerState, f: LedgerState, txs: seq<Transaction>, e: CrossTx)
    requires |p.shards| == |f.shards| > 0 && Ahead(c, p.shards, f.shards, txs) && EntryOk(c, |p.shards|, e)
    requires Payable(c, p, e) && EffectOn(txs, e.tx.from).sent == 0
    ensures Payable(c, f, e)
  {
    PayableAt(c, p, e);
    PayableAt(c, f, e);
    OnlyReceives(txs, e.tx.from);
    StillRich(ViewAt(c, p.shards, e.tx.from), ViewAt(c, f.shards, e.tx.from), EffectOn(txs, e.tx.from));
  }

  lemma PayableAt(c: Crypto, L: LedgerState, e: CrossTx)
    requires |L.shards| > 0 && EntryOk(c, |L.shards|, e)
    ensures Placed(L, e)
    ensures var v := ViewAt(c, L.shards, e.tx.from);
            Payable(c, L, e) <==> v.held && v.balance >= e.tx.amount && e.tx.nonce == v.nonce && SignatureOk(c, e.tx)
  {
  }

  lemma StillRich(v: View, w: View, e: Effect)
    requires Moves(v, w, e) && e.sent == 0 && e.net >= 0
    ensures w.balance >= v.balance && w.nonce == v.nonce && (v.held ==> w.held)
  {
  }

  /** Both apply a transfer that the follower had not applied. */
  lemma BothPay(c: Crypto, mine: seq<Transaction>, p: LedgerState, f: LedgerState, e: CrossTx)
    requires Level(c, mine, p, f) && EntryOk(c, |p.shards|, e) && e.key !in p.keys && Payable(c, p, e)
    requires e.key !in KeysOf(c, mine) && EffectOn(Left(c, mine, p.keys), e.tx.from).sent == 0
    ensures e.key !in f.keys && Payable(c, f, e) && Level(c, mine, Paid(c, p, e), Paid(c, f, e))
  {
    var left := Left(c, mine, p.keys);
    StillPayable(c, p, f, left, e);
    PaidIsInOrder(c, p, e);
    PaidIsInOrder(c, f, e);
    AheadBoth(c, p.shards, f.shards, Paid(c, p, e).shards, Paid(c, f, e).shards, left, e.tx);
    LeftSame(c, mine, p.keys, e.key);
  }

  /** What the follower makes of the next transfer of the block: it knows it, or it can still pay it. */
  ghost predicate Expected(c: Crypto, mine: seq<Transaction>, p: LedgerState, e: CrossTx) {
    || (exists i :: 0 <= i < |mine| && SameTransfer(e.tx, mine[i]))
    || (e.key !in KeysOf(c, mine) && EffectOn(Left(c, mine, p.keys), e.tx.from).sent == 0)
  }

  /** One entry of the proposer's queue, and the follower's fresh entry for it. */
  lemma LevelStep(c: Crypto, mine: seq<Transaction>, p: LedgerState, f: LedgerState, e: CrossTx)
    requires Level(c, mine, p, f) && EntryOk(c, |p.shards|, e) && DistinctKeys(c, mine)
    requires e.key !in p.keys && Payable(c, p, e) ==> Expected(c, mine, p, e)
    ensures var pp, ff := ExecuteCrossShardCommit(c, p, e, NoFailure), ExecuteCrossShardCommit(c, f, NewCrossTx(c, e.tx, |p.shards|), NoFailure);
            && (!pp.ok ==> pp.ledger == p)
            && (pp.ok ==> ff.ok && Level(c, mine, pp.ledger, ff.ledger))
  {
    var entry := NewCrossTx(c, e.tx, |p.shards|);
    CommitIsAtomic(c, p, e);
    CommitIsAtomic(c, f, entry);
    if e.key !in p.keys && Payable(c, p, e) {
      if i :| 0 <= i < |mine| && SameTransfer(e.tx, mine[i]) {
        ProposerCatchesUp(c, mine, p, f, e, i);
      } else {
        BothPay(c, mine, p, f, e);
      }
    }
  }

  lemma {:induction false} AppliedGrows(c: Crypto, L: LedgerState, entries: seq<CrossTx>, n: nat)
    requires AllPlaced(L, entries) && n <= |entries|
    ensures Drain(c, L, entries[..n]).applied <= Drain(c, L, entries).applied
    ensures |Drain(c, L, entries).applied| <= |entries|
    decreases |entries|
  {
    if n < |entries| {
      var front := entries[..|entries| - 1];
      assert front[..n] == entries[..n];
      AppliedGrows(c, L, front, n);
    } else {
      assert entries[..n] == entries;
      if n > 0 {
        AppliedGrows(c, L, entries[..n - 1], n - 1);
      }
    }
  }

  lemma CountsFromHome(c: Crypto, L: LedgerState, entries: seq<CrossTx>, a: Address)
    requires InOrder(c, L) && EntriesOk(c, |L.shards|, entries) && AllPlaced(L, entries)
    ensures CountFrom(Drain(c, L, entries).applied, a, HomeNonce(c, L.shards, a))
    ensures DistinctKeys(c, Drain(c, L, entries).applied)
  {
    DrainIsSafe(c, L, entries);
    var d := Drain(c, L, entries);
    CountsByDiscipline(c, L.shards, d.ledger.shards, d.applied, a);
    KeysByFreshness(c, L.keys, d.ledger.keys, d.applied);
  }

  lemma CountsByDiscipline(c: Crypto, before: seq<ShardState>, after: seq<ShardState>, log: seq<Transaction>, a: Address)
    requires |before| == |after| > 0 && NonceDiscipline(c, before, after, log)
    ensures CountFrom(log, a, HomeNonce(c, before, a))
  {
    assert CountsUp(NoncesOf(log, a), HomeNonce(c, before, a), HomeNonce(c, after, a));
  }

  lemma KeysByFreshness(c: Crypto, before: set<Key>, after: set<Key>, applied: seq<Transaction>)
    requires FreshKeys(c, before, after, applied)
    ensures DistinctKeys(c, applied) && KeysOf(c, applied) !! before && after == before + KeysOf(c, applied)
  {
    forall k | k in KeysOf(c, applied) ensures k !in before {
      var i := KeyIn(c, applied, k);
    }
  }

  /** The block's next transfer, in the order in which the proposer applied it. */
  lemma NextOfBlock(c: Crypto, L: LedgerState, entries: seq<CrossTx>, n: nat)
    requires InOrder(c, L) && EntriesOk(c, |L.shards|, entries) && AllPlaced(L, entries) && n < |entries|
    requires var p := Drain(c, L, entries[..n]).ledger; entries[n].key !in p.keys && Payable(c, p, entries[n])
    ensures var prev, block := Drain(c, L, entries[..n]), Drain(c, L, entries).applied;
            && prev.applied + [entries[n].tx] <= block
            && prev.ledger.keys == L.keys + KeysOf(c, prev.applied)
  {
    var prev := Drain(c, L, entries[..n]);
    UpTo(c, L, entries, n);
    DrainIsSafe(c, L, entries[..n]);
    assert Drain(c, L, entries[..n + 1]).applied == prev.applied + [entries[n].tx] by {
      DrainOneMore(c, L, entries[..n], entries[n]);
      CommitIsAtomic(c, prev.ledger, entries[n]);
    }
    AppliedGrows(c, L, entries, n + 1);
  }

  /** The follower is ready for whatever of its queue the proposer applies next. */
  lemma NextIsExpected(c: Crypto, L: LedgerState, mine: seq<Transaction>, entries: seq<CrossTx>, n: nat)
    requires InOrder(c, L) && EntriesOk(c, |L.shards|, entries) && AllPlaced(L, entries) && n < |entries|
    requires var p := Drain(c, L, entries[..n]).ledger; entries[n].key !in p.keys && Payable(c, p, entries[n])
    requires var block := Drain(c, L, entries).applied; Covers(block, mine) && |block| <= U64_SIZE
    requires CountFrom(mine, entries[n].tx.from, HomeNonce(c, L.shards, entries[n].tx.from))
    ensures Expected(c, mine, Drain(c, L, entries[..n]).ledger, entries[n])
  {
    var prev, block, e := Drain(c, L, entries[..n]), Drain(c, L, entries).applied, entries[n];
    var d := |prev.applied|;
    NextOfBlock(c, L, entries, n);
    CountsFromHome(c, L, entries, e.tx.from);
    assert EntryOk(c, |L.shards|, e) && block[d] == e.tx && block[..d] == prev.applied;
    if e.key in KeysOf(c, mine) {
      KnownIsSame(c, mine, block, d);
    } else {
      AllOfItsSenderKnown(c, mine, block, d, prev.ledger.keys, HomeNonce(c, L.shards, e.tx.from));
      LeftSentNothing(c, mine, prev.ledger.keys, e.tx.from);
    }
  }

  lemma KnownIsSame(c: Crypto, mine: seq<Transaction>, block: seq<Transaction>, d: nat)
    requires d < |block| && DistinctKeys(c, block) && Covers(block, mine) && IdempotencyKey(c, block[d]) in KeysOf(c, mine)
    ensures exists i :: 0 <= i < |mine| && SameTransfer(block[d], mine[i])
  {
    var i := KeyIn(c, mine, IdempotencyKey(c, block[d]));
    var j := Counterpart(block, mine, i);
    SameKey(c, block[j], mine[i]);
    assert j == d;
  }

  lemma AllOfItsSenderKnown(c: Crypto, mine: seq<Transaction>, block: seq<Transaction>, d: nat, keys: set<Key>, start: u64)
    requires d < |block| <= U64_SIZE && Covers(block, mine) && IdempotencyKey(c, block[d]) !in KeysOf(c, mine)
    requires CountFrom(mine, block[d].from, start) && CountFrom(block, block[d].from, start)
    requires KeysOf(c, block[..d]) <= keys
    ensures AllKnown(c, mine, keys, block[d].from)
  {
    forall i | 0 <= i < |mine| && mine[i].from == block[d].from ensures IdempotencyKey(c, mine[i]) in keys {
      var j := NobodyIsAhead(c, mine, block, d, i, start);
      assert block[..d][j] == block[j];
      assert IdempotencyKey(c, block[j]) in KeysOf(c, block[..d]);
    }
  }

  /** The follower's ledger after its own pass, and the fresh entries for what the proposer committed. */
  ghost predicate StaysLevel(c: Crypto, L: LedgerState, own: seq<CrossTx>, theirs: seq<CrossTx>)
    requires |L.shards| == L.config.shardCount > 0 && AllPlaced(L, own) && AllPlaced(L, theirs)
  {
    var p, after := Drain(c, L, theirs), Drain(c, L, own);
    var cross := CrossGroup(c, L.config, p.committed);
    AllPlaced(after.ledger, cross) && Level(c, after.applied, p.ledger, Drain(c, after.ledger, cross).ledger)
  }

  lemma StartsLevel(c: Crypto, L: LedgerState, own: seq<CrossTx>)
    requires InOrder(c, L) && |L.shards| == L.config.shardCount && EntriesOk(c, |L.shards|, own) && AllPlaced(L, own)
    requires Supply(L.shards) <= U64_MAX
    ensures StaysLevel(c, L, own, [])
  {
    var after := Drain(c, L, own);
    DrainIsSafe(c, L, own);
    DrainMoves(c, L, own);
    KeysByFreshness(c, L.keys, after.ledger.keys, after.applied);
    LeftEverything(c, after.applied, L.keys);
  }

  /** One more entry of the proposer's queue. */
  lemma StaysLevelSnoc(c: Crypto, L: LedgerState, own: seq<CrossTx>, theirs: seq<CrossTx>, e: CrossTx)
    requires InOrder(c, L) && |L.shards| == L.config.shardCount && L.config.crossShardEnabled
    requires EntriesOk(c, |L.shards|, own) && AllPlaced(L, own) && AllPlaced(L, theirs) && AllPlaced(L, theirs + [e])
    requires EntriesOk(c, |L.shards|, theirs) && EntryOk(c, |L.shards|, e) && StaysLevel(c, L, own, theirs)
    requires var p := Drain(c, L, theirs).ledger;
             e.key !in p.keys && Payable(c, p, e) ==> Expected(c, Drain(c, L, own).applied, p, e)
    ensures StaysLevel(c, L, own, theirs + [e])
  {
    var after, p := Drain(c, L, own), Drain(c, L, theirs);
    var cross := CrossGroup(c, L.config, p.committed);
    CountsFromHome(c, L, own, "");
    DrainOneMore(c, L, theirs, e);
    LevelStep(c, after.applied, p.ledger, Drain(c, after.ledger, cross).ledger, e);
    if ExecuteCrossShardCommit(c, p.ledger, e, NoFailure).ok {
      OneMoreCross(c, L.config, p.committed, e.tx);
      DrainOneMore(c, after.ledger, cross, NewCrossTx(c, e.tx, |L.shards|));
    }
  }

  /** What the follower applies itself is covered by what the proposer applies. */
  ghost predicate CoveredPass(c: Crypto, L: LedgerState, own: seq<CrossTx>, theirs: seq<CrossTx>) {
    && InOrder(c, L) && |L.shards| == L.config.shardCount && L.config.crossShardEnabled && Supply(L.shards) <= U64_MAX
    && EntriesOk(c, |L.shards|, own) && EntriesOk(c, |L.shards|, theirs) && AllPlaced(L, own) && AllPlaced(L, theirs)
    && |theirs| <= U64_SIZE
    && Covers(Drain(c, L, theirs).applied, Drain(c, L, own).applied)
  }

  lemma ReadyForNext(c: Crypto, L: LedgerState, own: seq<CrossTx>, theirs: seq<CrossTx>, n: nat)
    requires CoveredPass(c, L, own, theirs) && n < |theirs|
    ensures var p, e := Drain(c, L, theirs[..n]).ledger, theirs[n];
            Placed(p, e) && (e.key !in p.keys && Payable(c, p, e) ==> Expected(c, Drain(c, L, own).applied, p, e))
  {
    var p, e := Drain(c, L, theirs[..n]).ledger, theirs[n];
    if e.key !in p.keys && Payable(c, p, e) {
      AppliedGrows(c, L, theirs, |theirs|);
      CountsFromHome(c, L, own, e.tx.from);
      NextIsExpected(c, L, Drain(c, L, own).applied, theirs, n);
    }
  }

  lemma UpTo(c: Crypto, L: LedgerState, entries: seq<CrossTx>, n: nat)
    requires |L.shards| > 0 && EntriesOk(c, |L.shards|, entries) && AllPlaced(L, entries) && n < |entries|
    ensures entries[..n + 1] == entries[..n] + [entries[n]]
    ensures EntriesOk(c, |L.shards|, entries[..n]) && EntryOk(c, |L.shards|, entries[n])
    ensures AllPlaced(L, entries[..n]) && AllPlaced(L, entries[..n] + [entries[n]])
  {
  }

  lemma CatchesUpStep(c: Crypto, L: LedgerState, own: seq<CrossTx>, theirs: seq<CrossTx>, n: nat, front: seq<CrossTx>, e: CrossTx)
    requires CoveredPass(c, L, own, theirs) && n < |theirs| && front == theirs[..n] && e == theirs[n] && StaysLevel(c, L, own, front)
    ensures AllPlaced(L, front + [e]) && StaysLevel(c, L, own, front + [e])
  {
    UpTo(c, L, theirs, n);
    ReadyForNext(c, L, own, theirs, n);
    StaysLevelSnoc(c, L, own, front, e);
  }

  lemma {:induction false} CatchesUp(c: Crypto, L: LedgerState, own: seq<CrossTx>, theirs: seq<CrossTx>, n: nat)
    requires CoveredPass(c, L, own, theirs) && n <= |theirs|
    ensures StaysLevel(c, L, own, theirs[..n])
  {
    if n == 0 {
      StartsLevel(c, L, own);
    } else {
      CatchesUp(c, L, own, theirs, n - 1);
      CatchesUpStep(c, L, own, theirs, n - 1, theirs[..n - 1], theirs[n - 1]);
      UpTo(c, L, theirs, n - 1);
    }
  }

  /** Own entries first, then the block's: the same shards and keys as the proposer's, if the block covers what is applied first. */
  lemma CoveredEndsAlike(c: Crypto, L: LedgerState, own: seq<CrossTx>, theirs: seq<CrossTx>)
    requires CoveredPass(c, L, own, theirs)
    ensures var p, after := Drain(c, L, theirs), Drain(c, L, own);
            var cross := CrossGroup(c, L.config, p.committed);
            && AllPlaced(after.ledger, cross)
            && var f := Drain(c, after.ledger, cross);
               f.ledger.shards == p.ledger.shards && f.ledger.keys == p.ledger.keys
  {
    var p, mine := Drain(c, L, theirs), Drain(c, L, own).applied;
    CatchesUp(c, L, own, theirs, |theirs|);
    assert theirs[..|theirs|] == theirs;
    assert KeysOf(c, mine) <= p.ledger.keys by {
      DrainIsSafe(c, L, theirs);
      CoveredKeys(c, p.applied, mine);
    }
    LeftNothing(c, mine, p.ledger.keys);
    var f := Drain(c, Drain(c, L, own).ledger, CrossGroup(c, L.config, p.committed));
    AheadByNothing(c, p.ledger.shards, f.ledger.shards);
  }

  lemma CoveredKeys(c: Crypto, block: seq<Transaction>, mine: seq<Transaction>)
    requires Covers(block, mine)
    ensures KeysOf(c, mine) <= KeysOf(c, block)
  {
    forall k | k in KeysOf(c, mine) ensures k in KeysOf(c, block) {
      var i := KeyIn(c, mine, k);
      var j := Counterpart(block, mine, i);
      SameKey(c, block[j], mine[i]);
    }
  }

  /** No two different movements of funds among these share a key. */
  ghost predicate KeysTell(c: Crypto, block: seq<Transaction>, mine: seq<Transaction>) {
    forall i, j :: 0 <= i < |mine| && 0 <= j < |block| && IdempotencyKey(c, mine[i]) == IdempotencyKey(c, block[j])
                   ==> SameTransfer(block[j], mine[i])
  }

  /** Conversely, keys that end up alike betray any transfer that the block does not apply. */
  lemma SameKeysCover(c: Crypto, block: seq<Transaction>, mine: seq<Transaction>)
    requires KeysOf(c, mine) <= KeysOf(c, block) && KeysTell(c, block, mine)
    ensures Covers(block, mine)
  {
    forall i | 0 <= i < |mine| ensures In(block, mine[i]) {
      assert IdempotencyKey(c, mine[i]) in KeysOf(c, mine);
      var j := KeyIn(c, block, IdempotencyKey(c, mine[i]));
    }
  }
}
