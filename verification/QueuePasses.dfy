/**
  Passes over the retry queue in which any attempt may time out: what a pass adds to the supply and takes
  from it, when it keeps the nonces in order, which entries it puts back, and how often each was attempted.
 */
module QueuePasses {
  import opened Common
  import opened Ledger
  import opened LedgerSafety
  import opened TwoPhaseCommit
  import opened Timeouts

  /** Without timeouts this is the plain pass. */
  lemma {:induction false} CalmPass(c: Crypto, L: LedgerState, entries: seq<CrossTx>, fps: seq<FailurePoint>)
    requires AllPlaced(L, entries) && |fps| == |entries| && forall i :: 0 <= i < |fps| ==> fps[i] == NoFailure
    ensures DrainWith(c, L, entries, fps) == Drain(c, L, entries)
  {
    if entries != [] {
      CalmPass(c, L, entries[..|entries| - 1], fps[..|entries| - 1]);
    }
  }

  // ---------------------------------------------------------------- one attempt

  function AppliedWith(c: Crypto, L: LedgerState, ctx: CrossTx, fp: FailurePoint): seq<Transaction>
    requires Placed(L, ctx)
  {
    if ctx.key !in L.keys && !Fails(c, L, ctx, fp) then [ctx.tx] else []
  }

  /** By how much a failed attempt raises the sender and the receiver together. */
  function Shift(c: Crypto, L: LedgerState, ctx: CrossTx, fp: FailurePoint): int
    requires Placed(L, ctx)
  {
    if Fails(c, L, ctx, fp)
    then SenderAfter(c, L, ctx, fp) - SenderBalance(L, ctx) + (ReceiverAfter(c, L, ctx, fp) - ReceiverBalance(L, ctx))
    else 0
  }

  function Positive(x: int): nat {
    if x > 0 then x else 0
  }

  /** A failed attempt that moves the sender's nonce. */
  predicate Slips(c: Crypto, L: LedgerState, ctx: CrossTx, fp: FailurePoint)
    requires Placed(L, ctx)
  {
    Fails(c, L, ctx, fp) && NonceAfter(c, L, ctx, fp) != SenderNonce(L, ctx)
  }

  /** `after` follows from `before` with these transactions applied, keys and placement in order. */
  ghost predicate Proceeds(c: Crypto, before: LedgerState, after: LedgerState, applied: seq<Transaction>)
    requires |before.shards| > 0
  {
    && InOrder(c, after) && |after.shards| == |before.shards|
    && after.config == before.config && after.queue == before.queue
    && FreshKeys(c, before.keys, after.keys, applied)
  }

  lemma AttemptSucceeds(c: Crypto, L: LedgerState, ctx: CrossTx, fp: FailurePoint)
    requires Attemptable(c, L, ctx) && !Fails(c, L, ctx, fp)
    ensures ExecuteCrossShardCommit(c, L, ctx, fp).ok
    ensures ctx.key in L.keys ==> ExecuteCrossShardCommit(c, L, ctx, fp).ledger == L
    ensures ctx.key !in L.keys ==>
      ExecuteCrossShardCommit(c, L, ctx, fp) == ExecuteCrossShardCommit(c, L, ctx, NoFailure) && Payable(c, L, ctx)
  {
    CommitIsAtomic(c, L, ctx);
  }

  lemma AttemptProceeds(c: Crypto, L: LedgerState, ctx: CrossTx, fp: FailurePoint)
    requires Attemptable(c, L, ctx)
    ensures var p := ExecuteCrossShardCommit(c, L, ctx, fp);
            && Proceeds(c, L, p.ledger, AppliedWith(c, L, ctx, fp))
            && (p.ok <==> !Fails(c, L, ctx, fp)) && (!p.ok ==> QueuedOk(c, |L.shards|, p.ctx) && p.ctx.retries == ctx.retries && p.ctx.tx == ctx.tx)
  {
    assert KeysOf(c, []) == {};
    if Fails(c, L, ctx, fp) {
      FailureShape(c, L, ctx, fp);
      FailureKeepsOrder(c, L, ctx, fp);
    } else {
      AttemptSucceeds(c, L, ctx, fp);
      if ctx.key !in L.keys {
        CommitIsAtomic(c, L, ctx);
        TransferKeepsPlacement(c, L, ctx);
        FreshKey(c, L.keys, ctx.tx);
      }
    }
  }

  lemma AttemptSupply(c: Crypto, L: LedgerState, ctx: CrossTx, fp: FailurePoint)
    requires Attemptable(c, L, ctx) && Supply(L.shards) <= U64_MAX
    ensures Supply(ExecuteCrossShardCommit(c, L, ctx, fp).ledger.shards) == Supply(L.shards) + Shift(c, L, ctx, fp)
  {
    if Fails(c, L, ctx, fp) {
      FailureSupply(c, L, ctx, fp);
    } else {
      AttemptSucceeds(c, L, ctx, fp);
      if ctx.key !in L.keys {
        CommitIsAtomic(c, L, ctx);
        TransferKeepsSupply(c, L, ctx);
      }
    }
  }

  /** An attempt applies the sender's next nonce or none, unless it slips. */
  lemma AttemptNonces(c: Crypto, L: LedgerState, ctx: CrossTx, fp: FailurePoint)
    requires Attemptable(c, L, ctx) && !Slips(c, L, ctx, fp)
    ensures |ExecuteCrossShardCommit(c, L, ctx, fp).ledger.shards| == |L.shards|
    ensures NonceDiscipline(c, L.shards, ExecuteCrossShardCommit(c, L, ctx, fp).ledger.shards, AppliedWith(c, L, ctx, fp))
  {
    assert NonceDiscipline(c, L.shards, L.shards, []);
    if Fails(c, L, ctx, fp) {
      FailureKeepsNonces(c, L.shards, [], L, ctx, fp);
    } else {
      AttemptSucceeds(c, L, ctx, fp);
      if ctx.key !in L.keys {
        CommitIsAtomic(c, L, ctx);
        TransferKeepsPlacement(c, L, ctx);
      }
    }
  }

  // ---------------------------------------------------------------- one pass

  /** What the failed attempts of a pass add to the supply, what they take from it, and how often a nonce slips. */
  datatype Tally = Tally(gained: nat, lost: nat, slips: nat)

  function Add(t: Tally, shift: int, slip: bool): Tally {
    Tally(t.gained + Positive(shift), t.lost + Positive(-shift), t.slips + if slip then 1 else 0)
  }

  function PassTally(c: Crypto, L: LedgerState, entries: seq<CrossTx>, fps: seq<FailurePoint>): Tally
    requires AllPlaced(L, entries) && |fps| == |entries|
  {
    if entries == [] then Tally(0, 0, 0) else
      var n := |entries| - 1;
      var before := DrainWith(c, L, entries[..n], fps[..n]).ledger;
      Add(PassTally(c, L, entries[..n], fps[..n]), Shift(c, before, entries[n], fps[n]), Slips(c, before, entries[n], fps[n]))
  }

  /** A pass keeps placement, health, locks and keys in order, whatever times out. */
  lemma {:induction false} PassProceeds(c: Crypto, L: LedgerState, entries: seq<CrossTx>, fps: seq<FailurePoint>)
    requires InOrder(c, L) && QueueOk(c, |L.shards|, entries) && |fps| == |entries|
    ensures AllPlaced(L, entries)
    ensures var d := DrainWith(c, L, entries, fps);
            Proceeds(c, L, d.ledger, d.applied) && QueueOk(c, |L.shards|, d.retained)
  {
    if entries == [] {
      assert KeysOf(c, []) == {};
    } else {
      var n := |entries| - 1;
      PassProceeds(c, L, entries[..n], fps[..n]);
      var prev := DrainWith(c, L, entries[..n], fps[..n]);
      assert QueuedOk(c, |L.shards|, entries[n]);
      AttemptProceeds(c, prev.ledger, entries[n], fps[n]);
      var p := ExecuteCrossShardCommit(c, prev.ledger, entries[n], fps[n]);
      FreshKeysCompose(c, L.keys, prev.ledger.keys, p.ledger.keys, prev.applied, AppliedWith(c, prev.ledger, entries[n], fps[n]));
      assert DrainWith(c, L, entries, fps).applied == prev.applied + AppliedWith(c, prev.ledger, entries[n], fps[n]);
    }
  }

  /** A pass ends with its last attempt. */
  lemma PassUnfolds(c: Crypto, L: LedgerState, entries: seq<CrossTx>, fps: seq<FailurePoint>)
    requires AllPlaced(L, entries) && |fps| == |entries| && entries != []
    ensures var n := |entries| - 1;
            var prev := DrainWith(c, L, entries[..n], fps[..n]);
            DrainWith(c, L, entries, fps) == Absorb(prev, entries[n], ExecuteCrossShardCommit(c, prev.ledger, entries[n], fps[n]))
  {
  }

  /** What one more attempt adds to a pass. */
  ghost predicate Adds(c: Crypto, prev: Drained, ctx: CrossTx, fp: FailurePoint, d: Drained)
    requires Attemptable(c, prev.ledger, ctx)
  {
    var p := ExecuteCrossShardCommit(c, prev.ledger, ctx, fp);
    && d.ledger == p.ledger && d.applied == prev.applied + AppliedWith(c, prev.ledger, ctx, fp)
    && (p.ok <==> !Fails(c, prev.ledger, ctx, fp)) && (!p.ok ==> p.ctx.tx == ctx.tx)
    && d.retained == if !p.ok && ctx.retries + 1 < MAX_RETRY_ATTEMPTS
                     then prev.retained + [p.ctx.(retries := ctx.retries + 1)] else prev.retained
  }

  lemma AttemptAdds(c: Crypto, prev: Drained, ctx: CrossTx, fp: FailurePoint)
    requires Attemptable(c, prev.ledger, ctx)
    ensures Adds(c, prev, ctx, fp, Absorb(prev, ctx, ExecuteCrossShardCommit(c, prev.ledger, ctx, fp)))
  {
    AttemptProceeds(c, prev.ledger, ctx, fp);
  }

  lemma LastIsAttemptable(c: Crypto, L: LedgerState, entries: seq<CrossTx>, fps: seq<FailurePoint>)
    requires InOrder(c, L) && QueueOk(c, |L.shards|, entries) && AllPlaced(L, entries) && |fps| == |entries| && entries != []
    ensures var n := |entries| - 1;
            var before := DrainWith(c, L, entries[..n], fps[..n]).ledger;
            Attemptable(c, before, entries[n]) && |before.shards| == |L.shards|
  {
    var n := |entries| - 1;
    PassProceeds(c, L, entries[..n], fps[..n]);
    assert QueuedOk(c, |L.shards|, entries[n]);
  }

  /** The last attempt of a pass. */
  lemma LastAttempt(c: Crypto, L: LedgerState, entries: seq<CrossTx>, fps: seq<FailurePoint>)
    requires InOrder(c, L) && QueueOk(c, |L.shards|, entries) && AllPlaced(L, entries) && |fps| == |entries| && entries != []
    ensures var n := |entries| - 1;
            var prev, d := DrainWith(c, L, entries[..n], fps[..n]), DrainWith(c, L, entries, fps);
            && |prev.ledger.shards| == |d.ledger.shards| == |L.shards|
            && Attemptable(c, prev.ledger, entries[n]) && Adds(c, prev, entries[n], fps[n], d)
  {
    var n := |entries| - 1;
    LastIsAttemptable(c, L, entries, fps);
    AttemptAdds(c, DrainWith(c, L, entries[..n], fps[..n]), entries[n], fps[n]);
    PassUnfolds(c, L, entries, fps);
  }

  /** A pass changes the supply by what its failed attempts gain and lose. */
  lemma {:induction false} PassSupply(c: Crypto, L: LedgerState, entries: seq<CrossTx>, fps: seq<FailurePoint>)
    requires InOrder(c, L) && QueueOk(c, |L.shards|, entries) && AllPlaced(L, entries) && |fps| == |entries|
    requires Supply(L.shards) + PassTally(c, L, entries, fps).gained <= U64_MAX
    ensures var t := PassTally(c, L, entries, fps);
            Supply(DrainWith(c, L, entries, fps).ledger.shards) == Supply(L.shards) + t.gained - t.lost
  {
    if entries != [] {
      var n := |entries| - 1;
      PassSupply(c, L, entries[..n], fps[..n]);
      LastAttempt(c, L, entries, fps);
      AttemptSupply(c, DrainWith(c, L, entries[..n], fps[..n]).ledger, entries[n], fps[n]);
    }
  }

  /** As long as no attempt slips, the applied transactions carry consecutive nonces ending at the tracker. */
  lemma {:induction false} PassNonces(c: Crypto, L: LedgerState, entries: seq<CrossTx>, fps: seq<FailurePoint>)
    requires InOrder(c, L) && QueueOk(c, |L.shards|, entries) && AllPlaced(L, entries) && |fps| == |entries|
    requires PassTally(c, L, entries, fps).slips == 0
    ensures var d := DrainWith(c, L, entries, fps);
            NonceDiscipline(c, L.shards, d.ledger.shards, d.applied)
  {
    if entries == [] {
      assert NonceDiscipline(c, L.shards, L.shards, []);
    } else {
      var n := |entries| - 1;
      var prev := DrainWith(c, L, entries[..n], fps[..n]);
      PassNonces(c, L, entries[..n], fps[..n]);
      LastAttempt(c, L, entries, fps);
      AttemptNonces(c, prev.ledger, entries[n], fps[n]);
      var d := DrainWith(c, L, entries, fps);
      NonceDisciplineCompose(c, L.shards, prev.ledger.shards, d.ledger.shards, prev.applied, AppliedWith(c, prev.ledger, entries[n], fps[n]));
    }
  }

  // ---------------------------------------------------------------- which entries come back

  /** The positions of the entries that are put back. */
  function Kept(c: Crypto, L: LedgerState, entries: seq<CrossTx>, fps: seq<FailurePoint>): (kept: seq<nat>)
    requires AllPlaced(L, entries) && |fps| == |entries|
    ensures forall i :: 0 <= i < |kept| ==> kept[i] < |entries|
  {
    if entries == [] then [] else
      var n := |entries| - 1;
      var prev := Kept(c, L, entries[..n], fps[..n]);
      var before := DrainWith(c, L, entries[..n], fps[..n]).ledger;
      if Fails(c, before, entries[n], fps[n]) && entries[n].retries + 1 < MAX_RETRY_ATTEMPTS then prev + [n] else prev
  }

  ghost predicate IsRequeued(entries: seq<CrossTx>, kept: seq<nat>, retained: seq<CrossTx>) {
    && |kept| == |retained|
    && (forall i, j :: 0 <= i < j < |kept| ==> kept[i] < kept[j])
    && (forall i :: 0 <= i < |kept| ==>
          && kept[i] < |entries| && retained[i].tx == entries[kept[i]].tx
          && retained[i].retries == entries[kept[i]].retries + 1 < MAX_RETRY_ATTEMPTS)
  }

  lemma RequeueSnoc(entries: seq<CrossTx>, kept: seq<nat>, retained: seq<CrossTx>, ctx: CrossTx)
    requires entries != [] && IsRequeued(entries[..|entries| - 1], kept, retained)
    ensures IsRequeued(entries, kept, retained)
    ensures var n := |entries| - 1;
            ctx.tx == entries[n].tx && entries[n].retries + 1 < MAX_RETRY_ATTEMPTS ==>
              IsRequeued(entries, kept + [n], retained + [ctx.(retries := entries[n].retries + 1)])
  {
    forall i | 0 <= i < |kept| ensures kept[i] < |entries| - 1 && entries[kept[i]] == entries[..|entries| - 1][kept[i]] {
    }
  }

  /** The entries put back are those at the kept positions, in order, each with one more attempt on its count. */
  lemma {:induction false} PassRequeues(c: Crypto, L: LedgerState, entries: seq<CrossTx>, fps: seq<FailurePoint>)
    requires InOrder(c, L) && QueueOk(c, |L.shards|, entries) && AllPlaced(L, entries) && |fps| == |entries|
    ensures IsRequeued(entries, Kept(c, L, entries, fps), DrainWith(c, L, entries, fps).retained)
  {
    if entries != [] {
      var n := |entries| - 1;
      PassRequeues(c, L, entries[..n], fps[..n]);
      LastAttempt(c, L, entries, fps);
      RequeueSnoc(entries, Kept(c, L, entries[..n], fps[..n]), DrainWith(c, L, entries[..n], fps[..n]).retained,
                  ExecuteCrossShardCommit(c, DrainWith(c, L, entries[..n], fps[..n]).ledger, entries[n], fps[n]).ctx);
    }
  }

  // ---------------------------------------------------------------- passes without timeouts

  /** A pass in which nothing times out, over entries that never timed out, gains, loses and slips nothing. */
  lemma {:induction false} CalmPassIsExact(c: Crypto, L: LedgerState, entries: seq<CrossTx>, fps: seq<FailurePoint>)
    requires InOrder(c, L) && EntriesOk(c, |L.shards|, entries) && |fps| == |entries|
    requires forall i :: 0 <= i < |fps| ==> fps[i] == NoFailure
    ensures AllPlaced(L, entries) && PassTally(c, L, entries, fps) == Tally(0, 0, 0)
    ensures EntriesOk(c, |L.shards|, DrainWith(c, L, entries, fps).retained)
  {
    DrainIsSafe(c, L, entries);
    CalmPass(c, L, entries, fps);
    if entries != [] {
      var n := |entries| - 1;
      CalmPassIsExact(c, L, entries[..n], fps[..n]);
      LastAttempt(c, L, entries, fps);
      assert EntryOk(c, |L.shards|, entries[n]);
    }
  }
}
