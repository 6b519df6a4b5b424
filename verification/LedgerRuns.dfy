/**
  Runs of the sharded ledger: any interleaving of batches, queue passes in which any attempt may time
  out, and expansions. The theorem RunIsSafe collects what holds in every reachable state.
 */
module LedgerRuns {
  import opened Common
  import opened Ledger
  import opened LedgerSafety
  import opened TwoPhaseCommit
  import opened QueuePasses
  import opened Expansion

  datatype Event =
    | Submit(txs: seq<Transaction>, order: seq<nat>)
    | DrainQueue(fps: seq<FailurePoint>)
    | Expand(additional: nat)

  /**
    A ledger with its history: the shards when the current shard layout began, the transactions applied
    since then, all cross-shard transactions applied, a ticket for every queued entry, how often the
    entry of each ticket was attempted, and what failed attempts did to the supply and to nonces.
   */
  datatype Trace = Trace(
    ledger: LedgerState, base: seq<ShardState>, log: seq<Transaction>, crossApplied: seq<Transaction>,
    tickets: seq<nat>, attempts: seq<nat>, tally: Tally)

  function Start(L: LedgerState): Trace {
    Trace(L, L.shards, [], [], seq(|L.queue|, i => i), seq(|L.queue|, i requires 0 <= i < |L.queue| => L.queue[i].retries), Tally(0, 0, 0))
  }

  /** Batches may finish in any group order; expansion must leave every queued entry's shard indices right. */
  ghost predicate Enabled(c: Crypto, t: Trace, e: Event) {
    var L := t.ledger;
    && ValidConfig(L.config) && |L.shards| == L.config.shardCount
    && match e
       case Submit(txs, order) => IsGroupOrder(c, txs, L.config.shardCount, order)
       case DrainQueue(fps) => AllPlaced(L, L.queue) && |fps| == |t.tickets| == |L.queue|
       case Expand(additional) => QueueOk(c, ExpandedCount(L.config, additional), L.queue)
  }

  /** New entries draw new tickets. */
  function Issue(t: Trace, count: nat): Trace {
    t.(tickets := t.tickets + seq(count, i => |t.attempts| + i), attempts := t.attempts + seq(count, _ => 0))
  }

  /** Every queued entry has been attempted once more; those put back keep their tickets. */
  function Punch(t: Trace, kept: seq<nat>): Trace
    requires forall i :: 0 <= i < |kept| ==> kept[i] < |t.tickets|
  {
    t.(tickets := seq(|kept|, i requires 0 <= i < |kept| => t.tickets[kept[i]]),
       attempts := seq(|t.attempts|, k requires 0 <= k < |t.attempts| => t.attempts[k] + if k in t.tickets then 1 else 0))
  }

  ghost function Step(c: Crypto, t: Trace, e: Event): Trace
    requires Enabled(c, t, e)
  {
    var L := t.ledger;
    match e
    case Submit(txs, order) =>
      var (L', processed) := ProcessParallel(c, L, txs, order);
      Issue(t, |CrossGroup(c, L.config, txs)|).(ledger := L', log := t.log + processed)
    case DrainQueue(fps) =>
      var emptied := L.(queue := []);
      var d := ProcessQueueWith(c, L, fps);
      var tally := PassTally(c, emptied, L.queue, fps);
      Punch(t, Kept(c, emptied, L.queue, fps)).(
        ledger := d.ledger, log := t.log + d.applied, crossApplied := t.crossApplied + d.applied,
        tally := Tally(t.tally.gained + tally.gained, t.tally.lost + tally.lost, t.tally.slips + tally.slips))
    case Expand(additional) =>
      var L' := ExpandShards(c, L, additional);
      if L' == L then t else t.(ledger := L', base := L'.shards, log := [], tally := t.tally.(slips := 0))
  }

  /** The ticket of each queued entry has been punched as often as the entry was attempted, and no ticket more than three times. */
  ghost predicate TicketsOk(t: Trace) {
    && |t.tickets| == |t.ledger.queue|
    && (forall i, j :: 0 <= i < j < |t.tickets| ==> t.tickets[i] != t.tickets[j])
    && (forall i :: 0 <= i < |t.tickets| ==>
          t.tickets[i] < |t.attempts| && t.attempts[t.tickets[i]] == t.ledger.queue[i].retries < MAX_RETRY_ATTEMPTS)
    && (forall k :: 0 <= k < |t.attempts| ==> t.attempts[k] <= MAX_RETRY_ATTEMPTS)
  }

  /** The supply is what it was, plus what failed attempts created, minus what they destroyed. */
  ghost predicate SupplyOk(t0: LedgerState, t: Trace) {
    Supply(t0.shards) + t.tally.gained <= U64_MAX ==>
      Supply(t.ledger.shards) + t.tally.lost == Supply(t0.shards) + t.tally.gained
  }

  ghost predicate NoncesOk(c: Crypto, t: Trace) {
    && |t.base| == |t.ledger.shards| > 0
    && (t.tally.slips == 0 ==> NonceDiscipline(c, t.base, t.ledger.shards, t.log))
  }

  /** What holds in every state of a run that began in `t0`. */
  ghost predicate Safe(c: Crypto, t0: LedgerState, t: Trace) {
    && Standing(c, t.ledger)
    && SupplyOk(t0, t) && NoncesOk(c, t)
    && FreshKeys(c, t0.keys, t.ledger.keys, t.crossApplied)
    && TicketsOk(t)
  }

  lemma StartIsSafe(c: Crypto, L: LedgerState)
    requires Standing(c, L)
    ensures Safe(c, L, Start(L))
  {
    assert KeysOf(c, []) == {};
    forall i | 0 <= i < |L.queue| ensures L.queue[i].retries < MAX_RETRY_ATTEMPTS {
      assert QueuedOk(c, L.config.shardCount, L.queue[i]);
    }
  }

  lemma SubmitIsSafe(c: Crypto, t0: LedgerState, t: Trace, txs: seq<Transaction>, order: seq<nat>)
    requires Safe(c, t0, t) && Enabled(c, t, Submit(txs, order))
    ensures Safe(c, t0, Step(c, t, Submit(txs, order)))
  {
    var L := t.ledger;
    var (L', processed) := ProcessParallel(c, L, txs, order);
    GroupsKeep(c, L.shards, txs, order);
    CrossGroupOk(c, L.config, txs);
    if t.tally.slips == 0 {
      NonceDisciplineCompose(c, t.base, L.shards, L'.shards, t.log, processed);
    }
  }

  lemma PunchKeepsTickets(c: Crypto, t: Trace, t': Trace, kept: seq<nat>)
    requires TicketsOk(t) && IsRequeued(t.ledger.queue, kept, t'.ledger.queue)
    requires t'.tickets == Punch(t, kept).tickets && t'.attempts == Punch(t, kept).attempts
    ensures TicketsOk(t')
  {
    forall k | 0 <= k < |t'.attempts| ensures t'.attempts[k] <= MAX_RETRY_ATTEMPTS {
      if k in t.tickets {
        var i :| 0 <= i < |t.tickets| && t.tickets[i] == k;
      }
    }
    forall i | 0 <= i < |t'.tickets| ensures t'.tickets[i] < |t'.attempts| && t'.attempts[t'.tickets[i]] == t'.ledger.queue[i].retries {
      assert t'.tickets[i] == t.tickets[kept[i]];
      assert t.tickets[kept[i]] in t.tickets;
    }
  }

  lemma DrainKeepsStanding(c: Crypto, t: Trace, fps: seq<FailurePoint>)
    requires Standing(c, t.ledger) && TicketsOk(t) && Enabled(c, t, DrainQueue(fps))
    ensures Standing(c, Step(c, t, DrainQueue(fps)).ledger) && TicketsOk(Step(c, t, DrainQueue(fps)))
  {
    var L := t.ledger;
    var emptied := L.(queue := []);
    PassProceeds(c, emptied, L.queue, fps);
    PassRequeues(c, emptied, L.queue, fps);
    PunchKeepsTickets(c, t, Step(c, t, DrainQueue(fps)), Kept(c, emptied, L.queue, fps));
    if L.queue == [] {
      assert DrainWith(c, emptied, L.queue, fps).retained == [];
    }
  }

  lemma DrainKeepsSupply(c: Crypto, t0: LedgerState, t: Trace, fps: seq<FailurePoint>)
    requires Standing(c, t.ledger) && SupplyOk(t0, t) && Enabled(c, t, DrainQueue(fps))
    ensures SupplyOk(t0, Step(c, t, DrainQueue(fps)))
  {
    var emptied := t.ledger.(queue := []);
    if Supply(t0.shards) + t.tally.gained + PassTally(c, emptied, t.ledger.queue, fps).gained <= U64_MAX {
      PassSupply(c, emptied, t.ledger.queue, fps);
    }
  }

  lemma DrainKeepsNonces(c: Crypto, t: Trace, fps: seq<FailurePoint>)
    requires Standing(c, t.ledger) && NoncesOk(c, t) && Enabled(c, t, DrainQueue(fps))
    ensures NoncesOk(c, Step(c, t, DrainQueue(fps)))
  {
    var L := t.ledger;
    var emptied := L.(queue := []);
    var d := DrainWith(c, emptied, L.queue, fps);
    if t.tally.slips + PassTally(c, emptied, L.queue, fps).slips == 0 {
      PassNonces(c, emptied, L.queue, fps);
      NonceDisciplineCompose(c, t.base, L.shards, d.ledger.shards, t.log, d.applied);
    }
  }

  lemma DrainStepIsSafe(c: Crypto, t0: LedgerState, t: Trace, fps: seq<FailurePoint>)
    requires Safe(c, t0, t) && Enabled(c, t, DrainQueue(fps))
    ensures Safe(c, t0, Step(c, t, DrainQueue(fps)))
  {
    var emptied := t.ledger.(queue := []);
    DrainKeepsStanding(c, t, fps);
    DrainKeepsSupply(c, t0, t, fps);
    DrainKeepsNonces(c, t, fps);
    PassProceeds(c, emptied, t.ledger.queue, fps);
    var d := DrainWith(c, emptied, t.ledger.queue, fps);
    FreshKeysCompose(c, t0.keys, t.ledger.keys, d.ledger.keys, t.crossApplied, d.applied);
  }

  lemma ExpandStepIsSafe(c: Crypto, t0: LedgerState, t: Trace, additional: nat)
    requires Safe(c, t0, t) && Enabled(c, t, Expand(additional))
    ensures Safe(c, t0, Step(c, t, Expand(additional)))
  {
    ExpansionIsSafe(c, t.ledger, additional);
  }

  ghost predicate IsRun(c: Crypto, ts: seq<Trace>, es: seq<Event>) {
    && |ts| == |es| + 1
    && forall i :: 0 <= i < |es| ==> Enabled(c, ts[i], es[i]) && ts[i + 1] == Step(c, ts[i], es[i])
  }

  /**
    In every state of every run, whatever timed out: accounts and nonces live in their home shard, no
    lock is held, no idempotency key took effect twice, and no queued entry was attempted more than three
    times. The supply is what it was plus what failed attempts created minus what they destroyed, and
    unless one of them moved a nonce, every sender's applied transactions since the last expansion carry
    consecutive nonces ending at the tracker.
   */
  lemma {:induction false} RunIsSafe(c: Crypto, ts: seq<Trace>, es: seq<Event>, i: nat)
    requires IsRun(c, ts, es) && i < |ts|
    requires ts[0] == Start(ts[0].ledger) && Standing(c, ts[0].ledger)
    ensures Safe(c, ts[0].ledger, ts[i])
  {
    if i == 0 {
      StartIsSafe(c, ts[0].ledger);
    } else {
      RunIsSafe(c, ts, es, i - 1);
      match es[i - 1]
      case Submit(txs, order) => SubmitIsSafe(c, ts[0].ledger, ts[i - 1], txs, order);
      case DrainQueue(fps) => DrainStepIsSafe(c, ts[0].ledger, ts[i - 1], fps);
      case Expand(additional) => ExpandStepIsSafe(c, ts[0].ledger, ts[i - 1], additional);
    }
  }

  predicate Calm(e: Event) {
    e.DrainQueue? ==> forall i :: 0 <= i < |e.fps| ==> e.fps[i] == NoFailure
  }

  lemma CalmStep(c: Crypto, t: Trace, e: Event)
    requires Invariant(c, t.ledger) && Enabled(c, t, e) && Calm(e) && t.tally == Tally(0, 0, 0)
    ensures Invariant(c, Step(c, t, e).ledger) && Step(c, t, e).tally == Tally(0, 0, 0)
  {
    var L := t.ledger;
    match e
    case Submit(txs, order) =>
      GroupsKeep(c, L.shards, txs, order);
      CrossGroupOk(c, L.config, txs);
    case DrainQueue(fps) =>
      var emptied := L.(queue := []);
      PassProceeds(c, emptied, L.queue, fps);
      CalmPassIsExact(c, emptied, L.queue, fps);
      if L.queue == [] {
        assert DrainWith(c, emptied, L.queue, fps).retained == [];
      }
    case Expand(additional) =>
      ExpansionIsSafe(c, L, additional);
      forall i | 0 <= i < |L.queue| ensures EntryOk(c, ExpandedCount(L.config, additional), L.queue[i]) {
        assert EntryOk(c, L.config.shardCount, L.queue[i]);
        assert QueuedOk(c, ExpandedCount(L.config, additional), L.queue[i]);
      }
  }

  /** Where nothing times out: the supply is constant and every sender's nonces are consecutive. */
  lemma {:induction false} CalmRunConserves(c: Crypto, ts: seq<Trace>, es: seq<Event>, i: nat)
    requires IsRun(c, ts, es) && i < |ts| && forall k :: 0 <= k < |es| ==> Calm(es[k])
    requires ts[0] == Start(ts[0].ledger) && Invariant(c, ts[0].ledger) && Supply(ts[0].ledger.shards) <= U64_MAX
    ensures Invariant(c, ts[i].ledger) && ts[i].tally == Tally(0, 0, 0)
    ensures Supply(ts[i].ledger.shards) == Supply(ts[0].ledger.shards)
    ensures |ts[i].base| == |ts[i].ledger.shards| && NonceDiscipline(c, ts[i].base, ts[i].ledger.shards, ts[i].log)
  {
    RunIsSafe(c, ts, es, i);
    if i > 0 {
      CalmRunConserves(c, ts, es, i - 1);
      CalmStep(c, ts[i - 1], es[i - 1]);
    }
  }

  // ---------------------------------------------------------------- expansion with a queue

  /** A queued entry survives an expansion exactly when both its parties keep their shard. */
  lemma ExpansionKeepsEntry(c: Crypto, L: LedgerState, additional: nat, e: CrossTx)
    requires ValidConfig(L.config) && QueuedOk(c, L.config.shardCount, e)
    ensures var n := ExpandedCount(L.config, additional);
            QueuedOk(c, n, e) <==>
              ShardOf(c, e.tx.from, n) == ShardOf(c, e.tx.from, L.config.shardCount)
              && ShardOf(c, e.tx.to, n) == ShardOf(c, e.tx.to, L.config.shardCount)
  {
  }

  /** If its sender moved, an entry is refused; if only its receiver moved, the sender pays and no query ever sees the credit. */
  lemma MovedEntry(c: Crypto, L: LedgerState, e: CrossTx, a: Address)
    requires |L.shards| == L.config.shardCount > 0 && InOrder(c, L) && Ready(L, e) && e.fromShard != e.toShard && e.key !in L.keys
    ensures e.fromShard != ShardOf(c, e.tx.from, |L.shards|) ==> !Payable(c, L, e)
    ensures Payable(c, L, e) && e.toShard != ShardOf(c, e.tx.to, |L.shards|) ==>
              var L' := ExecuteCrossShardCommit(c, L, e, NoFailure).ledger;
              && !HomePlaced(c, L'.shards)
              && GetBalance(c, L', a) == GetBalance(c, L, a) - if a == e.tx.from then e.tx.amount else 0
  {
    CommitIsAtomic(c, L, e);
    if Payable(c, L, e) && e.toShard != ShardOf(c, e.tx.to, |L.shards|) {
      var L' := ExecuteCrossShardCommit(c, L, e, NoFailure).ledger;
      assert e.tx.to in L'.shards[e.toShard].accounts;
      CommitMoves(c, L, e, ShardOf(c, a, |L.shards|), a);
      if a == e.tx.from {
        assert e.fromShard == ShardOf(c, a, |L.shards|);
      }
    }
  }
}
