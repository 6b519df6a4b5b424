/**
  What submissions and blocks of the single-chain ledger do: which transactions are admitted, what a
  created block contains and moves, and that nothing admitted is lost unless a list fails to apply.
 */
module LegacyEffects {
  import opened Common
  import opened Ledger
  import opened LegacyChain

  // ---------------------------------------------------------------- what a list moves

  function PaidTo(txs: seq<Transaction>, a: Address): nat {
    if txs == [] then 0 else PaidTo(txs[..|txs| - 1], a) + if txs[|txs| - 1].to == a then txs[|txs| - 1].amount else 0
  }

  function PaidBy(txs: seq<Transaction>, a: Address): nat {
    if txs == [] then 0 else PaidBy(txs[..|txs| - 1], a) + if txs[|txs| - 1].from == a then txs[|txs| - 1].amount else 0
  }

  function BalanceOf(accounts: map<Address, Account>, a: Address): u64 {
    AccountOf(accounts, a).balance
  }

  /** A list moves what it says: whoever it pays gains just that, whoever it charges loses just that. */
  lemma {:induction false} ListMoves(accounts: map<Address, Account>, txs: seq<Transaction>, a: Address)
    requires Supply(accounts) <= U64_MAX && ApplyAll(accounts, txs).Some?
    ensures BalanceOf(ApplyAll(accounts, txs).value, a) == BalanceOf(accounts, a) + PaidTo(txs, a) - PaidBy(txs, a)
  {
    if txs != [] {
      var front, last := txs[..|txs| - 1], txs[|txs| - 1];
      ListMoves(accounts, front, a);
      BlockConserves(accounts, front);
      var before := ApplyAll(accounts, front).value;
      ApplyConserves(before, last);
      ApplyMoves(before, last, a);
    }
  }

  /** Every sender can pay each of its transactions out of what it had, plus what came in, less what went out before. */
  predicate Covered(accounts: map<Address, Account>, txs: seq<Transaction>) {
    txs == [] || (Covered(accounts, txs[..|txs| - 1]) && CoversNext(accounts, txs[..|txs| - 1], txs[|txs| - 1]))
  }

  predicate CoversNext(accounts: map<Address, Account>, front: seq<Transaction>, tx: Transaction) {
    PaidBy(front, tx.from) + tx.amount <= BalanceOf(accounts, tx.from) + PaidTo(front, tx.from)
  }

  /** A list applies exactly when it is covered. */
  lemma {:induction false} AppliesExactly(accounts: map<Address, Account>, txs: seq<Transaction>)
    requires Supply(accounts) <= U64_MAX
    ensures ApplyAll(accounts, txs).Some? <==> Covered(accounts, txs)
  {
    if txs != [] {
      var front, last := txs[..|txs| - 1], txs[|txs| - 1];
      AppliesExactly(accounts, front);
      if ApplyAll(accounts, front).Some? {
        ListMoves(accounts, front, last.from);
      }
    }
  }

  // ---------------------------------------------------------------- admission

  /** The transaction as it is admitted: a zero nonce became the one after its sender's. */
  predicate FillsIn(accounts: map<Address, Account>, tx: Transaction, filled: Transaction) {
    && filled.(nonce := tx.nonce) == tx
    && filled.nonce == if tx.nonce == 0 && tx.from in accounts then WrapAdd(accounts[tx.from].nonce, 1) else tx.nonce
  }

  predicate Admissible(h: Hashes, s: ChainState, tx: Transaction, filled: Transaction) {
    && tx.amount > 0 && tx.gasFee == 0 && tx.from in s.accounts && tx.amount <= s.accounts[tx.from].balance
    && s.accounts[tx.from].nonce < filled.nonce && TxHash(h, filled) !in s.pool
  }

  /** What is admitted joins the end of the list and the pool, and nothing else happens; what is not changes nothing. */
  lemma SubmissionIsAcceptedExactly(h: Hashes, s: ChainState, tx: Transaction, filled: Transaction)
    requires FillsIn(s.accounts, tx, filled)
    ensures var (s', r) := AddTransaction(h, s, tx);
            && (r.Added? <==> Admissible(h, s, tx, filled))
            && (r.Refused? ==> s' == s)
            && (r.Added? ==> s'.pending == s.pending + [filled] && s'.pool == s.pool[TxHash(h, filled) := filled])
            && (r.Added? ==> s'.accounts == s.accounts && s'.chain == s.chain)
  {
    assert WithNonce(s.accounts, tx) == filled || tx.from !in s.accounts;
  }

  // ---------------------------------------------------------------- creation

  /** The pool forgets the included transactions and no others. */
  lemma {:induction false} ForgetsExactly(h: Hashes, pool: map<string, Transaction>, txs: seq<Transaction>, k: string)
    ensures k in Forget(h, pool, txs) <==> k in pool && forall i :: 0 <= i < |txs| ==> TxHash(h, txs[i]) != k
    ensures k in Forget(h, pool, txs) ==> Forget(h, pool, txs)[k] == pool[k]
  {
    if txs != [] {
      var front := txs[..|txs| - 1];
      ForgetsExactly(h, pool, front, k);
      assert forall i :: 0 <= i < |front| ==> front[i] == txs[i];
    }
  }

  /** On a chain with a last block, a creation succeeds exactly when the pending list is covered. */
  lemma CreationSucceedsExactly(h: Hashes, s: ChainState, validator: string, now: u64)
    requires Supply(s.accounts) <= U64_MAX
    ensures CreateBlock(h, s, validator, now).1.Some? <==> s.chain != [] && Covered(s.accounts, s.pending)
  {
    AppliesExactly(s.accounts, s.pending);
  }

  /** The created block: the whole pending list, on top of the last block, sealed over the new accounts. */
  lemma CreatedBlockCarries(h: Hashes, s: ChainState, validator: string, now: u64)
    requires CreateBlock(h, s, validator, now).1.Some?
    ensures var (s', r) := CreateBlock(h, s, validator, now);
            && s.chain != [] && s'.chain == s.chain + [r.value] && s'.pending == []
            && r.value.txs == s.pending && r.value.timestamp == now && r.value.validator == validator && r.value.nonce == 0
            && r.value.prevHash == s.chain[|s.chain| - 1].hash && r.value.index == WrapAdd(s.chain[|s.chain| - 1].index, 1)
            && r.value.stateRoot == h.state(s'.accounts) && r.value.hash == BlockHash(h, r.value)
  {
  }

  /** What a creation does to an account: it is paid and charged what the list says, and its nonce counts what it sent. */
  lemma CreationMoves(h: Hashes, s: ChainState, validator: string, now: u64, a: Address)
    requires Supply(s.accounts) <= U64_MAX && CreateBlock(h, s, validator, now).1.Some?
    ensures var accounts := CreateBlock(h, s, validator, now).0.accounts;
            && BalanceOf(accounts, a) == BalanceOf(s.accounts, a) + PaidTo(s.pending, a) - PaidBy(s.pending, a)
            && AccountOf(accounts, a).nonce == Word(AccountOf(s.accounts, a).nonce + SentBy(s.pending, a))
  {
    ListMoves(s.accounts, s.pending, a);
    NoncesCount(s.accounts, s.pending, a);
  }

  lemma CreationForgets(h: Hashes, s: ChainState, validator: string, now: u64, k: string)
    requires CreateBlock(h, s, validator, now).1.Some?
    ensures var pool := CreateBlock(h, s, validator, now).0.pool;
            && (k in pool <==> k in s.pool && forall i :: 0 <= i < |s.pending| ==> TxHash(h, s.pending[i]) != k)
            && (k in pool ==> pool[k] == s.pool[k])
  {
    ForgetsExactly(h, s.pool, s.pending, k);
  }

  // ---------------------------------------------------------------- nothing is lost

  /** The transactions of all blocks, in order. */
  function Carried(chain: seq<Block>): seq<Transaction> {
    if chain == [] then [] else Carried(chain[..|chain| - 1]) + chain[|chain| - 1].txs
  }

  function Held(s: ChainState): seq<Transaction> {
    Carried(s.chain) + s.pending
  }

  /** What a step admits. */
  function Admits(h: Hashes, s: ChainState, e: ChainEvent): seq<Transaction> {
    if e.Submit? && AddTransaction(h, s, e.tx).1.Added? then [WithNonce(s.accounts, e.tx)] else []
  }

  function Admitted(h: Hashes, s: ChainState, events: seq<ChainEvent>): seq<Transaction> {
    if events == [] then [] else
      Admitted(h, s, events[..|events| - 1]) + Admits(h, ChainRun(h, s, events[..|events| - 1]), events[|events| - 1])
  }

  /** Does this event fail to apply a list that holds something? */
  predicate Loses(h: Hashes, s: ChainState, e: ChainEvent) {
    e.Create? && s.chain != [] && s.pending != [] && ApplyAll(s.accounts, s.pending).None?
  }

  predicate LosesNothing(h: Hashes, s: ChainState, events: seq<ChainEvent>) {
    events == [] || (LosesNothing(h, s, events[..|events| - 1])
                     && !Loses(h, ChainRun(h, s, events[..|events| - 1]), events[|events| - 1]))
  }

  lemma StepHolds(h: Hashes, s: ChainState, e: ChainEvent)
    ensures !Loses(h, s, e) ==> Held(ChainStep(h, s, e)) == Held(s) + Admits(h, s, e)
    ensures Loses(h, s, e) ==> |Held(ChainStep(h, s, e))| < |Held(s)| + |Admits(h, s, e)|
  {
    var s' := ChainStep(h, s, e);
    if e.Create? && |s'.chain| > |s.chain| {
      assert s'.chain[..|s.chain|] == s.chain;
    }
  }

  lemma {:induction false} RunHolds(h: Hashes, s: ChainState, events: seq<ChainEvent>)
    ensures LosesNothing(h, s, events) ==> Held(ChainRun(h, s, events)) == Held(s) + Admitted(h, s, events)
    ensures !LosesNothing(h, s, events) ==> |Held(ChainRun(h, s, events))| < |Held(s)| + |Admitted(h, s, events)|
  {
    if events != [] {
      var front, last := events[..|events| - 1], events[|events| - 1];
      var r := ChainRun(h, s, front);
      RunHolds(h, s, front);
      StepHolds(h, r, last);
      assert ChainRun(h, s, events) == ChainStep(h, r, last);
      assert Admitted(h, s, events) == Admitted(h, s, front) + Admits(h, r, last);
    }
  }

  /**
    Over any run, every admitted transaction is in a block or still pending, once and in the order of
    admission, exactly when no block creation failed to apply a nonempty list.
   */
  lemma NothingIsLostExactly(h: Hashes, s: ChainState, events: seq<ChainEvent>)
    ensures Held(ChainRun(h, s, events)) == Held(s) + Admitted(h, s, events) <==> LosesNothing(h, s, events)
  {
    RunHolds(h, s, events);
  }

  // ---------------------------------------------------------------- acceptance

  /** An accepted block extends the chain, later than its last block, and replays to the root it names. */
  lemma AcceptedExtends(h: Hashes, s: ChainState, b: Block)
    requires LinkedChain(h, s.chain) && Supply(s.accounts) <= U64_MAX && AcceptsBlock(h, s, b)
    ensures s.chain != [] && LinkedChain(h, s.chain + [b]) && b.timestamp > s.chain[|s.chain| - 1].timestamp
    ensures forall i :: 0 <= i < |b.txs| ==>
              b.txs[i].amount > 0 && b.txs[i].gasFee == 0 && b.txs[i].from in s.accounts
              && b.txs[i].amount <= s.accounts[b.txs[i].from].balance
    ensures Covered(s.accounts, b.txs)
    ensures exists accounts :: b.stateRoot == h.state(accounts) && IsOutcome(s.accounts, b.txs, accounts)
  {
    LinkedAppend(h, s.chain, b);
    AppliesExactly(s.accounts, b.txs);
    var accounts := ApplyAll(s.accounts, b.txs).value;
    forall a ensures BalanceOf(accounts, a) == BalanceOf(s.accounts, a) + PaidTo(b.txs, a) - PaidBy(b.txs, a) {
      ListMoves(s.accounts, b.txs, a);
    }
    assert IsOutcome(s.accounts, b.txs, accounts);
  }

  ghost predicate IsOutcome(before: map<Address, Account>, txs: seq<Transaction>, after: map<Address, Account>) {
    forall a :: BalanceOf(after, a) == BalanceOf(before, a) + PaidTo(txs, a) - PaidBy(txs, a)
  }

  /** What a block's hash covers, as a pair of headers with one digest shows when it is not unique. */
  function HeaderOf(h: Hashes, b: Block): Header {
    Header(b.index, b.timestamp, h.serializedLength(b.txs), b.prevHash, b.nonce, b.validator, b.stateRoot)
  }

  /** Two different headers with one digest. */
  ghost predicate HeadersCollide(h: Hashes, b: Block, b': Block) {
    HeaderOf(h, b) != HeaderOf(h, b') && h.block(HeaderOf(h, b)) == h.block(HeaderOf(h, b'))
  }

  /** Of two different headers under one hash at most one is accepted anywhere, or the block digest collides. */
  lemma HashBinds(h: Hashes, s: ChainState, b: Block, s': ChainState, b': Block)
    requires AcceptsBlock(h, s, b) && AcceptsBlock(h, s', b') && b.hash == b'.hash
    ensures (b.index == b'.index && b.timestamp == b'.timestamp && b.prevHash == b'.prevHash && b.nonce == b'.nonce
             && b.validator == b'.validator && b.stateRoot == b'.stateRoot
             && h.serializedLength(b.txs) == h.serializedLength(b'.txs))
         || HeadersCollide(h, b, b')
  {
  }

  /** The pool's key binds sender, receiver, amount, nonce and time, or the transaction digest collides. */
  lemma TxHashBinds(h: Hashes, t: Transaction, u: Transaction)
    requires TxHash(h, t) == TxHash(h, u)
    ensures (t.from == u.from && t.to == u.to && t.amount == u.amount && t.nonce == u.nonce && t.timestamp == u.timestamp)
         || ((t.from, t.to, t.amount, t.nonce, t.timestamp) != (u.from, u.to, u.amount, u.nonce, u.timestamp)
             && h.tx(t.from, t.to, t.amount, t.nonce, t.timestamp) == h.tx(u.from, u.to, u.amount, u.nonce, u.timestamp))
  {
  }

  lemma FrontIsLinked(h: Hashes, chain: seq<Block>)
    requires chain != [] && LinkedChain(h, chain)
    ensures LinkedChain(h, chain[..|chain| - 1]) && chain[|chain| - 1].hash == BlockHash(h, chain[|chain| - 1])
    ensures |chain| > 1 ==> chain[|chain| - 1].prevHash == chain[|chain| - 2].hash
  {
    var front := chain[..|chain| - 1];
    assert forall i :: 0 <= i < |front| ==> front[i] == chain[i];
  }

  ghost predicate SameHeaders(h: Hashes, p: seq<Block>, q: seq<Block>) {
    |p| == |q| && forall k :: 0 <= k < |p| ==> HeaderOf(h, p[k]) == HeaderOf(h, q[k])
  }

  lemma SameHeadersGrow(h: Hashes, p: seq<Block>, q: seq<Block>)
    requires p != [] && |p| == |q| && HeaderOf(h, p[|p| - 1]) == HeaderOf(h, q[|q| - 1])
    requires SameHeaders(h, p[..|p| - 1], q[..|q| - 1])
    ensures SameHeaders(h, p, q)
  {
    forall k | 0 <= k < |p| ensures HeaderOf(h, p[k]) == HeaderOf(h, q[k]) {
      assert k < |p| - 1 ==> p[..|p| - 1][k] == p[k] && q[..|q| - 1][k] == q[k];
    }
  }

  /** The last hash binds the whole chain, genesis included, or two headers collide. */
  lemma {:induction false} LastHashBinds(h: Hashes, p: seq<Block>, q: seq<Block>) returns (i: nat)
    requires p != [] && LinkedChain(h, p) && LinkedChain(h, q) && |p| == |q| && p[|p| - 1].hash == q[|q| - 1].hash
    ensures SameHeaders(h, p, q) || (i < |p| && HeadersCollide(h, p[i], q[i]))
    decreases |p|
  {
    i := |p| - 1;
    FrontIsLinked(h, p);
    FrontIsLinked(h, q);
    if HeaderOf(h, p[i]) == HeaderOf(h, q[i]) {
      if i > 0 {
        i := LastHashBinds(h, p[..|p| - 1], q[..|q| - 1]);
      }
      if SameHeaders(h, p[..|p| - 1], q[..|q| - 1]) {
        SameHeadersGrow(h, p, q);
      }
    }
  }
}
