/**
  The single-chain ledger: admission to the pool, block creation, and a peer's validation of what was
  created. State and errors as values; the class in LegacyBlockchain.dfy takes these steps.
 */
module LegacyChain {
  import opened Common
  import opened Sums
  import opened Ledger

  datatype Block = Block(
    index: u64, timestamp: u64, txs: seq<Transaction>, prevHash: string, hash: string, nonce: u64,
    validator: string, stateRoot: string)

  /** What the block hash covers. Of the transactions it sees only the length of their serialization. */
  datatype Header = Header(
    index: u64, timestamp: u64, txBytes: nat, prevHash: string, nonce: u64, validator: string, stateRoot: string)

  /** The digests, uninterpreted. The state digest visits accounts in address order, so it is a function of the map. */
  datatype Hashes = Hashes(
    serializedLength: seq<Transaction> -> nat,
    block: Header -> string,
    tx: (string, string, u64, u64, u64) -> string,
    state: map<Address, Account> -> string)

  datatype ChainState = ChainState(
    chain: seq<Block>, pending: seq<Transaction>, accounts: map<Address, Account>, pool: map<string, Transaction>)

  datatype AddError = ZeroAmount | GasFee | InsufficientBalance | InvalidNonce | SenderNotFound | AlreadyInPool

  datatype Added = Added | Refused(error: AddError)

  function TxHash(h: Hashes, tx: Transaction): string {
    h.tx(tx.from, tx.to, tx.amount, tx.nonce, tx.timestamp)
  }

  function BlockHash(h: Hashes, b: Block): string {
    h.block(Header(b.index, b.timestamp, h.serializedLength(b.txs), b.prevHash, b.nonce, b.validator, b.stateRoot))
  }

  // ---------------------------------------------------------------- admission

  /** A zero nonce stands for "the next one". */
  function WithNonce(accounts: map<Address, Account>, tx: Transaction): Transaction {
    if tx.from in accounts && tx.nonce == 0 then tx.(nonce := WrapAdd(accounts[tx.from].nonce, 1)) else tx
  }

  function AddTransaction(h: Hashes, s: ChainState, tx: Transaction): (ChainState, Added) {
    var tx' := WithNonce(s.accounts, tx);
    if tx.amount == 0 then (s, Refused(ZeroAmount))
    else if tx.gasFee != 0 then (s, Refused(GasFee))
    else if tx.from !in s.accounts then (s, Refused(SenderNotFound))
    else if s.accounts[tx.from].balance < tx.amount then (s, Refused(InsufficientBalance))
    else if s.accounts[tx.from].nonce >= tx'.nonce then (s, Refused(InvalidNonce))
    else if TxHash(h, tx') in s.pool then (s, Refused(AlreadyInPool))
    else (s.(pool := s.pool[TxHash(h, tx') := tx'], pending := s.pending + [tx']), Added)
  }

  // ---------------------------------------------------------------- transactions on accounts

  function AccountOf(accounts: map<Address, Account>, a: Address): Account {
    if a in accounts then accounts[a] else Account(0, 0)
  }

  /** Debit and count, then credit; the credit and the count wrap. */
  function Apply(accounts: map<Address, Account>, tx: Transaction): Option<map<Address, Account>> {
    var sender := AccountOf(accounts, tx.from);
    if sender.balance < tx.amount then None else
      var debited := accounts[tx.from := Account(sender.balance - tx.amount, WrapAdd(sender.nonce, 1))];
      var receiver := AccountOf(debited, tx.to);
      Some(debited[tx.to := receiver.(balance := WrapAdd(receiver.balance, tx.amount))])
  }

  /** All or nothing. */
  function ApplyAll(accounts: map<Address, Account>, txs: seq<Transaction>): Option<map<Address, Account>> {
    if txs == [] then Some(accounts) else
      var front := ApplyAll(accounts, txs[..|txs| - 1]);
      if front.None? then None else Apply(front.value, txs[|txs| - 1])
  }

  predicate ValidTransaction(accounts: map<Address, Account>, tx: Transaction) {
    tx.amount != 0 && tx.gasFee == 0 && tx.from in accounts && accounts[tx.from].balance >= tx.amount
  }

  predicate AllValid(accounts: map<Address, Account>, txs: seq<Transaction>) {
    forall i :: 0 <= i < |txs| ==> ValidTransaction(accounts, txs[i])
  }

  // ---------------------------------------------------------------- blocks

  function DraftBlock(h: Hashes, last: Block, txs: seq<Transaction>, accounts: map<Address, Account>, validator: string, now: u64): Block {
    Block(WrapAdd(last.index, 1), now, txs, last.hash, "", 0, validator, h.state(accounts))
  }

  function Forget(h: Hashes, pool: map<string, Transaction>, txs: seq<Transaction>): map<string, Transaction> {
    if txs == [] then pool else Forget(h, pool, txs[..|txs| - 1]) - {TxHash(h, txs[|txs| - 1])}
  }

  /** The pending list is drained before anything can fail, and stays drained if it does. */
  function CreateBlock(h: Hashes, s: ChainState, validator: string, now: u64): (ChainState, Option<Block>) {
    if s.chain == [] then (s, None) else
      var accounts := ApplyAll(s.accounts, s.pending);
      if accounts.None? then (s.(pending := []), None) else
        var draft := DraftBlock(h, s.chain[|s.chain| - 1], s.pending, accounts.value, validator, now);
        var block := draft.(hash := BlockHash(h, draft));
        (ChainState(s.chain + [block], [], accounts.value, Forget(h, s.pool, s.pending)), Some(block))
  }

  /** A peer checks every transaction against its own prior accounts, and the outcome against the state root. */
  predicate AcceptsBlock(h: Hashes, s: ChainState, b: Block) {
    && s.chain != []
    && var last := s.chain[|s.chain| - 1];
    && b.index == WrapAdd(last.index, 1) && b.prevHash == last.hash && b.timestamp > last.timestamp
    && b.hash == BlockHash(h, b)
    && AllValid(s.accounts, b.txs)
    && ApplyAll(s.accounts, b.txs).Some? && b.stateRoot == h.state(ApplyAll(s.accounts, b.txs).value)
  }

  // ---------------------------------------------------------------- runs

  datatype ChainEvent = Submit(tx: Transaction) | Create(validator: string, now: u64)

  function ChainStep(h: Hashes, s: ChainState, e: ChainEvent): ChainState {
    match e
    case Submit(tx) => AddTransaction(h, s, tx).0
    case Create(validator, now) => CreateBlock(h, s, validator, now).0
  }

  function ChainRun(h: Hashes, s: ChainState, events: seq<ChainEvent>): ChainState {
    if events == [] then s else ChainStep(h, ChainRun(h, s, events[..|events| - 1]), events[|events| - 1])
  }

  predicate EntryOk(h: Hashes, accounts: map<Address, Account>, pool: map<string, Transaction>, tx: Transaction) {
    && ValidTransaction(accounts, tx) && accounts[tx.from].nonce < tx.nonce
    && TxHash(h, tx) in pool && pool[TxHash(h, tx)] == tx
  }

  predicate DistinctHashes(h: Hashes, txs: seq<Transaction>) {
    forall i, j :: 0 <= i < j < |txs| ==> TxHash(h, txs[i]) != TxHash(h, txs[j])
  }

  /** Every pending transaction is valid now, still ahead of its sender's nonce, and the pool's own entry. */
  predicate PendingOk(h: Hashes, s: ChainState) {
    && (forall i :: 0 <= i < |s.pending| ==> EntryOk(h, s.accounts, s.pool, s.pending[i]))
    && DistinctHashes(h, s.pending)
  }

  /** Consecutive indices, matching hashes, every hash recomputable. */
  predicate LinkedChain(h: Hashes, chain: seq<Block>) {
    && (forall i :: 0 < i < |chain| ==>
          chain[i].index == WrapAdd(chain[i - 1].index, 1) && chain[i].prevHash == chain[i - 1].hash)
    && (forall i :: 0 <= i < |chain| ==> chain[i].hash == BlockHash(h, chain[i]))
  }

  predicate ChainOk(h: Hashes, s: ChainState) {
    s.chain != [] && LinkedChain(h, s.chain) && PendingOk(h, s)
  }

  lemma SubmitIsOk(h: Hashes, s: ChainState, tx: Transaction)
    requires PendingOk(h, s)
    ensures PendingOk(h, AddTransaction(h, s, tx).0)
  {
    var s' := AddTransaction(h, s, tx).0;
    if s' != s {
      assert EntryOk(h, s'.accounts, s'.pool, WithNonce(s.accounts, tx));
      forall i | 0 <= i < |s.pending| ensures EntryOk(h, s.accounts, s'.pool, s.pending[i]) {
        assert EntryOk(h, s.accounts, s.pool, s.pending[i]);
      }
    }
  }

  lemma CreateIsLinked(h: Hashes, s: ChainState, validator: string, now: u64)
    requires LinkedChain(h, s.chain)
    ensures LinkedChain(h, CreateBlock(h, s, validator, now).0.chain)
  {
    var r := CreateBlock(h, s, validator, now).1;
    if r.Some? {
      assert BlockHash(h, r.value) == r.value.hash;
      LinkedAppend(h, s.chain, r.value);
    }
  }

  lemma LinkedAppend(h: Hashes, chain: seq<Block>, b: Block)
    requires chain != [] && LinkedChain(h, chain) && b.hash == BlockHash(h, b)
    requires b.index == WrapAdd(chain[|chain| - 1].index, 1) && b.prevHash == chain[|chain| - 1].hash
    ensures LinkedChain(h, chain + [b])
  {
  }

  lemma StepIsOk(h: Hashes, s: ChainState, e: ChainEvent)
    requires ChainOk(h, s)
    ensures ChainOk(h, ChainStep(h, s, e))
  {
    match e
    case Submit(tx) => SubmitIsOk(h, s, tx);
    case Create(validator, now) => CreateIsLinked(h, s, validator, now);
  }

  /** Between account initializations, in any run of submissions and block creations. */
  lemma {:induction false} RunIsOk(h: Hashes, s: ChainState, events: seq<ChainEvent>)
    requires ChainOk(h, s)
    ensures ChainOk(h, ChainRun(h, s, events))
  {
    if events != [] {
      RunIsOk(h, s, events[..|events| - 1]);
      StepIsOk(h, ChainRun(h, s, events[..|events| - 1]), events[|events| - 1]);
    }
  }

  /**
    After any run, a block that is created is accepted by every peer with the same last block and
    accounts exactly when its timestamp moves past that block's.
   */
  lemma CreatedIsAccepted(h: Hashes, s: ChainState, events: seq<ChainEvent>, validator: string, now: u64, peer: ChainState)
    requires ChainOk(h, s)
    requires var r := ChainRun(h, s, events);
             && CreateBlock(h, r, validator, now).1.Some?
             && peer.chain != [] && peer.chain[|peer.chain| - 1] == r.chain[|r.chain| - 1] && peer.accounts == r.accounts
    ensures AcceptsBlock(h, peer, CreateBlock(h, ChainRun(h, s, events), validator, now).1.value)
       <==> now > peer.chain[|peer.chain| - 1].timestamp
  {
    RunIsOk(h, s, events);
    var r := ChainRun(h, s, events);
    assert AllValid(r.accounts, r.pending) by {
      forall i | 0 <= i < |r.pending| ensures ValidTransaction(r.accounts, r.pending[i]) {
        assert EntryOk(h, r.accounts, r.pool, r.pending[i]);
      }
    }
  }

  /** A creation that fails keeps the accounts, loses the pending list, and the pool refuses the lost ones from then on. */
  lemma FailedCreationForgets(h: Hashes, s: ChainState, validator: string, now: u64, tx: Transaction)
    requires ChainOk(h, s) && CreateBlock(h, s, validator, now).1.None? && tx in s.pending
    ensures var s' := CreateBlock(h, s, validator, now).0;
            s'.pending == [] && s'.accounts == s.accounts && s'.chain == s.chain
            && AddTransaction(h, s', tx) == (s', Refused(AlreadyInPool))
  {
  }

  // ---------------------------------------------------------------- conservation and counting

  function Balances(accounts: map<Address, Account>): map<Address, nat> {
    map a | a in accounts :: accounts[a].balance
  }

  ghost function Supply(accounts: map<Address, Account>): nat {
    MapSum(Balances(accounts))
  }

  lemma SetBalanceSupply(accounts: map<Address, Account>, a: Address, account: Account)
    ensures Supply(accounts[a := account]) == Supply(accounts) - AccountOf(accounts, a).balance + account.balance
    ensures AccountOf(accounts, a).balance <= Supply(accounts)
  {
    assert Balances(accounts[a := account]) == Balances(accounts)[a := account.balance];
    MapSumUpdate(Balances(accounts), a, account.balance);
    if a in accounts {
      MapSumRemove(Balances(accounts), a);
    }
  }

  /** What the receiver holds when the credit is added. */
  function BeforeCredit(accounts: map<Address, Account>, tx: Transaction): int {
    AccountOf(accounts, tx.to).balance - if tx.from == tx.to then tx.amount else 0
  }

  /** One transaction conserves the supply exactly when the credit fits the receiver's word. */
  lemma ApplyConserves(accounts: map<Address, Account>, tx: Transaction)
    requires Apply(accounts, tx).Some?
    ensures Supply(Apply(accounts, tx).value) == Supply(accounts) <==> BeforeCredit(accounts, tx) + tx.amount <= U64_MAX
    ensures Supply(accounts) <= U64_MAX ==> BeforeCredit(accounts, tx) + tx.amount <= U64_MAX
  {
    var sender := AccountOf(accounts, tx.from);
    var taken := Account(sender.balance - tx.amount, WrapAdd(sender.nonce, 1));
    var debited := accounts[tx.from := taken];
    SetBalanceSupply(accounts, tx.from, taken);
    var receiver := AccountOf(debited, tx.to);
    SetBalanceSupply(debited, tx.to, receiver.(balance := WrapAdd(receiver.balance, tx.amount)));
  }

  /** A block conserves a supply that fits the word. */
  lemma {:induction false} BlockConserves(accounts: map<Address, Account>, txs: seq<Transaction>)
    requires Supply(accounts) <= U64_MAX && ApplyAll(accounts, txs).Some?
    ensures Supply(ApplyAll(accounts, txs).value) == Supply(accounts)
  {
    if txs != [] {
      BlockConserves(accounts, txs[..|txs| - 1]);
      ApplyConserves(ApplyAll(accounts, txs[..|txs| - 1]).value, txs[|txs| - 1]);
    }
  }

  /** The amount goes from sender to receiver, as far as words allow, and nobody else is touched. */
  lemma ApplyMoves(accounts: map<Address, Account>, tx: Transaction, a: Address)
    requires Apply(accounts, tx).Some?
    ensures var before, after := AccountOf(accounts, a).balance, AccountOf(Apply(accounts, tx).value, a).balance;
            after == if tx.from == tx.to then before
                     else if a == tx.from then before - tx.amount
                     else if a == tx.to then WrapAdd(before, tx.amount)
                     else before
  {
  }

  function SentBy(txs: seq<Transaction>, a: Address): nat {
    if txs == [] then 0 else SentBy(txs[..|txs| - 1], a) + if txs[|txs| - 1].from == a then 1 else 0
  }

  /** Account nonces count what their owners sent, and nothing else moves them. */
  lemma {:induction false} NoncesCount(accounts: map<Address, Account>, txs: seq<Transaction>, a: Address)
    requires ApplyAll(accounts, txs).Some?
    ensures AccountOf(ApplyAll(accounts, txs).value, a).nonce == Word(AccountOf(accounts, a).nonce + SentBy(txs, a))
  {
    if txs != [] {
      NoncesCount(accounts, txs[..|txs| - 1], a);
      AddToWord(AccountOf(accounts, a).nonce + SentBy(txs[..|txs| - 1], a), 1);
    }
  }

  /** So does any run of submissions and block creations. */
  lemma {:induction false} RunConserves(h: Hashes, s: ChainState, events: seq<ChainEvent>)
    requires Supply(s.accounts) <= U64_MAX
    ensures Supply(ChainRun(h, s, events).accounts) == Supply(s.accounts)
  {
    if events != [] {
      RunConserves(h, s, events[..|events| - 1]);
      var r := ChainRun(h, s, events[..|events| - 1]);
      if ApplyAll(r.accounts, r.pending).Some? {
        BlockConserves(r.accounts, r.pending);
      }
    }
  }

  /** Once a prefix fails, so does the whole. */
  lemma {:induction false} FailurePropagates(accounts: map<Address, Account>, txs: seq<Transaction>, n: nat)
    requires n <= |txs| && ApplyAll(accounts, txs[..n]).None?
    ensures ApplyAll(accounts, txs).None?
    decreases |txs|
  {
    if n < |txs| {
      assert txs[..|txs| - 1][..n] == txs[..n];
      FailurePropagates(accounts, txs[..|txs| - 1], n);
    } else {
      assert txs[..n] == txs;
    }
  }
}
