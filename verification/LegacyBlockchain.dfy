/** The single-chain node: its maps, pool and chain are changed in place. Every method takes the step of LegacyChain.dfy. */
module LegacyBlockchain {
  import opened Common
  import opened Ledger
  import opened LegacyChain

  class Blockchain {
    const hashes: Hashes
    var chain: seq<Block>
    var pendingTransactions: seq<Transaction>
    var state: map<Address, Account>
    var transactionPool: map<string, Transaction>

    function State(): ChainState
      reads this
    {
      ChainState(chain, pendingTransactions, state, transactionPool)
    }

    /** One genesis block whose hash is recomputable, nothing else. */
    constructor (hashes: Hashes, now: u64)
      ensures this.hashes == hashes && ChainOk(hashes, State())
      ensures |chain| == 1 && chain[0].index == 0 && pendingTransactions == [] && state == map[] && transactionPool == map[]
    {
      var genesis := Block(0, now, [], "0", "", 0, "genesis", "0");
      this.hashes := hashes;
      chain := [genesis.(hash := BlockHash(hashes, genesis))];
      pendingTransactions, state, transactionPool := [], map[], map[];
    }

    method AddTransaction(transaction: Transaction) returns (r: Added)
      modifies this`pendingTransactions, this`transactionPool
      ensures (State(), r) == LegacyChain.AddTransaction(hashes, old(State()), transaction)
    {
      var tx := transaction;
      if tx.amount == 0 {
        return Refused(ZeroAmount);
      }
      if tx.gasFee != 0 {
        return Refused(GasFee);
      }
      if tx.from !in state {
        return Refused(SenderNotFound);
      }
      var account := state[tx.from];
      if account.balance < tx.amount {
        return Refused(InsufficientBalance);
      }
      if tx.nonce == 0 {
        tx := tx.(nonce := WrapAdd(account.nonce, 1));
      }
      if account.nonce >= tx.nonce {
        return Refused(InvalidNonce);
      }
      var txHash := TxHash(hashes, tx);
      if txHash in transactionPool {
        return Refused(AlreadyInPool);
      }
      transactionPool := transactionPool[txHash := tx];
      pendingTransactions := pendingTransactions + [tx];
      return LegacyChain.Added;
    }

    /** Apply one transaction to a working copy of the accounts. */
    method ApplyTransaction(accounts: map<Address, Account>, tx: Transaction) returns (r: Option<map<Address, Account>>)
      ensures r == Apply(accounts, tx)
    {
      var working := accounts;
      if tx.from !in working {
        working := working[tx.from := Account(0, 0)];
      }
      var sender := working[tx.from];
      if sender.balance < tx.amount {
        return None;
      }
      working := working[tx.from := Account(sender.balance - tx.amount, WrapAdd(sender.nonce, 1))];
      assert working == accounts[tx.from := Account(sender.balance - tx.amount, WrapAdd(sender.nonce, 1))];
      if tx.to !in working {
        working := working[tx.to := Account(0, 0)];
      }
      var receiver := working[tx.to];
      ghost var debited := accounts[tx.from := Account(sender.balance - tx.amount, WrapAdd(sender.nonce, 1))];
      working := working[tx.to := receiver.(balance := WrapAdd(receiver.balance, tx.amount))];
      assert working == debited[tx.to := receiver.(balance := WrapAdd(receiver.balance, tx.amount))];
      return Some(working);
    }

    method ApplyTransactions(txs: seq<Transaction>) returns (r: Option<map<Address, Account>>)
      ensures r == ApplyAll(state, txs)
    {
      var accounts := state;
      for i := 0 to |txs|
        invariant ApplyAll(state, txs[..i]) == Some(accounts)
      {
        assert txs[..i + 1][..i] == txs[..i];
        var next := ApplyTransaction(accounts, txs[i]);
        if next.None? {
          FailurePropagates(state, txs, i + 1);
          return None;
        }
        accounts := next.value;
      }
      assert txs[..|txs|] == txs;
      return Some(accounts);
    }

    method CreateBlock(validator: string, now: u64) returns (r: Option<Block>)
      modifies this
      ensures (State(), r) == LegacyChain.CreateBlock(hashes, old(State()), validator, now)
    {
      if chain == [] {
        return None;
      }
      var last := chain[|chain| - 1];
      var transactions := pendingTransactions;
      pendingTransactions := [];
      var newState := ApplyTransactions(transactions);
      if newState.None? {
        return None;
      }
      var block := Block(WrapAdd(last.index, 1), now, transactions, last.hash, "", 0, validator, hashes.state(newState.value));
      block := block.(hash := BlockHash(hashes, block));
      state := newState.value;
      ForgetIncluded(transactions);
      chain := chain + [block];
      return Some(block);
    }

    /** Remove the included transactions from the pool. */
    method ForgetIncluded(txs: seq<Transaction>)
      modifies this`transactionPool
      ensures transactionPool == Forget(hashes, old(transactionPool), txs)
    {
      for i := 0 to |txs|
        invariant transactionPool == Forget(hashes, old(transactionPool), txs[..i])
      {
        assert txs[..i + 1][..i] == txs[..i];
        transactionPool := transactionPool - {TxHash(hashes, txs[i])};
      }
      assert txs[..|txs|] == txs;
    }

    method ValidateTransaction(tx: Transaction) returns (ok: bool)
      ensures ok <==> ValidTransaction(state, tx)
    {
      if tx.amount == 0 || tx.gasFee != 0 || tx.from !in state {
        return false;
      }
      return state[tx.from].balance >= tx.amount;
    }

    method ValidateBlock(block: Block) returns (ok: bool)
      ensures ok <==> AcceptsBlock(hashes, State(), block)
    {
      if chain == [] {
        return false;
      }
      var last := chain[|chain| - 1];
      if block.index != WrapAdd(last.index, 1) || block.prevHash != last.hash || block.timestamp <= last.timestamp {
        return false;
      }
      if block.hash != BlockHash(hashes, block) {
        return false;
      }
      var accounts := ReplayBlock(block.txs);
      return accounts.Some? && block.stateRoot == hashes.state(accounts.value);
    }

    /** Validate each transaction against the prior accounts and apply it to a working copy. */
    method ReplayBlock(txs: seq<Transaction>) returns (r: Option<map<Address, Account>>)
      ensures r == if AllValid(state, txs) then ApplyAll(state, txs) else None
    {
      var accounts := state;
      for i := 0 to |txs|
        invariant ApplyAll(state, txs[..i]) == Some(accounts)
        invariant AllValid(state, txs[..i])
      {
        assert txs[..i + 1][..i] == txs[..i];
        var valid := ValidateTransaction(txs[i]);
        if !valid {
          assert !AllValid(state, txs);
          return None;
        }
        var next := ApplyTransaction(accounts, txs[i]);
        if next.None? {
          FailurePropagates(state, txs, i + 1);
          return None;
        }
        accounts := next.value;
      }
      assert txs[..|txs|] == txs;
      return Some(accounts);
    }

    method InitAccount(address: Address, balance: u64)
      modifies this`state
      ensures state == old(state)[address := Account(balance, 0)]
    {
      state := state[address := Account(balance, 0)];
    }
  }
}
