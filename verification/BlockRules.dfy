/** What an accepted block promises, what its hash binds, and what a block leaves in the mempool. */
module BlockRules {
  import opened Common
  import opened Ledger
  import opened Replication
  import opened NodeChain
  import opened Ordering

  // ---------------------------------------------------------------- the hash of a block

  /** Two different headers with one digest. */
  ghost predicate HeaderCollision(c: Crypto, g: BlockHeader, h: BlockHeader) {
    g != h && c.blockDigest(g) == c.blockDigest(h)
  }

  /**
    Two accepted blocks with one hash, beyond the genesis block: height, time, number of transactions, link,
    validator and state root agree, or their headers collide.
   */
  lemma HashBinds(c: Crypto, blocks: seq<Block>, blocks': seq<Block>, b: Block, b': Block)
    requires blocks != [] && blocks' != [] && b.index > 0 && b'.index > 0
    requires AcceptsBlock(c, blocks, b) && AcceptsBlock(c, blocks', b') && b.hash == b'.hash
    ensures (b.index == b'.index && b.timestamp == b'.timestamp && |b.txs| == |b'.txs| && b.prevHash == b'.prevHash
             && b.validator == b'.validator && b.stateRoot == b'.stateRoot && b.nonce == b'.nonce)
         || HeaderCollision(c, HeaderOf(b), HeaderOf(b'))
  {
  }

  /** Which transactions a block holds is not bound: any other signed, fee-free ones of the same number pass as well. */
  lemma TransactionsAreNotBound(c: Crypto, blocks: seq<Block>, b: Block, txs: seq<Transaction>)
    requires blocks != [] && AcceptsBlock(c, blocks, b) && |txs| == |b.txs| && AllSigned(c, txs) && AllFree(txs)
    ensures AcceptsBlock(c, blocks, b.(txs := txs))
  {
    assert HeaderOf(b.(txs := txs)) == HeaderOf(b);
  }

  /** Beyond the genesis block, every hash is the digest of its block's header. */
  ghost predicate Sealed(c: Crypto, blocks: seq<Block>) {
    forall i :: 0 < i < |blocks| ==> blocks[i].hash == c.blockDigest(HeaderOf(blocks[i]))
  }

  /** An accepted block extends the chain: sealed, linked, later, and of signed, fee-free transactions only. */
  lemma AcceptedExtends(c: Crypto, blocks: seq<Block>, b: Block)
    requires ChainOk(blocks) && Sealed(c, blocks) && AcceptsBlock(c, blocks, b)
    ensures ChainOk(blocks + [b]) && Sealed(c, blocks + [b])
    ensures b.timestamp > blocks[|blocks| - 1].timestamp && AllSigned(c, b.txs) && AllFree(b.txs)
  {
    ChainExtends(blocks, b);
  }

  /** On a linked chain the later checks of height and linkage add nothing: what validation passes is accepted. */
  lemma ValidIsAccepted(c: Crypto, blocks: seq<Block>, b: Block)
    requires ChainOk(blocks)
    ensures ValidBlock(c, blocks, b) <==> AcceptsBlock(c, blocks, b)
  {
    IndexIsHeight(blocks, |blocks| - 1);
  }

  lemma FrontIsOk(c: Crypto, blocks: seq<Block>)
    requires ChainOk(blocks) && Sealed(c, blocks) && |blocks| > 1
    ensures ChainOk(blocks[..|blocks| - 1]) && Sealed(c, blocks[..|blocks| - 1])
    ensures blocks[|blocks| - 1].prevHash == blocks[|blocks| - 2].hash
    ensures blocks[|blocks| - 1].hash == c.blockDigest(HeaderOf(blocks[|blocks| - 1]))
  {
    var front := blocks[..|blocks| - 1];
    assert forall i :: 0 <= i < |front| ==> front[i] == blocks[i];
  }

  ghost predicate SameHeaders(p: seq<Block>, q: seq<Block>) {
    |p| == |q| && forall i :: 0 < i < |p| ==> HeaderOf(p[i]) == HeaderOf(q[i])
  }

  /** The last hash binds the whole chain: another chain as long with the same last hash has the same headers, or two headers collide. */
  lemma {:induction false} LastHashBinds(c: Crypto, p: seq<Block>, q: seq<Block>) returns (i: nat)
    requires ChainOk(p) && Sealed(c, p) && ChainOk(q) && Sealed(c, q)
    requires |p| == |q| && p[|p| - 1].hash == q[|q| - 1].hash
    ensures (SameHeaders(p, q) && p[0].hash == q[0].hash) || (i < |p| && HeaderCollision(c, HeaderOf(p[i]), HeaderOf(q[i])))
    decreases |p|
  {
    i := |p| - 1;
    if i > 0 && HeaderOf(p[i]) == HeaderOf(q[i]) {
      FrontIsOk(c, p);
      FrontIsOk(c, q);
      i := LastHashBinds(c, p[..|p| - 1], q[..|q| - 1]);
    } else if i > 0 {
      FrontIsOk(c, p);
      FrontIsOk(c, q);
    }
  }

  /** A block that was changed after it was sealed is refused, or the change collides: whatever part of the header it is. */
  lemma ChangedBlockIsRefused(c: Crypto, blocks: seq<Block>, b: Block, b': Block)
    requires blocks != [] && b.hash == c.blockDigest(HeaderOf(b)) && b'.hash == b.hash && b'.index > 0
    requires HeaderOf(b') != HeaderOf(b)
    ensures !AcceptsBlock(c, blocks, b') || HeaderCollision(c, HeaderOf(b), HeaderOf(b'))
  {
  }

  /** What a new block is: one above the last, linked to it, at the given time, by the given validator, with its own hash. */
  lemma SealedBlock(c: Crypto, last: Block, txs: seq<Transaction>, validator: string, timestamp: u64, stateRoot: string)
    ensures var b := NextBlock(c, last, txs, validator, timestamp, stateRoot);
            && b.index == last.index + 1 && b.prevHash == last.hash && b.txs == txs && b.timestamp == timestamp
            && b.validator == validator && b.stateRoot == stateRoot && b.nonce == 0 && b.hash == c.blockDigest(HeaderOf(b))
  {
    var b := NextBlock(c, last, txs, validator, timestamp, stateRoot);
    assert HeaderOf(b) == HeaderOf(b.(hash := ""));
  }

  // ---------------------------------------------------------------- what else is bound by a digest

  /** One signature under one key for two messages: whoever gets both accepted shows such a pair. */
  lemma SignatureBinds(c: Crypto, t: Transaction, u: Transaction)
    requires SignatureOk(c, t) && SignatureOk(c, u) && t.signature == u.signature && t.publicKey == u.publicKey
    ensures var m := SignedMessage(t.from, t.to, t.amount, t.nonce, t.timestamp);
            var n := SignedMessage(u.from, u.to, u.amount, u.nonce, u.timestamp);
            m == n || (m != n && c.ed25519(t.publicKey.value, t.signature.value, m) && c.ed25519(t.publicKey.value, t.signature.value, n))
  {
  }

  /** Without a signature and a public key nothing is signed. */
  lemma UnsignedIsRefused(c: Crypto, s: ShardState, t: Transaction)
    requires t.signature in {None, Some("")} || t.publicKey in {None, Some("")}
    ensures !SignatureOk(c, t) && !Accepts(c, s, t)
  {
  }

  /** An idempotency key binds amount, nonce and the two addresses written one after the other, or its digest collides. */
  lemma KeyBinds(c: Crypto, t: Transaction, u: Transaction)
    requires IdempotencyKey(c, t) == IdempotencyKey(c, u)
    ensures (t.amount == u.amount && t.nonce == u.nonce && t.from + t.to == u.from + u.to)
         || ((t.from + t.to, t.amount, t.nonce) != (u.from + u.to, u.amount, u.nonce)
             && c.idempotency(t.from + t.to, t.amount, t.nonce) == c.idempotency(u.from + u.to, u.amount, u.nonce))
  {
  }

  // ---------------------------------------------------------------- what a node makes of its blocks

  /** Producing appends one block, of what was processed and then committed, and leaves the mempool to its drain. */
  lemma ProducedBlockCarries(c: Crypto, N: NodeState, txs: seq<Transaction>, order: seq<nat>,
                             validator: string, timestamp: u64, stateRoot: string)
    requires NodeOk(c, N) && IsGroupOrder(c, txs, N.ledger.config.shardCount, order)
    ensures var N' := CreateBlock(c, N, txs, order, validator, timestamp, stateRoot);
            var p := Execute(c, N.ledger, txs, order);
            && |N'.blocks| == |N.blocks| + 1 && N'.blocks[..|N.blocks|] == N.blocks && N'.pending == N.pending
            && var b := N'.blocks[|N.blocks|];
               && b.txs == p.processed + p.drained.committed && b.timestamp == timestamp && b.validator == validator
               && b.stateRoot == stateRoot && b.index == |N.blocks| && N'.ledger == p.ledger
  {
    IndexIsHeight(N.blocks, |N.blocks| - 1);
  }

  /** Applying appends the block as it is and takes from the mempool what the block has, every copy of it and nothing else. */
  lemma AppliedBlockClears(c: Crypto, N: NodeState, b: Block, order: seq<nat>, tx: Transaction)
    requires NodeOk(c, N) && AcceptsBlock(c, N.blocks, b) && IsGroupOrder(c, b.txs, N.ledger.config.shardCount, order)
    ensures var N' := ApplyBlock(c, N, b, order);
            && N'.blocks == N.blocks + [b]
            && multiset(N'.pending)[tx] == (if Included(tx, b.txs) then 0 else multiset(N.pending)[tx])
            && N'.ledger == if b.txs == [] then N.ledger else Execute(c, N.ledger, b.txs, order).ledger
  {
    LeftOverExactly(N.pending, b.txs, tx);
  }

  // ---------------------------------------------------------------- the mempool

  /** The order of a drained mempool: by time, then by sender, then by nonce. */
  predicate MayPrecede(a: Transaction, b: Transaction) {
    && a.timestamp <= b.timestamp
    && (a.timestamp == b.timestamp && a.from != b.from ==> StringLe(a.from, b.from))
    && (a.timestamp == b.timestamp && a.from == b.from ==> a.nonce <= b.nonce)
  }

  /** Draining loses nothing and puts every transaction behind those that are older or come earlier in a tie. */
  lemma DrainIsOrdered(pending: seq<Transaction>, i: nat, j: nat)
    requires i < j < |pending|
    ensures multiset(DrainOrder(pending)) == multiset(pending) && |DrainOrder(pending)| == |pending|
    ensures MayPrecede(DrainOrder(pending)[i], DrainOrder(pending)[j])
  {
    EarlierIsAnOrder();
    SortSorts(Earlier, pending);
    assert |multiset(DrainOrder(pending))| == |multiset(pending)|;
    assert Earlier(DrainOrder(pending)[i], DrainOrder(pending)[j]);
  }

  /** How often a pending transaction is left over: as often as it waits, or not at all if the block has its key. */
  lemma {:induction false} LeftOverExactly(pending: seq<Transaction>, block: seq<Transaction>, tx: Transaction)
    ensures multiset(LeftOver(pending, block))[tx] == if Included(tx, block) then 0 else multiset(pending)[tx]
  {
    if pending != [] {
      var n := |pending| - 1;
      assert pending == pending[..n] + [pending[n]];
      LeftOverExactly(pending[..n], block, tx);
    }
  }

  /** And in order: what is left of one list after another is what is left of each. */
  lemma {:induction false} LeftOverConcat(p: seq<Transaction>, q: seq<Transaction>, block: seq<Transaction>)
    ensures LeftOver(p + q, block) == LeftOver(p, block) + LeftOver(q, block)
    decreases |q|
  {
    if q == [] {
      assert p + q == p;
    } else {
      assert (p + q)[..|p + q| - 1] == p + q[..|q| - 1];
      LeftOverConcat(p, q[..|q| - 1], block);
    }
  }

  lemma {:induction false} DecimalTells(m: nat, n: nat)
    requires Decimal(m) == Decimal(n)
    ensures m == n
  {
    assert Decimal(m)[|Decimal(m)| - 1] == '0' + (m % 10) as char;
    assert Decimal(n)[|Decimal(n)| - 1] == '0' + (n % 10) as char;
    if m >= 10 && n >= 10 {
      assert Decimal(m / 10) == Decimal(m)[..|Decimal(m)| - 1] == Decimal(n)[..|Decimal(n)| - 1] == Decimal(n / 10);
      DecimalTells(m / 10, n / 10);
    } else {
      DecimalLength(m);
      DecimalLength(n);
    }
  }

  lemma DecimalLength(n: nat)
    ensures |Decimal(n)| > 0 && (n >= 10 ==> |Decimal(n)| > 1)
  {
  }

  /** The first colon stands where the first part ends. */
  lemma ColonAfter(a: string, x: string)
    requires ':' !in a
    ensures (a + ":" + x)[|a|] == ':' && forall k :: 0 <= k < |a| ==> (a + ":" + x)[k] != ':'
  {
    forall k | 0 <= k < |a| ensures (a + ":" + x)[k] != ':' {
      assert a[k] in a;
    }
  }

  lemma SplitAtColon(a: string, b: string, x: string, y: string)
    requires a + ":" + x == b + ":" + y && ':' !in a && ':' !in b
    ensures a == b && x == y
  {
    ColonAfter(a, x);
    ColonAfter(b, y);
    assert |a| == |b|;
    assert a == (a + ":" + x)[..|a|] && b == (b + ":" + y)[..|b|];
    assert x == (a + ":" + x)[|a| + 1..] && y == (b + ":" + y)[|b| + 1..];
  }

  /** Between addresses without colons, the mempool key tells sender, receiver and nonce. */
  lemma MempoolKeyTells(t: Transaction, u: Transaction)
    requires ':' !in t.from && ':' !in t.to && ':' !in u.from && ':' !in u.to
    ensures MempoolKey(t) == MempoolKey(u) <==> t.from == u.from && t.to == u.to && t.nonce == u.nonce
  {
    if MempoolKey(t) == MempoolKey(u) {
      assert MempoolKey(t) == t.from + ":" + (t.to + ":" + Decimal(t.nonce));
      assert MempoolKey(u) == u.from + ":" + (u.to + ":" + Decimal(u.nonce));
      SplitAtColon(t.from, u.from, t.to + ":" + Decimal(t.nonce), u.to + ":" + Decimal(u.nonce));
      SplitAtColon(t.to, u.to, Decimal(t.nonce), Decimal(u.nonce));
      DecimalTells(t.nonce, u.nonce);
    }
  }

  ghost predicate PlainAddresses(txs: seq<Transaction>) {
    forall i :: 0 <= i < |txs| ==> ':' !in txs[i].from && ':' !in txs[i].to
  }

  /** So a block takes along exactly the pending transactions that share sender, receiver and nonce with one of its own. */
  lemma IncludedExactly(tx: Transaction, block: seq<Transaction>)
    requires PlainAddresses([tx]) && PlainAddresses(block)
    ensures Included(tx, block) <==>
            exists i :: 0 <= i < |block| && block[i].from == tx.from && block[i].to == tx.to && block[i].nonce == tx.nonce
  {
    assert [tx][0] == tx;
    forall i | 0 <= i < |block|
      ensures MempoolKey(block[i]) == MempoolKey(tx) <==>
              block[i].from == tx.from && block[i].to == tx.to && block[i].nonce == tx.nonce
    {
      MempoolKeyTells(block[i], tx);
    }
  }
}
