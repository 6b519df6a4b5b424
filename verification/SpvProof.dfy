/**
  Simplified payment verification (section 8 of the Bitcoin whitepaper): parsing a proof from bytes,
  folding its Merkle path with double SHA-256, and comparing with the root in the block header.
 */
module SpvProof {
  import opened Common
  import opened Bytes
  import opened MerkleLevels

  type Header = b: seq<byte> | |b| == 80 witness seq(80, _ => 0)

  datatype Proof = Proof(txHash: Digest, branch: seq<Digest>, txIndex: u32, header: Header)

  // ---------------------------------------------------------------- bytes

  /** Can the branch be counted in 32 bits? */
  predicate Encodable(p: Proof) {
    |p.branch| < 0x1_0000_0000
  }

  /** tx_hash, branch count, branch, index, header. */
  function Encode(p: Proof): (b: seq<byte>)
    requires Encodable(p)
    ensures |b| == 120 + 32 * |p.branch|
  {
    p.txHash + ToLe32(|p.branch|) + Concat(p.branch) + ToLe32(p.txIndex) + p.header
  }

  function BranchCount(data: seq<byte>): u32
    requires |data| >= 36
  {
    FromLe32(data[32..36])
  }

  predicate IsPrefix(p: seq<byte>, data: seq<byte>) {
    p <= data
  }

  lemma EncodingFields(p: Proof, data: seq<byte>)
    requires Encodable(p) && IsPrefix(Encode(p), data)
    ensures |data| >= 120 + 32 * |p.branch| && BranchCount(data) == |p.branch|
    ensures var end := 36 + 32 * |p.branch|;
            && data[..32] == p.txHash && data[36..end] == Concat(p.branch)
            && data[end..end + 4] == ToLe32(p.txIndex) && data[end + 4..end + 84] == p.header
  {
    var end := 36 + 32 * |p.branch|;
    LeRoundTrip(|p.branch|);
    assert Encode(p)[end + 4..end + 84] == p.header;
    assert data[..32] == Encode(p)[..32] && data[32..36] == Encode(p)[32..36] && data[36..end] == Encode(p)[36..end];
    assert data[end..end + 4] == Encode(p)[end..end + 4] && data[end + 4..end + 84] == Encode(p)[end + 4..end + 84];
  }

  /** A byte string starts with the encoding of at most one proof. */
  lemma EncodingIsPrefixFree(p: Proof, q: Proof, data: seq<byte>)
    requires Encodable(p) && Encodable(q) && IsPrefix(Encode(p), data) && IsPrefix(Encode(q), data)
    ensures p == q
  {
    EncodingFields(p, data);
    EncodingFields(q, data);
    ConcatIsInjective(p.branch, q.branch);
    LeRoundTrip(p.txIndex);
    LeRoundTrip(q.txIndex);
  }

  /**
    Nothing is returned exactly when the data is shorter than its own branch count demands; otherwise
    the data starts with the encoding of the result, and with the encoding of nothing else.
   */
  method Parse(data: seq<byte>) returns (r: Option<Proof>)
    ensures r.None? <==> |data| < 120 || |data| < 120 + 32 * BranchCount(data)
    ensures r.Some? ==> Encodable(r.value) && IsPrefix(Encode(r.value), data)
    ensures forall p :: Encodable(p) && IsPrefix(Encode(p), data) ==> r == Some(p)
  {
    if |data| < 120 {
      return None;
    }
    var count: nat := FromLe32(data[32..36]);
    if |data| < 36 + count * 32 + 4 + 80 {
      forall p | Encodable(p) && IsPrefix(Encode(p), data) ensures false {
        EncodingFields(p, data);
      }
      return None;
    }
    var branch: seq<Digest> := [];
    for i := 0 to count
      invariant |branch| == i && Concat(branch) == data[36..36 + 32 * i]
    {
      var start := 36 + i * 32;
      var hash := data[start..start + 32];
      ghost var before := branch;
      branch := branch + [hash];
      assert branch[..i] == before;
      assert data[36..start] + hash == data[36..start + 32];
    }
    var start := 36 + count * 32;
    var index := FromLe32(data[start..start + 4]);
    var header := data[start + 4..start + 84];
    var p := Proof(data[..32], branch, index, header);
    LeRoundTripBack(data[32..36]);
    LeRoundTripBack(data[start..start + 4]);
    assert Encode(p) == data[..start + 84];
    forall q | Encodable(q) && IsPrefix(Encode(q), data) ensures q == p {
      EncodingIsPrefixFree(p, q, data);
    }
    return Some(p);
  }

  /** Parsing an encoded proof followed by anything gives the proof back. */
  method RoundTrip(p: Proof, tail: seq<byte>) returns (r: Option<Proof>)
    requires Encodable(p)
    ensures r == Some(p)
  {
    assert IsPrefix(Encode(p), Encode(p) + tail);
    r := Parse(Encode(p) + tail);
  }

  // ---------------------------------------------------------------- the Merkle path

  /** Bitcoin's tree: double SHA-256, an odd node paired with itself. */
  function BitcoinTree(h: Sha256): Shape {
    Shape(h, true, true)
  }

  /** The smallest blocks, written out: one transaction is its own root, two are hashed twice together, a third is paired with itself. */
  lemma SmallBlocks(h: Sha256, a: Digest, b: Digest, c: Digest)
    ensures Root(BitcoinTree(h), [a]) == a
    ensures Root(BitcoinTree(h), [a, b]) == h(h(Join(a, b)))
    ensures Root(BitcoinTree(h), [a, b, c]) == h(h(Join(h(h(Join(a, b))), h(h(Join(c, c))))))
  {
    TwoLeaves(BitcoinTree(h), a, b);
    ThreeLeaves(BitcoinTree(h), a, b, c);
  }

  /** The bits of the index say, from the lowest, on which side the sibling stands. */
  lemma SmallPaths(h: Sha256, x: Digest, s: Digest, u: Digest)
    ensures Fold(BitcoinTree(h), x, [s], 0) == h(h(Join(x, s))) && Fold(BitcoinTree(h), x, [s], 1) == h(h(Join(s, x)))
    ensures Fold(BitcoinTree(h), x, [s, u], 2) == h(h(Join(u, h(h(Join(x, s))))))
  {
    FoldUnfolds(BitcoinTree(h), x, s, [], 0);
    FoldUnfolds(BitcoinTree(h), x, s, [], 1);
    FoldUnfolds(BitcoinTree(h), x, s, [u], 2);
    FoldUnfolds(BitcoinTree(h), h(h(Join(x, s))), u, [], 1);
  }

  method ComputeMerkleRoot(h: Sha256, p: Proof) returns (root: Digest)
    ensures root == Fold(BitcoinTree(h), p.txHash, p.branch, p.txIndex)
  {
    root := p.txHash;
    var index := p.txIndex;
    for i := 0 to |p.branch|
      invariant Fold(BitcoinTree(h), root, p.branch[i..], index) == Fold(BitcoinTree(h), p.txHash, p.branch, p.txIndex)
    {
      var sibling := p.branch[i];
      var first := if index % 2 == 0 then h(Join(root, sibling)) else h(Join(sibling, root));
      assert p.branch[i..][1..] == p.branch[i + 1..];
      root := h(first);
      index := index / 2;
    }
  }

  function HeaderMerkleRoot(p: Proof): Digest {
    p.header[36..68]
  }

  ghost predicate Verifies(h: Sha256, p: Proof) {
    Fold(BitcoinTree(h), p.txHash, p.branch, p.txIndex) == HeaderMerkleRoot(p)
  }

  method Verify(h: Sha256, p: Proof) returns (ok: bool)
    ensures ok <==> Verifies(h, p)
  {
    var root := ComputeMerkleRoot(h, p);
    ok := root == HeaderMerkleRoot(p);
  }

  /** Unpacking a double hash: a collision of the double hash is one of the hash itself. */
  lemma DoubleCollision(h: Sha256, c: (seq<byte>, seq<byte>)) returns (d: (seq<byte>, seq<byte>))
    requires TreeCollision(BitcoinTree(h), c)
    ensures IsCollision(h, d)
  {
    if h(c.0) == h(c.1) {
      d := c;
    } else {
      d := (h(c.0), h(c.1));
    }
  }

  /** The node a proof names: at its index, as many levels above the transactions as its branch is short of the tree's height. */
  function Named(h: Sha256, txs: seq<Digest>, p: Proof): Digest
    requires txs != [] && |p.branch| <= Height(|txs|)
  {
    NodeAt(BitcoinTree(h), txs, Height(|txs|) - |p.branch|, p.txIndex)
  }

  /** Its sibling path. */
  function NamedPath(h: Sha256, txs: seq<Digest>, p: Proof): seq<Digest>
    requires txs != [] && |p.branch| <= Height(|txs|)
  {
    PathAt(BitcoinTree(h), txs, Height(|txs|) - |p.branch|, p.txIndex)
  }

  /** A proof names a transaction exactly as its index says when its branch is as long as the tree is high. */
  lemma FullProofNamesTransaction(h: Sha256, txs: seq<Digest>, p: Proof)
    requires txs != [] && |p.branch| == Height(|txs|)
    ensures Named(h, txs, p) == txs[Origin(|txs|, p.txIndex)]
    ensures Named(h, txs, p) in txs
    ensures p.txIndex < |txs| ==> Named(h, txs, p) == txs[p.txIndex]
  {
    assert LevelAt(BitcoinTree(h), txs, 0) == txs;
  }

  /** The proof of the node at an index of the j-th level above the transactions. */
  function HonestProof(h: Sha256, txs: seq<Digest>, j: nat, index: u32, header: Header): (p: Proof)
    requires txs != [] && j <= Height(|txs|)
    ensures |p.branch| == Height(|txs|) - j && p.txHash == Named(h, txs, p) && p.branch == NamedPath(h, txs, p)
  {
    Proof(NodeAt(BitcoinTree(h), txs, j, index), PathAt(BitcoinTree(h), txs, j, index), index, header)
  }

  /** Every transaction, at every position that stands for it, and every inner node has a proof that verifies. */
  lemma HonestProofVerifies(h: Sha256, txs: seq<Digest>, j: nat, index: u32, header: Header)
    requires txs != [] && j <= Height(|txs|)
    ensures Verifies(h, HonestProof(h, txs, j, index, header)) <==> header[36..68] == Root(BitcoinTree(h), txs)
  {
    NodeFoldsToRoot(BitcoinTree(h), txs, j, index);
  }

  /** Two proofs for one header, index and branch length carry one transaction and branch, or here is a collision. */
  lemma ProofsBind(h: Sha256, p: Proof, q: Proof) returns (c: (seq<byte>, seq<byte>))
    requires Verifies(h, p) && Verifies(h, q) && HeaderMerkleRoot(p) == HeaderMerkleRoot(q)
    requires p.txIndex == q.txIndex && |p.branch| == |q.branch|
    ensures (p.txHash == q.txHash && p.branch == q.branch) || IsCollision(h, c)
  {
    c := FoldBinds(BitcoinTree(h), p.txHash, p.branch, q.txHash, q.branch, p.txIndex);
    if TreeCollision(BitcoinTree(h), c) {
      c := DoubleCollision(h, c);
    }
  }

  /**
    Soundness. A proof that verifies against the header of a block, whatever its index, is the node it
    names with that node's sibling path, or here is a collision of SHA-256. With a branch as long as the
    tree is high the node is a transaction of the block; with a shorter one it is an inner node.
   */
  lemma VerifiedProofIsGenuine(h: Sha256, txs: seq<Digest>, p: Proof) returns (c: (seq<byte>, seq<byte>))
    requires txs != [] && Verifies(h, p) && HeaderMerkleRoot(p) == Root(BitcoinTree(h), txs) && |p.branch| <= Height(|txs|)
    ensures (p.txHash == Named(h, txs, p) && p.branch == NamedPath(h, txs, p)) || IsCollision(h, c)
    ensures |p.branch| == Height(|txs|) ==> Named(h, txs, p) in txs
  {
    c := PathNamesNode(BitcoinTree(h), txs, p.txHash, p.branch, p.txIndex);
    if TreeCollision(BitcoinTree(h), c) {
      c := DoubleCollision(h, c);
    }
    if |p.branch| == Height(|txs|) {
      FullProofNamesTransaction(h, txs, p);
    }
  }

  /** With a longer branch, what the surplus folds to is a transaction of the block, or here is a collision: the proof names something below a leaf. */
  lemma LongProofIsBelowLeaf(h: Sha256, txs: seq<Digest>, p: Proof) returns (c: (seq<byte>, seq<byte>))
    requires txs != [] && Verifies(h, p) && HeaderMerkleRoot(p) == Root(BitcoinTree(h), txs) && |p.branch| > Height(|txs|)
    ensures var surplus := |p.branch| - Height(|txs|);
            Fold(BitcoinTree(h), p.txHash, p.branch[..surplus], p.txIndex) == txs[Origin(|txs|, Above(p.txIndex, surplus))]
            || IsCollision(h, c)
  {
    var surplus := |p.branch| - Height(|txs|);
    FoldSplit(BitcoinTree(h), p.txHash, p.branch, p.txIndex, surplus);
    var q := p.(txHash := Fold(BitcoinTree(h), p.txHash, p.branch[..surplus], p.txIndex), branch := p.branch[surplus..]);
    c := PathNamesNode(BitcoinTree(h), txs, q.txHash, q.branch, Above(p.txIndex, surplus));
    assert LevelAt(BitcoinTree(h), txs, 0) == txs;
    if TreeCollision(BitcoinTree(h), c) {
      c := DoubleCollision(h, c);
    }
  }

  /** The topmost node of a tree is its root, with no siblings left. */
  lemma TopIsRoot(h: Sha256, txs: seq<Digest>, index: u32, header: Header)
    requires txs != []
    ensures HonestProof(h, txs, Height(|txs|), index, header) == Proof(Root(BitcoinTree(h), txs), [], index, header)
  {
    TopNode(BitcoinTree(h), txs, index);
  }

  /**
    For every hash, every block and its header, and every index: the root itself with no branch at all is a
    proof that verifies, because nobody compares the branch with the height of the tree.
   */
  lemma RootNeedsNoBranch(h: Sha256, txs: seq<Digest>, index: u32, header: Header)
    requires txs != []
    ensures Verifies(h, Proof(Root(BitcoinTree(h), txs), [], index, header)) <==> header[36..68] == Root(BitcoinTree(h), txs)
  {
    TopIsRoot(h, txs, index, header);
    HonestProofVerifies(h, txs, Height(|txs|), index, header);
  }

  // ---------------------------------------------------------------- the bridge's entry point

  const BITCOIN_CONFIRMATIONS: u64 := 3

  datatype Verification = Verified | Pending(confirmations: u64, required: u64) | Unparsable | Invalid

  /** The outcome, as a function of the data and the confirmations alone. */
  ghost function Judgement(h: Sha256, data: seq<byte>, confirmations: u64): Verification {
    if confirmations < BITCOIN_CONFIRMATIONS then Pending(confirmations, BITCOIN_CONFIRMATIONS)
    else if data == [] then Verified
    else if exists p :: Encodable(p) && IsPrefix(Encode(p), data) && Verifies(h, p) then Verified
    else if exists p :: Encodable(p) && IsPrefix(Encode(p), data) then Invalid
    else Unparsable
  }

  /**
    With enough confirmations, empty proof data is accepted as it is; anything else must parse and verify.
    Which transaction was asked for makes no difference: nothing compares it with the proof's.
   */
  method VerifySpvProof(h: Sha256, data: seq<byte>, txHash: string, confirmations: u64) returns (r: Verification)
    ensures r.Pending? <==> confirmations < BITCOIN_CONFIRMATIONS
    ensures r.Pending? ==> r == Pending(confirmations, BITCOIN_CONFIRMATIONS)
    ensures r.Verified? <==>
              && confirmations >= BITCOIN_CONFIRMATIONS
              && (data == [] || exists p :: Encodable(p) && IsPrefix(Encode(p), data) && Verifies(h, p))
    ensures r == Judgement(h, data, confirmations)
    ensures r.Unparsable? <==>
              confirmations >= BITCOIN_CONFIRMATIONS && data != [] && !exists p :: Encodable(p) && IsPrefix(Encode(p), data)
  {
    if confirmations < BITCOIN_CONFIRMATIONS {
      return Pending(confirmations, BITCOIN_CONFIRMATIONS);
    }
    if data == [] {
      return Verified;
    }
    var proof := Parse(data);
    if proof.None? {
      return Unparsable;
    }
    var ok := Verify(h, proof.value);
    return if ok then Verified else Invalid;
  }

  /** Asking for one transaction or for another, the same data gets the same answer. */
  method RequestIsIgnored(h: Sha256, data: seq<byte>, one: string, other: string, confirmations: u64)
    returns (first: Verification, second: Verification)
    ensures first == second
  {
    first := VerifySpvProof(h, data, one, confirmations);
    second := VerifySpvProof(h, data, other, confirmations);
  }
}
