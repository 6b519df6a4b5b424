/** The tree over a shard's state: data hashed into leaves, levels rebuilt in a loop, an odd node hashed alone. */
module MerkleTree {
  import opened Bytes
  import opened MerkleLevels

  /** The state tree: single SHA-256, an odd node hashed alone. */
  function StateTree(h: Sha256): Shape {
    Shape(h, false, false)
  }

  function Leaves(h: Sha256, data: seq<seq<byte>>): (leaves: seq<Digest>)
    ensures |leaves| == |data|
  {
    seq(|data|, i requires 0 <= i < |data| => h(data[i]))
  }

  /** The root by recursion from the top; nothing at all has the zero root. */
  function StateRoot(h: Sha256, data: seq<seq<byte>>): Digest {
    if data == [] then ZERO_DIGEST else Subtree(StateTree(h), Leaves(h, data), Height(|data|))
  }

  /** The smallest states, written out: every entry and every pair is hashed once, a third leaf once more on its own. */
  lemma SmallStates(h: Sha256, x: seq<byte>, y: seq<byte>, z: seq<byte>)
    ensures StateRoot(h, []) == seq(32, _ => 0) && StateRoot(h, [x]) == h(x)
    ensures StateRoot(h, [x, y]) == h(Join(h(x), h(y)))
    ensures StateRoot(h, [x, y, z]) == h(Join(h(Join(h(x), h(y))), h(h(z))))
  {
    var t := StateTree(h);
    assert Leaves(h, [x]) == [h(x)] && Leaves(h, [x, y]) == [h(x), h(y)] && Leaves(h, [x, y, z]) == [h(x), h(y), h(z)];
    RootIsSubtree(t, Leaves(h, [x, y]));
    RootIsSubtree(t, Leaves(h, [x, y, z]));
    TwoLeaves(t, h(x), h(y));
    ThreeLeaves(t, h(x), h(y), h(z));
  }

  /** Rebuild the level above in chunks of two. */
  method BuildLevel(h: Sha256, level: seq<Digest>) returns (next: seq<Digest>)
    ensures next == NextLevel(StateTree(h), level)
  {
    next := [];
    var i := 0;
    while i < |level|
      invariant i % 2 == 0 && |next| == i / 2 && i <= |level| + 1
      invariant forall k :: 0 <= k < |next| ==> next[k] == NextLevel(StateTree(h), level)[k]
    {
      if i + 1 < |level| {
        next := next + [h(Join(level[i], level[i + 1]))];
      } else {
        next := next + [h(level[i])];
      }
      i := i + 2;
    }
  }

  /** The level loop terminates with the recursively defined root. */
  method New(h: Sha256, data: seq<seq<byte>>) returns (root: Digest, leaves: seq<Digest>)
    ensures root == StateRoot(h, data) && leaves == Leaves(h, data)
  {
    if data == [] {
      return ZERO_DIGEST, [];
    }
    leaves := Leaves(h, data);
    var level := leaves;
    while |level| > 1
      invariant level != [] && Root(StateTree(h), level) == Root(StateTree(h), leaves)
      decreases |level|
    {
      level := BuildLevel(h, level);
    }
    root := level[0];
    RootIsSubtree(StateTree(h), leaves);
  }

  /** Equal roots over equally many entries: the entries are equal, or here is a collision. */
  lemma StateRootBinds(h: Sha256, a: seq<seq<byte>>, b: seq<seq<byte>>) returns (c: (seq<byte>, seq<byte>))
    requires |a| == |b| && StateRoot(h, a) == StateRoot(h, b)
    ensures a == b || IsCollision(h, c)
  {
    c := NO_COLLISION;
    if a != b {
      RootIsSubtree(StateTree(h), Leaves(h, a));
      RootIsSubtree(StateTree(h), Leaves(h, b));
      c := RootBinds(StateTree(h), Leaves(h, a), Leaves(h, b));
      if Leaves(h, a) == Leaves(h, b) {
        var i :| 0 <= i < |a| && a[i] != b[i];
        assert Leaves(h, a)[i] == Leaves(h, b)[i];
        c := (a[i], b[i]);
      }
    }
  }
}
