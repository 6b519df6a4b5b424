/**
  Merkle trees built level by level, with single or double hashing and either treatment of an odd node:
  the same tree read top-down, the sibling path of a leaf, and what the root binds.
 */
module MerkleLevels {
  import opened Bytes

  /** Is a node hashed twice, and is a last node without a right neighbour paired with itself or hashed alone? */
  datatype Shape = Shape(hash: Sha256, twice: bool, selfPaired: bool)

  function NodeHash(t: Shape, b: seq<byte>): Digest {
    if t.twice then t.hash(t.hash(b)) else t.hash(b)
  }

  function PairNode(t: Shape, x: Digest, y: Digest): Digest {
    NodeHash(t, Join(x, y))
  }

  function OddInput(t: Shape, x: Digest): seq<byte> {
    if t.selfPaired then Join(x, x) else x
  }

  function OddNode(t: Shape, x: Digest): Digest {
    NodeHash(t, OddInput(t, x))
  }

  function Node(t: Shape, level: seq<Digest>, k: nat): Digest
    requires 2 * k < |level|
  {
    if 2 * k + 1 < |level| then PairNode(t, level[2 * k], level[2 * k + 1]) else OddNode(t, level[2 * k])
  }

  function NextLevel(t: Shape, level: seq<Digest>): (next: seq<Digest>)
    ensures |next| == (|level| + 1) / 2
  {
    seq((|level| + 1) / 2, k requires 0 <= k < (|level| + 1) / 2 => Node(t, level, k))
  }

  /** Bottom-up: level after level until one node is left. */
  function Root(t: Shape, level: seq<Digest>): Digest
    requires level != []
    decreases |level|
  {
    if |level| == 1 then level[0] else Root(t, NextLevel(t, level))
  }

  lemma TwoLeaves(t: Shape, a: Digest, b: Digest)
    ensures Root(t, [a]) == a && Root(t, [a, b]) == PairNode(t, a, b)
  {
    assert NextLevel(t, [a, b]) == [PairNode(t, a, b)];
  }

  lemma ThreeLeaves(t: Shape, a: Digest, b: Digest, c: Digest)
    ensures Root(t, [a, b, c]) == PairNode(t, PairNode(t, a, b), OddNode(t, c))
  {
    assert NextLevel(t, [a, b, c]) == [PairNode(t, a, b), OddNode(t, c)];
    TwoLeaves(t, PairNode(t, a, b), OddNode(t, c));
  }

  // ---------------------------------------------------------------- the same tree, top-down

  function Pow2(n: nat): (p: nat)
    ensures p > 0
  {
    if n == 0 then 1 else 2 * Pow2(n - 1)
  }

  /** The root of a subtree of the given height: full on the left, the rest on the right. */
  function Subtree(t: Shape, leaves: seq<Digest>, height: nat): Digest
    requires 1 <= |leaves| <= Pow2(height)
  {
    if height == 0 then leaves[0] else
      var half := Pow2(height - 1);
      if |leaves| <= half then OddNode(t, Subtree(t, leaves, height - 1))
      else PairNode(t, Subtree(t, leaves[..half], height - 1), Subtree(t, leaves[half..], height - 1))
  }

  /** The least height whose subtrees can hold this many leaves. */
  function Height(n: nat): (height: nat)
    requires n > 0
    ensures n <= Pow2(height)
    ensures height > 0 ==> Pow2(height - 1) < n
  {
    if n == 1 then 0 else Height((n + 1) / 2) + 1
  }

  lemma LevelOfParts(t: Shape, left: seq<Digest>, right: seq<Digest>)
    requires |left| % 2 == 0
    ensures NextLevel(t, left + right) == NextLevel(t, left) + NextLevel(t, right)
  {
  }

  lemma SubtreeOfParts(t: Shape, left: seq<Digest>, right: seq<Digest>, height: nat)
    requires height > 0 && |left| == Pow2(height - 1) && 1 <= |right| <= Pow2(height - 1)
    ensures Subtree(t, left + right, height) == PairNode(t, Subtree(t, left, height - 1), Subtree(t, right, height - 1))
  {
  }

  lemma SubtreeOfFew(t: Shape, leaves: seq<Digest>, height: nat)
    requires height > 0 && 1 <= |leaves| <= Pow2(height - 1)
    ensures |leaves| <= Pow2(height) && Subtree(t, leaves, height) == OddNode(t, Subtree(t, leaves, height - 1))
  {
  }

  /** Dropping the lowest level of a subtree does not change its root. */
  lemma {:induction false} SubtreeOfNextLevel(t: Shape, leaves: seq<Digest>, height: nat)
    requires 1 <= height && 1 <= |leaves| <= Pow2(height)
    ensures |NextLevel(t, leaves)| <= Pow2(height - 1)
    ensures Subtree(t, NextLevel(t, leaves), height - 1) == Subtree(t, leaves, height)
  {
    if height == 1 {
      assert Pow2(0) == 1;
    } else if |leaves| <= Pow2(height - 1) {
      SubtreeOfNextLevel(t, leaves, height - 1);
      SubtreeOfFew(t, leaves, height);
      SubtreeOfFew(t, NextLevel(t, leaves), height - 1);
    } else {
      SubtreeOfHalves(t, leaves[..Pow2(height - 1)], leaves[Pow2(height - 1)..], height);
      SubtreeOfNextLevel(t, leaves[..Pow2(height - 1)], height - 1);
      SubtreeOfNextLevel(t, leaves[Pow2(height - 1)..], height - 1);
      assert leaves == leaves[..Pow2(height - 1)] + leaves[Pow2(height - 1)..];
    }
  }

  lemma SubtreeOfHalves(t: Shape, left: seq<Digest>, right: seq<Digest>, height: nat)
    requires height > 1 && |left| == Pow2(height - 1) && 1 <= |right| <= Pow2(height - 1)
    ensures |NextLevel(t, left)| == Pow2(height - 2) && 1 <= |NextLevel(t, right)| <= Pow2(height - 2)
    ensures |NextLevel(t, left + right)| <= Pow2(height - 1)
    ensures Subtree(t, left + right, height) == PairNode(t, Subtree(t, left, height - 1), Subtree(t, right, height - 1))
    ensures Subtree(t, NextLevel(t, left + right), height - 1)
         == PairNode(t, Subtree(t, NextLevel(t, left), height - 2), Subtree(t, NextLevel(t, right), height - 2))
  {
    LevelOfParts(t, left, right);
    SubtreeOfParts(t, left, right, height);
    SubtreeOfParts(t, NextLevel(t, left), NextLevel(t, right), height - 1);
  }

  /** The level loop computes the recursive tree of least height. */
  lemma {:induction false} RootIsSubtree(t: Shape, leaves: seq<Digest>)
    requires leaves != []
    ensures Root(t, leaves) == Subtree(t, leaves, Height(|leaves|))
    decreases |leaves|
  {
    if |leaves| > 1 {
      RootIsSubtree(t, NextLevel(t, leaves));
      SubtreeOfNextLevel(t, leaves, Height(|leaves|));
    }
  }

  // ---------------------------------------------------------------- binding

  /** What is hashed into one node of the next level. */
  function NodeInput(t: Shape, level: seq<Digest>, k: nat): seq<byte>
    requires 2 * k < |level|
  {
    if 2 * k + 1 < |level| then Join(level[2 * k], level[2 * k + 1]) else OddInput(t, level[2 * k])
  }

  /** Two different byte strings with the same tree hash. */
  ghost predicate TreeCollision(t: Shape, c: (seq<byte>, seq<byte>)) {
    c.0 != c.1 && NodeHash(t, c.0) == NodeHash(t, c.1)
  }

  /** Levels of one length with the same next level are equal, or some node exhibits a collision. */
  lemma LevelBinds(t: Shape, a: seq<Digest>, b: seq<Digest>) returns (c: (seq<byte>, seq<byte>))
    requires |a| == |b| && NextLevel(t, a) == NextLevel(t, b)
    ensures a == b || TreeCollision(t, c)
  {
    c := NO_COLLISION;
    if k :| 0 <= k < (|a| + 1) / 2 && NodeInput(t, a, k) != NodeInput(t, b, k) {
      assert NextLevel(t, a)[k] == NextLevel(t, b)[k];
      c := (NodeInput(t, a, k), NodeInput(t, b, k));
    } else {
      forall i | 0 <= i < |a| ensures a[i] == b[i] {
        SameInputSameNodes(t, a, b, i / 2);
      }
    }
  }

  lemma SameInputSameNodes(t: Shape, a: seq<Digest>, b: seq<Digest>, k: nat)
    requires |a| == |b| && 2 * k < |a| && NodeInput(t, a, k) == NodeInput(t, b, k)
    ensures a[2 * k] == b[2 * k]
    ensures 2 * k + 1 < |a| ==> a[2 * k + 1] == b[2 * k + 1]
  {
  }

  /** Equal roots over equally many leaves: the leaves are equal, or here is a collision. */
  lemma {:induction false} RootBinds(t: Shape, a: seq<Digest>, b: seq<Digest>) returns (c: (seq<byte>, seq<byte>))
    requires |a| == |b| > 0 && Root(t, a) == Root(t, b)
    ensures a == b || TreeCollision(t, c)
    decreases |a|
  {
    c := NO_COLLISION;
    if |a| > 1 {
      c := RootBinds(t, NextLevel(t, a), NextLevel(t, b));
      if NextLevel(t, a) == NextLevel(t, b) {
        c := LevelBinds(t, a, b);
      }
    }
  }

  // ---------------------------------------------------------------- paths

  /** One step up a path: an even node is on the left, an odd one on the right. */
  function StepInput(current: Digest, sibling: Digest, index: nat): seq<byte> {
    if index % 2 == 0 then Join(current, sibling) else Join(sibling, current)
  }

  function Step(t: Shape, current: Digest, sibling: Digest, index: nat): Digest {
    NodeHash(t, StepInput(current, sibling, index))
  }

  function Fold(t: Shape, current: Digest, branch: seq<Digest>, index: nat): Digest
    decreases |branch|
  {
    if branch == [] then current else Fold(t, Step(t, current, branch[0], index), branch[1..], index / 2)
  }

  lemma StepInputBinds(x: Digest, a: Digest, y: Digest, b: Digest, index: nat)
    requires StepInput(x, a, index) == StepInput(y, b, index)
    ensures x == y && a == b
  {
    assert Join(x, a) == Join(y, b) || Join(a, x) == Join(b, y);
  }

  /** Same index, same length, same result: same start and same branch, or a collision. */
  lemma {:induction false} FoldBinds(t: Shape, x: Digest, xs: seq<Digest>, y: Digest, ys: seq<Digest>, index: nat)
    returns (c: (seq<byte>, seq<byte>))
    requires |xs| == |ys| && Fold(t, x, xs, index) == Fold(t, y, ys, index)
    ensures (x == y && xs == ys) || TreeCollision(t, c)
    decreases |xs|
  {
    c := NO_COLLISION;
    if xs != [] {
      c := FoldBinds(t, Step(t, x, xs[0], index), xs[1..], Step(t, y, ys[0], index), ys[1..], index / 2);
      if !TreeCollision(t, c) {
        c := (StepInput(x, xs[0], index), StepInput(y, ys[0], index));
        if c.0 == c.1 {
          StepInputBinds(x, xs[0], y, ys[0], index);
          assert xs == [xs[0]] + xs[1..] && ys == [ys[0]] + ys[1..];
        }
      }
    }
  }

  /** The neighbour of a node; the last node of an odd level is its own. */
  function Sibling(level: seq<Digest>, i: nat): Digest
    requires i < |level|
  {
    if i % 2 == 1 then level[i - 1] else if i + 1 < |level| then level[i + 1] else level[i]
  }

  function SiblingPath(t: Shape, level: seq<Digest>, i: nat): (path: seq<Digest>)
    requires i < |level|
    ensures |path| == Height(|level|)
    decreases |level|
  {
    if |level| == 1 then [] else [Sibling(level, i)] + SiblingPath(t, NextLevel(t, level), i / 2)
  }

  lemma FoldUnfolds(t: Shape, current: Digest, sibling: Digest, rest: seq<Digest>, index: nat)
    ensures Fold(t, current, [sibling] + rest, index) == Fold(t, Step(t, current, sibling, index), rest, index / 2)
  {
  }

  /** Where no node is odd, or odd nodes are paired with themselves, one step up a path is the next level's node. */
  lemma StepIsNode(t: Shape, level: seq<Digest>, i: nat)
    requires i < |level| && (t.selfPaired || |level| % 2 == 0)
    ensures Step(t, level[i], Sibling(level, i), i) == Node(t, level, i / 2)
  {
  }

  lemma PathUnfolds(t: Shape, level: seq<Digest>, i: nat)
    requires i < |level| && |level| > 1 && (t.selfPaired || |level| % 2 == 0)
    ensures var next := NextLevel(t, level);
            Fold(t, level[i], SiblingPath(t, level, i), i) == Fold(t, next[i / 2], SiblingPath(t, next, i / 2), i / 2)
  {
    StepIsNode(t, level, i);
    FoldUnfolds(t, level[i], Sibling(level, i), SiblingPath(t, NextLevel(t, level), i / 2), i);
  }

  /** The sibling path of any leaf folds to the root, in trees that pair an odd node with itself. */
  lemma {:induction false} PathFoldsToRoot(t: Shape, level: seq<Digest>, i: nat)
    requires i < |level|
    requires t.selfPaired
    ensures Fold(t, level[i], SiblingPath(t, level, i), i) == Root(t, level)
    decreases |level|
  {
    if |level| > 1 {
      PathUnfolds(t, level, i);
      PathFoldsToRoot(t, NextLevel(t, level), i / 2);
    }
  }

  lemma {:induction false} HeightOfPow2(height: nat)
    ensures Height(Pow2(height)) == height
  {
    if height > 0 {
      HeightOfPow2(height - 1);
      assert (Pow2(height) + 1) / 2 == Pow2(height - 1);
    }
  }

  /** A level of this size halves evenly all the way down to one node. */
  predicate Halves(n: nat, height: nat) {
    if height == 0 then n == 1 else n % 2 == 0 && Halves(n / 2, height - 1)
  }

  lemma {:induction false} Pow2Halves(height: nat)
    ensures Halves(Pow2(height), height)
  {
    if height > 0 {
      Pow2Halves(height - 1);
      assert Pow2(height) == 2 * Pow2(height - 1);
    }
  }

  lemma {:induction false} HalvesUnfolds(n: nat, height: nat)
    requires Halves(n, height)
    ensures n > 0 && (n > 1 <==> height > 0)
    ensures n > 1 ==> n % 2 == 0 && Halves((n + 1) / 2, height - 1)
  {
    if height > 0 {
      HalvesUnfolds(n / 2, height - 1);
    }
  }

  /** In a perfect tree no node is ever odd, so it does not matter what is done with odd nodes. */
  lemma {:induction false} EvenPathFoldsToRoot(t: Shape, level: seq<Digest>, i: nat, height: nat)
    requires i < |level| && Halves(|level|, height)
    ensures Fold(t, level[i], SiblingPath(t, level, i), i) == Root(t, level)
    decreases height
  {
    if |level| > 1 {
      var next := NextLevel(t, level);
      assert Fold(t, level[i], SiblingPath(t, level, i), i) == Fold(t, next[i / 2], SiblingPath(t, next, i / 2), i / 2) by {
        HalvesUnfolds(|level|, height);
        PathUnfolds(t, level, i);
      }
      assert Fold(t, next[i / 2], SiblingPath(t, next, i / 2), i / 2) == Root(t, next) by {
        HalvesUnfolds(|level|, height);
        EvenPathFoldsToRoot(t, next, i / 2, height - 1);
      }
    }
  }

  /** In a perfect tree, read top-down, the sibling path of every leaf folds to the root. */
  lemma PerfectPathFoldsToRoot(t: Shape, level: seq<Digest>, i: nat, height: nat)
    requires i < |level| == Pow2(height)
    ensures Fold(t, level[i], SiblingPath(t, level, i), i) == Subtree(t, level, height)
  {
    Pow2Halves(height);
    EvenPathFoldsToRoot(t, level, i, height);
    RootIsSubtree(t, level);
    HeightOfPow2(height);
  }

  // ---------------------------------------------------------------- levels, and positions beyond their end

  /** The j-th level above the leaves. */
  function LevelAt(t: Shape, level: seq<Digest>, j: nat): (upper: seq<Digest>)
    requires level != [] && j <= Height(|level|)
    ensures upper != [] && Height(|upper|) == Height(|level|) - j
    decreases j
  {
    if j == 0 then level else LevelAt(t, NextLevel(t, level), j - 1)
  }

  lemma {:induction false} LevelAtKeepsRoot(t: Shape, level: seq<Digest>, j: nat)
    requires level != [] && j <= Height(|level|)
    ensures Root(t, LevelAt(t, level, j)) == Root(t, level)
    decreases j
  {
    if j > 0 {
      LevelAtKeepsRoot(t, NextLevel(t, level), j - 1);
    }
  }

  /**
    Which node a position stands for. Past the end of a level whose odd nodes are paired with themselves,
    positions repeat nodes: a position stands for the child, on its side, of what its parent stands for.
   */
  function Origin(n: nat, i: nat): (origin: nat)
    requires n > 0
    ensures origin < n
    decreases n
  {
    if i < n then i
    else if n == 1 then 0
    else
      var child := 2 * Origin((n + 1) / 2, i / 2) + i % 2;
      if child < n then child else n - 1
  }

  lemma OriginOfChildren(n: nat, h: nat)
    requires n > 1
    ensures var q := Origin((n + 1) / 2, h);
            && 2 * q < n && Origin(n, 2 * h) == 2 * q
            && Origin(n, 2 * h + 1) == if 2 * q + 1 < n then 2 * q + 1 else 2 * q
  {
    assert (2 * h) / 2 == h && (2 * h + 1) / 2 == h;
  }

  function Neighbour(i: nat): nat {
    if i % 2 == 0 then i + 1 else i - 1
  }

  /** The sibling path of any position. */
  function PathOf(t: Shape, level: seq<Digest>, i: nat): (path: seq<Digest>)
    requires level != []
    ensures |path| == Height(|level|)
    decreases |level|
  {
    if |level| == 1 then [] else [level[Origin(|level|, Neighbour(i))]] + PathOf(t, NextLevel(t, level), i / 2)
  }

  /** The child on one side: the last node of an odd level is its own right neighbour. */
  function Child(n: nat, q: nat, right: bool): nat {
    if right && 2 * q + 1 < n then 2 * q + 1 else 2 * q
  }

  lemma OriginOfPosition(n: nat, i: nat)
    requires n > 1
    ensures var q := Origin((n + 1) / 2, i / 2);
            2 * q < n && Origin(n, i) == Child(n, q, i % 2 == 1) && Origin(n, Neighbour(i)) == Child(n, q, i % 2 == 0)
  {
    if i % 2 == 0 {
      OriginOfSide(n, i, i / 2, 0);
      OriginOfSide(n, Neighbour(i), i / 2, 1);
    } else {
      OriginOfSide(n, i, i / 2, 1);
      OriginOfSide(n, Neighbour(i), i / 2, 0);
    }
  }

  lemma OriginOfSide(n: nat, i: nat, h: nat, side: nat)
    requires n > 1 && i == 2 * h + side && side < 2
    ensures var q := Origin((n + 1) / 2, h); 2 * q < n && Origin(n, i) == Child(n, q, side == 1)
  {
    OriginOfChildren(n, h);
  }

  /** Two neighbouring nodes, or a last node twice, step up to their node of the next level. */
  lemma StepOfChildren(t: Shape, level: seq<Digest>, q: nat, i: nat)
    requires t.selfPaired && 2 * q < |level|
    ensures Step(t, level[Child(|level|, q, i % 2 == 1)], level[Child(|level|, q, i % 2 == 0)], i) == NextLevel(t, level)[q]
  {
    assert NextLevel(t, level)[q] == Node(t, level, q);
  }

  lemma StepOfPosition(t: Shape, level: seq<Digest>, i: nat)
    requires |level| > 1 && t.selfPaired
    ensures Step(t, level[Origin(|level|, i)], level[Origin(|level|, Neighbour(i))], i)
         == NextLevel(t, level)[Origin((|level| + 1) / 2, i / 2)]
  {
    OriginOfPosition(|level|, i);
    StepOfChildren(t, level, Origin((|level| + 1) / 2, i / 2), i);
  }

  /** Where odd nodes are paired with themselves, the sibling path of every position folds to the root. */
  lemma {:induction false} AnyPathFoldsToRoot(t: Shape, level: seq<Digest>, i: nat)
    requires level != [] && t.selfPaired
    ensures Fold(t, level[Origin(|level|, i)], PathOf(t, level, i), i) == Root(t, level)
    decreases |level|
  {
    if |level| > 1 {
      var next := NextLevel(t, level);
      assert Fold(t, level[Origin(|level|, i)], PathOf(t, level, i), i)
          == Fold(t, next[Origin(|next|, i / 2)], PathOf(t, next, i / 2), i / 2) by {
        StepOfPosition(t, level, i);
        FoldUnfolds(t, level[Origin(|level|, i)], level[Origin(|level|, Neighbour(i))], PathOf(t, next, i / 2), i);
      }
      AnyPathFoldsToRoot(t, next, i / 2);
    }
  }

  /** What position i of the j-th level above the leaves stands for. */
  function NodeAt(t: Shape, level: seq<Digest>, j: nat, i: nat): Digest
    requires level != [] && j <= Height(|level|)
  {
    var upper := LevelAt(t, level, j);
    upper[Origin(|upper|, i)]
  }

  /** Its sibling path. */
  function PathAt(t: Shape, level: seq<Digest>, j: nat, i: nat): (path: seq<Digest>)
    requires level != [] && j <= Height(|level|)
    ensures |path| == Height(|level|) - j
  {
    PathOf(t, LevelAt(t, level, j), i)
  }

  /** The last level is the root alone. */
  lemma {:induction false} TopLevel(t: Shape, level: seq<Digest>)
    requires level != []
    ensures LevelAt(t, level, Height(|level|)) == [Root(t, level)]
    decreases |level|
  {
    if |level| > 1 {
      TopLevel(t, NextLevel(t, level));
    }
  }

  lemma TopNode(t: Shape, level: seq<Digest>, i: nat)
    requires level != []
    ensures NodeAt(t, level, Height(|level|), i) == Root(t, level) && PathAt(t, level, Height(|level|), i) == []
  {
    TopLevel(t, level);
    assert Origin(1, i) == 0;
  }

  /** From every position of every level, the sibling path folds to the root. */
  lemma NodeFoldsToRoot(t: Shape, level: seq<Digest>, j: nat, i: nat)
    requires level != [] && t.selfPaired && j <= Height(|level|)
    ensures Fold(t, NodeAt(t, level, j, i), PathAt(t, level, j, i), i) == Root(t, level)
  {
    LevelAtKeepsRoot(t, level, j);
    AnyPathFoldsToRoot(t, LevelAt(t, level, j), i);
  }

  /** Whatever folds to the root in as many steps is that node with that path, or here is a collision. */
  lemma PathNamesNode(t: Shape, level: seq<Digest>, x: Digest, path: seq<Digest>, i: nat) returns (c: (seq<byte>, seq<byte>))
    requires level != [] && t.selfPaired && |path| <= Height(|level|) && Fold(t, x, path, i) == Root(t, level)
    ensures var j := Height(|level|) - |path|;
            (x == NodeAt(t, level, j, i) && path == PathAt(t, level, j, i)) || TreeCollision(t, c)
  {
    var j := Height(|level|) - |path|;
    NodeFoldsToRoot(t, level, j, i);
    c := FoldBinds(t, x, path, NodeAt(t, level, j, i), PathAt(t, level, j, i), i);
  }

  /** The index m levels up. */
  function Above(index: nat, m: nat): nat {
    if m == 0 then index else Above(index / 2, m - 1)
  }

  /** Folding a path in two parts. */
  lemma {:induction false} FoldSplit(t: Shape, current: Digest, branch: seq<Digest>, index: nat, m: nat)
    requires m <= |branch|
    ensures Fold(t, current, branch, index) == Fold(t, Fold(t, current, branch[..m], index), branch[m..], Above(index, m))
    decreases m
  {
    if m == 0 {
      assert branch[0..] == branch;
    } else {
      FoldSplit(t, Step(t, current, branch[0], index), branch[1..], index / 2, m - 1);
      assert branch[1..][..m - 1] == branch[..m][1..] && branch[1..][m - 1..] == branch[m..];
    }
  }
}
