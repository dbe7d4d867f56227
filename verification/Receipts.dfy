/** The receipts root: a bottom-up loop that pads a level to even length and hashes it in pairs,
    proved equal to a top-down definition of the tree. */
module Receipts {
  import opened Types

  type PairHash = (Hash, Hash) -> Hash

  /** Width of the tree `k` levels above `n` leaves. */
  function Width(n: nat, k: nat): (w: nat)
    ensures n >= 1 ==> w >= 1
  {
    if k == 0 then n else (Width(n, k - 1) + 1) / 2
  }

  /** Node `j` of level `k`: a leaf, or the hash of its two children, where a missing right child
      is replaced by the last node of the level below. */
  function TreeNode(pair: PairHash, leaves: seq<Hash>, k: nat, j: nat): Hash
    requires leaves != [] && j < Width(|leaves|, k)
    decreases k
  {
    if k == 0 then leaves[j]
    else pair(TreeNode(pair, leaves, k - 1, 2 * j), TreeNode(pair, leaves, k - 1, Right(Width(|leaves|, k - 1), j)))
  }

  /** The right child of node `j` over a level of width `below`. */
  function Right(below: nat, j: nat): nat
    requires below >= 1
  {
    if 2 * j + 1 < below then 2 * j + 1 else below - 1
  }

  lemma NodeStep(pair: PairHash, leaves: seq<Hash>, k: nat, j: nat)
    requires leaves != [] && j < Width(|leaves|, k + 1)
    ensures 2 * j < Width(|leaves|, k) && Right(Width(|leaves|, k), j) < Width(|leaves|, k)
    ensures TreeNode(pair, leaves, k + 1, j)
         == pair(TreeNode(pair, leaves, k, 2 * j), TreeNode(pair, leaves, k, Right(Width(|leaves|, k), j)))
  {
  }

  /** The number of levels above the leaves. */
  function Height(n: nat): nat
    requires n >= 1
  {
    if n == 1 then 0 else 1 + Height((n + 1) / 2)
  }

  function LeafHashes(leafHash: Receipt -> Hash, receipts: seq<Receipt>): seq<Hash> {
    seq(|receipts|, i requires 0 <= i < |receipts| => leafHash(receipts[i]))
  }

  function Root(leafHash: Receipt -> Hash, pair: PairHash, receipts: seq<Receipt>): Hash {
    if receipts == [] then ZERO_HASH else TreeRoot(pair, LeafHashes(leafHash, receipts))
  }

  function TreeRoot(pair: PairHash, leaves: seq<Hash>): Hash
    requires leaves != []
  {
    WidthAtHeight(|leaves|, 0);
    TreeNode(pair, leaves, Height(|leaves|), 0)
  }

  lemma {:induction false} WidthAtHeight(n: nat, k: nat)
    requires n >= 1
    ensures Width(n, k + Height(Width(n, k))) == 1
    decreases Width(n, k)
  {
    if Width(n, k) > 1 {
      WidthAtHeight(n, k + 1);
    }
  }

  /** `level` is level `k` of the tree. */
  ghost predicate IsLevel(pair: PairHash, leaves: seq<Hash>, k: nat, level: seq<Hash>)
    requires leaves != []
  {
    |level| == Width(|leaves|, k) && forall j :: 0 <= j < |level| ==> level[j] == TreeNode(pair, leaves, k, j)
  }

  /** Each node of `next` hashes its two children in `level`. */
  ghost predicate Above(pair: PairHash, level: seq<Hash>, next: seq<Hash>)
    requires level != []
  {
    forall j :: 0 <= j < |next| ==>
      2 * j < |level| && Right(|level|, j) < |level| && next[j] == pair(level[2 * j], level[Right(|level|, j)])
  }

  /** One round of the loop: pad to even length, then hash in pairs. */
  method NextLevel(pair: PairHash, level: seq<Hash>) returns (next: seq<Hash>)
    requires level != []
    ensures |next| == (|level| + 1) / 2 && Above(pair, level, next)
  {
    var padded := level;
    if |level| % 2 != 0 {
      padded := level + [level[|level| - 1]];
    }
    next := [];
    while 2 * |next| < |padded|
      invariant 2 * |next| <= |padded|
      invariant forall j :: 0 <= j < |next| ==> next[j] == pair(padded[2 * j], padded[2 * j + 1])
    {
      next := next + [pair(padded[2 * |next|], padded[2 * |next| + 1])];
    }
  }

  /** The level above a level of the tree is the tree's next level. */
  lemma LevelStep(pair: PairHash, leaves: seq<Hash>, k: nat, level: seq<Hash>, next: seq<Hash>)
    requires leaves != [] && level != [] && |next| == (|level| + 1) / 2
    requires IsLevel(pair, leaves, k, level) && Above(pair, level, next)
    ensures IsLevel(pair, leaves, k + 1, next)
  {
    hide TreeNode, Right;
    forall j | 0 <= j < |next| ensures next[j] == TreeNode(pair, leaves, k + 1, j) {
      NodeStep(pair, leaves, k, j);
    }
  }

  lemma LeafLevel(pair: PairHash, leaves: seq<Hash>)
    requires leaves != []
    ensures IsLevel(pair, leaves, 0, leaves)
  {
  }

  lemma TopLevel(pair: PairHash, leaves: seq<Hash>, level: seq<Hash>)
    requires leaves != [] && |level| == 1 && IsLevel(pair, leaves, Height(|leaves|), level)
    ensures level[0] == TreeRoot(pair, leaves)
  {
  }

  /** The imperative computation: each round replaces `level` by the one above it. */
  method CalculateReceiptsRoot(leafHash: Receipt -> Hash, pair: PairHash, receipts: seq<Receipt>)
    returns (root: Hash)
    ensures root == Root(leafHash, pair, receipts)
  {
    if receipts == [] {
      return ZERO_HASH;
    }
    hide Above, IsLevel;
    ghost var leaves := LeafHashes(leafHash, receipts);
    LeafLevel(pair, leaves);
    var level := LeafHashes(leafHash, receipts);
    ghost var k := 0;
    while |level| > 1
      invariant level != [] && IsLevel(pair, leaves, k, level)
      invariant k + Height(|level|) == Height(|leaves|)
      decreases |level|
    {
      var next := NextLevel(pair, level);
      LevelStep(pair, leaves, k, level, next);
      level, k := next, k + 1;
    }
    TopLevel(pair, leaves, level);
    return level[0];
  }

  ghost predicate Collisionless(pair: PairHash) {
    forall a, b, c, d :: pair(a, b) == pair(c, d) ==> a == c && b == d
  }

  lemma EqualLeaves(pair: PairHash, a: seq<Hash>, b: seq<Hash>)
    requires a != [] && |a| == |b|
    requires forall j :: 0 <= j < Width(|a|, 0) ==> TreeNode(pair, a, 0, j) == TreeNode(pair, b, 0, j)
    ensures a == b
  {
    forall j | 0 <= j < |a| ensures a[j] == b[j] {
      assert TreeNode(pair, a, 0, j) == TreeNode(pair, b, 0, j);
    }
  }

  /** Equal nodes of two trees of one shape have equal children, level by level. */
  lemma {:induction false} EqualLevels(pair: PairHash, a: seq<Hash>, b: seq<Hash>, k: nat)
    requires Collisionless(pair) && a != [] && |a| == |b|
    requires forall j :: 0 <= j < Width(|a|, k) ==> TreeNode(pair, a, k, j) == TreeNode(pair, b, k, j)
    ensures a == b
    decreases k
  {
    hide TreeNode;
    if k > 0 {
      var m := k - 1;
      forall j | 0 <= j < Width(|a|, m)
        ensures TreeNode(pair, a, m, j) == TreeNode(pair, b, m, j)
      {
        assert TreeNode(pair, a, k, j / 2) == TreeNode(pair, b, k, j / 2);
        NodeStep(pair, a, m, j / 2);
        NodeStep(pair, b, m, j / 2);
      }
      EqualLevels(pair, a, b, m);
    } else {
      EqualLeaves(pair, a, b);
    }
  }

  /** With collision-free hashing the root determines the receipts of a list of known length. */
  lemma RootBinding(leafHash: Receipt -> Hash, pair: PairHash, a: seq<Receipt>, b: seq<Receipt>)
    requires Injective(leafHash) && Collisionless(pair)
    requires |a| == |b| && Root(leafHash, pair, a) == Root(leafHash, pair, b)
    ensures a == b
  {
    if a != [] {
      var la, lb := LeafHashes(leafHash, a), LeafHashes(leafHash, b);
      WidthAtHeight(|la|, 0);
      EqualLevels(pair, la, lb, Height(|la|));
      forall i | 0 <= i < |a| ensures a[i] == b[i] {
        assert la[i] == lb[i];
      }
    }
  }

  /** Repeating the last leaf of an odd level changes no node above it. */
  lemma {:induction false} RepeatLast(pair: PairHash, leaves: seq<Hash>, k: nat, j: nat)
    requires |leaves| % 2 == 1 && j < Width(|leaves|, k + 1)
    ensures var more := leaves + [leaves[|leaves| - 1]];
            Width(|more|, k + 1) == Width(|leaves|, k + 1) &&
            TreeNode(pair, more, k + 1, j) == TreeNode(pair, leaves, k + 1, j)
    decreases k
  {
    hide TreeNode;
    var more := leaves + [leaves[|leaves| - 1]];
    if k == 0 {
      NodeStep(pair, more, 0, j);
      NodeStep(pair, leaves, 0, j);
      LeafNodes(pair, more);
      LeafNodes(pair, leaves);
    } else {
      var below := Width(|leaves|, k);
      RepeatLast(pair, leaves, k - 1, 2 * j);
      RepeatLast(pair, leaves, k - 1, Right(below, j));
      NodeStep(pair, more, k, j);
      NodeStep(pair, leaves, k, j);
    }
  }

  lemma LeafNodes(pair: PairHash, leaves: seq<Hash>)
    requires leaves != []
    ensures Width(|leaves|, 0) == |leaves| && forall j :: 0 <= j < |leaves| ==> TreeNode(pair, leaves, 0, j) == leaves[j]
  {
  }

  /** The length is not committed to: an odd list and the list with its last receipt repeated
      have the same root. */
  lemma OddListRepeatsLast(leafHash: Receipt -> Hash, pair: PairHash, receipts: seq<Receipt>)
    requires |receipts| > 1 && |receipts| % 2 == 1
    ensures Root(leafHash, pair, receipts + [receipts[|receipts| - 1]]) == Root(leafHash, pair, receipts)
  {
    var more := receipts + [receipts[|receipts| - 1]];
    var leaves := LeafHashes(leafHash, receipts);
    assert LeafHashes(leafHash, more) == leaves + [leaves[|leaves| - 1]];
    assert Height(|more|) == Height(|receipts|) >= 1;
    WidthAtHeight(|leaves|, 0);
    RepeatLast(pair, leaves, Height(|leaves|) - 1, 0);
  }

  /** The leaves hashed in pairs, left before right, the last with itself if it is alone. */
  ghost predicate PairsUp(pair: PairHash, leaves: seq<Hash>, next: seq<Hash>) {
    && |next| == (|leaves| + 1) / 2
    && forall j :: 0 <= j < |next| ==> next[j] == pair(leaves[2 * j], leaves[if 2 * j + 1 < |leaves| then 2 * j + 1 else 2 * j])
  }

  /** Level by level from below: pairing up the leaves does not change the root, and a single leaf is
      its own root. */
  lemma RootPairsUp(pair: PairHash, leaves: seq<Hash>, next: seq<Hash>)
    requires |leaves| > 1 && PairsUp(pair, leaves, next)
    ensures TreeRoot(pair, leaves) == TreeRoot(pair, next)
    ensures TreeRoot(pair, leaves[..1]) == leaves[0]
  {
    hide TreeNode;
    WidthAtHeight(|leaves|, 0);
    WidthAtHeight(|next|, 0);
    LowerLevel(pair, leaves, next, Height(|next|), 0);
    LeafNodes(pair, leaves[..1]);
  }

  lemma {:induction false} LowerLevel(pair: PairHash, leaves: seq<Hash>, next: seq<Hash>, k: nat, j: nat)
    requires |leaves| > 1 && next != [] && PairsUp(pair, leaves, next) && j < Width(|next|, k)
    ensures Width(|leaves|, k + 1) == Width(|next|, k) && TreeNode(pair, leaves, k + 1, j) == TreeNode(pair, next, k, j)
    decreases k
  {
    hide TreeNode, Width, Right;
    PairedWidth(pair, leaves, next, k);
    hide PairsUp;
    if k == 0 {
      LowestLevel(pair, leaves, next, j);
    } else {
      PairedWidth(pair, leaves, next, k - 1);
      NodeStep(pair, leaves, k, j);
      NodeStep(pair, next, k - 1, j);
      LowerLevel(pair, leaves, next, k - 1, 2 * j);
      LowerLevel(pair, leaves, next, k - 1, Right(Width(|next|, k - 1), j));
    }
  }

  lemma LowestLevel(pair: PairHash, leaves: seq<Hash>, next: seq<Hash>, j: nat)
    requires |leaves| > 1 && PairsUp(pair, leaves, next) && j < Width(|next|, 0)
    ensures j < Width(|leaves|, 1) && TreeNode(pair, leaves, 1, j) == TreeNode(pair, next, 0, j)
  {
    hide TreeNode;
    LeafNodes(pair, leaves);
    LeafNodes(pair, next);
    NodeStep(pair, leaves, 0, j);
  }

  lemma PairedWidth(pair: PairHash, leaves: seq<Hash>, next: seq<Hash>, k: nat)
    requires PairsUp(pair, leaves, next)
    ensures Width(|leaves|, k + 1) == Width(|next|, k)
  {
    WidthShift(|leaves|, k);
  }

  lemma {:induction false} WidthShift(n: nat, k: nat)
    ensures Width(n, k + 1) == Width((n + 1) / 2, k)
    decreases k
  {
    if k > 0 {
      WidthShift(n, k - 1);
    }
  }
}
