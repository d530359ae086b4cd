/**
 * The deep neural decision forest block (`DNDF`): the leaf and internal-node
 * counts, the routing-index table `increment_masks` built in its constructor,
 * and the index side of `forward`, which gathers one split probability per
 * level and multiplies them along the root-to-leaf path of every leaf.
 *
 * Internal nodes are numbered in heap order (root 0, children of node m are
 * 2m + 1 and 2m + 2).  For each tree, the sigmoid outputs p of the internal
 * nodes are laid out as the vector [p, 1 - p] of length 2 * numInternals, so
 * that index m reads "go left at node m" and index m + numInternals reads
 * "go right at node m".
 */
module Dndf {
  import opened Arith
  import opened ArrayOps
  import opened Wrappers
  import opened Blocks

  /** `2 ** (tree_depth + 1)` leaves per tree. */
  function NumLeaf(depth: nat): nat {
    Pow2(depth + 1)
  }

  /** `num_leaf - 1` internal (splitting) nodes per tree. */
  function NumInternals(depth: nat): nat {
    Pow2(depth + 1) - 1
  }

  /**
   * The first i + 1 turns on the way to leaf k read as a binary number:
   * leaf k's index with its last depth - i binary digits dropped.
   */
  function Turns(depth: nat, i: nat, k: nat): nat
    requires i <= depth
  {
    DivNonNegative(k, Pow2(depth - i));
    k / Pow2(depth - i)
  }

  /** The node visited at level i (0 is the root) on the way to leaf k, in heap order. */
  function Node(depth: nat, i: nat, k: nat): nat
    requires i <= depth
  {
    Pow2(i) - 1 + Turns(depth, i, k) / 2
  }

  /** Which way the path to leaf k leaves level i: 0 for left, 1 for right. */
  function Side(depth: nat, i: nat, k: nat): nat
    requires i <= depth
  {
    Turns(depth, i, k) % 2
  }

  /** The index into [p, 1 - p] that leaf k reads at level i: the node, shifted by num_internals on the right side. */
  function MaskEntry(depth: nat, i: nat, k: nat): nat
    requires i <= depth
  {
    Node(depth, i, k) + (if Side(depth, i, k) == 0 then 0 else NumInternals(depth))
  }

  /** Row i of `increment_masks`: num_leaf entries, column k being MaskEntry(depth, i, k). */
  ghost function LevelMask(depth: nat, i: nat): (row: seq<int>)
    requires i <= depth
    ensures |row| == NumLeaf(depth)
  {
    seq(NumLeaf(depth), (k: int) requires 0 <= k => MaskEntry(depth, i, k))
  }

  /** `increment_masks`: depth + 1 rows, row i being LevelMask(depth, i). */
  ghost predicate IsIncrementMasks(depth: nat, masks: seq<seq<int>>) {
    && |masks| == depth + 1
    && forall i :: 0 <= i <= depth ==> masks[i] == LevelMask(depth, i)
  }

  // ---------------------------------------------------------------------
  // Building the table

  /** Row 0 of the table: `np.repeat([0, num_internals], num_leaf // 2)`. */
  lemma MaskRowZero(depth: nat, row: seq<int>)
    requires row == Repeat([0, NumInternals(depth)], NumLeaf(depth) / 2)
    ensures row == LevelMask(depth, 0)
  {
    var half := Pow2(depth);
    assert NumLeaf(depth) / 2 == half;
    forall k | 0 <= k < |row| ensures row[k] == MaskEntry(depth, 0, k) {
      if k < half {
        DivMod(k, half, 0, k);
      } else {
        DivMod(k, half, 1, k - half);
      }
    }
  }

  /**
   * Row i >= 1 of the table: `np.repeat(np.repeat(np.arange(L - 1, 2L - 1), 2)
   * + np.tile([0, num_internals], L), num_repeat)` with L = 2 ** i local
   * internal nodes and num_repeat = 2 ** (depth - i).
   */
  lemma MaskRow(depth: nat, i: nat, local: nat, repeat: nat, numInternals: nat, row: seq<int>)
    requires 1 <= i <= depth
    requires local == Pow2(i) && repeat == Pow2(depth - i) && numInternals == NumInternals(depth)
    requires row == Repeat(LevelRow(local, numInternals), repeat)
    ensures row == LevelMask(depth, i)
  {
    var s := LevelRow(local, numInternals);
    LevelRowEntries(local, numInternals);
    Pow2Add(i + 1, depth - i);
    assert |row| == NumLeaf(depth);
    forall k | 0 <= k < |row| ensures row[k] == MaskEntry(depth, i, k) {
      RepeatedLevelRowAt(s, local, numInternals, repeat, k, Turns(depth, i, k));
    }
  }

  /** Entry k of a level row repeated `repeat` times, in terms of the quotient j = k / repeat. */
  lemma RepeatedLevelRowAt(s: seq<int>, local: nat, numInternals: nat, repeat: nat, k: nat, j: nat)
    requires local >= 1 && repeat >= 1
    requires |s| == 2 * local
    requires forall x :: 0 <= x < 2 * local ==> s[x] == local - 1 + x / 2 + (if x % 2 == 0 then 0 else numInternals)
    requires k < |s| * repeat && j == k / repeat
    ensures Repeat(s, repeat)[k] == local - 1 + j / 2 + (if j % 2 == 0 then 0 else numInternals)
  {
    RepeatAt(s, repeat, k);
    assert Repeat(s, repeat)[k] == s[j];
  }

  /**
   * Level i before the final repeat: `np.repeat(np.arange(L - 1, 2L - 1), 2)
   * + np.tile([0, num_internals], L)` with L = 2 ** i local internal nodes.
   */
  function LevelRow(local: nat, numInternals: nat): seq<int> {
    Add(Repeat(Arange(local - 1, 2 * local - 1), 2), Tile([0, numInternals], local))
  }

  lemma LevelRowEntries(local: nat, numInternals: nat)
    requires local >= 1
    ensures |LevelRow(local, numInternals)| == 2 * local
    ensures forall j :: 0 <= j < 2 * local ==>
      LevelRow(local, numInternals)[j] == local - 1 + j / 2 + (if j % 2 == 0 then 0 else numInternals)
  {
  }

  /**
   * One pass of the loop in `DNDF.__init__`: the numpy expression that builds
   * the row of level i from L = num_local_internals and num_repeat.
   */
  method NextMaskRow(depth: nat, i: nat, numLocalInternals: nat, numRepeat: nat, numInternals: nat) returns (mask: seq<int>)
    requires 1 <= i <= depth
    requires numLocalInternals == Pow2(i) && numRepeat == Pow2(depth - i) && numInternals == NumInternals(depth)
    ensures mask == LevelMask(depth, i)
  {
    mask := Repeat(Arange(numLocalInternals - 1, 2 * numLocalInternals - 1), 2);
    mask := Add(mask, Tile([0, numInternals], numLocalInternals));
    mask := Repeat(mask, numRepeat);
    MaskRow(depth, i, numLocalInternals, numRepeat, numInternals, mask);
  }

  /**
   * `DNDF.__init__`, masks part: row 0 repeats [0, num_internals]; each later
   * row halves `num_repeat`, doubles `num_local_internals` and appends the
   * next level's row.
   */
  method BuildIncrementMasks(depth: nat) returns (masks: seq<seq<int>>)
    ensures IsIncrementMasks(depth, masks)
  {
    var numLeaf := Pow2(depth + 1);
    var numInternals := numLeaf - 1;
    var numRepeat, numLocalInternals := numLeaf / 2, 1;
    var first := Repeat([0, numInternals], numRepeat);
    MaskRowZero(depth, first);
    masks := [first];
    for i := 1 to depth + 1
      invariant numRepeat == Pow2(depth - (i - 1)) && numLocalInternals == Pow2(i - 1)
      invariant |masks| == i
      invariant forall r :: 0 <= r < i ==> masks[r] == LevelMask(depth, r)
    {
      NextLevel(depth, i, numRepeat, numLocalInternals);
      numRepeat := numRepeat / 2;
      numLocalInternals := numLocalInternals * 2;
      var mask := NextMaskRow(depth, i, numLocalInternals, numRepeat, numInternals);
      masks := masks + [mask];
    }
  }

  /** One step of the loop: halving the repeat count and doubling the local node count move to level i. */
  lemma NextLevel(depth: nat, i: nat, numRepeat: nat, numLocalInternals: nat)
    requires 1 <= i <= depth
    requires numRepeat == Pow2(depth - (i - 1)) && numLocalInternals == Pow2(i - 1)
    ensures numRepeat / 2 == Pow2(depth - i) && numLocalInternals * 2 == Pow2(i)
  {
    assert Pow2(depth - (i - 1)) == 2 * Pow2(depth - i);
  }

  // ---------------------------------------------------------------------
  // What the table means

  /** The internal nodes of a tree are exactly its levels 0..depth, level i holding 2 ** i nodes. */
  function LevelTotal(depth: nat): nat {
    if depth == 0 then 1 else LevelTotal(depth - 1) + Pow2(depth)
  }

  lemma {:induction false} InternalsAreLevels(depth: nat)
    ensures NumInternals(depth) == LevelTotal(depth)
    ensures NumLeaf(depth) == 2 * Pow2(depth)
  {
    if depth > 0 {
      InternalsAreLevels(depth - 1);
    }
  }

  /** The node on level i lies in that level's heap-order range [2 ** i - 1, 2 ** (i + 1) - 1). */
  lemma NodeInLevel(depth: nat, i: nat, k: nat)
    requires i <= depth && k < NumLeaf(depth)
    ensures Pow2(i) - 1 <= Node(depth, i, k) < Pow2(i + 1) - 1
    ensures Side(depth, i, k) <= 1
  {
    Pow2Add(depth - i, i + 1);
    assert depth - i + (i + 1) == depth + 1;
    DivBelow(k, Pow2(depth - i), Pow2(i + 1));
    DivBelow(Turns(depth, i, k), 2, Pow2(i));
  }

  /** The node is 2 ** i - 1 plus leaf k's index with its last depth + 1 - i binary digits dropped. */
  lemma NodeClosedForm(depth: nat, i: nat, k: nat)
    requires i <= depth
    ensures Node(depth, i, k) == Pow2(i) - 1 + k / Pow2(depth + 1 - i)
  {
    assert Pow2(depth + 1 - i) == Pow2(depth - i) * 2;
    DivDiv(k, Pow2(depth - i), 2);
  }

  /** Every table entry indexes the vector [p, 1 - p] of length 2 * num_internals. */
  lemma MaskEntryInRange(depth: nat, i: nat, k: nat)
    requires i <= depth && k < NumLeaf(depth)
    ensures Node(depth, i, k) < NumInternals(depth)
    ensures MaskEntry(depth, i, k) < 2 * NumInternals(depth)
  {
    NodeInLevel(depth, i, k);
    Pow2Monotone(i + 1, depth + 1);
  }

  /** Row 0 sends the first half of the leaves left of the root and the second half right. */
  lemma RootRow(depth: nat, k: nat)
    requires k < NumLeaf(depth)
    ensures Node(depth, 0, k) == 0
    ensures MaskEntry(depth, 0, k) == if k < NumLeaf(depth) / 2 then 0 else NumInternals(depth)
  {
    var half := Pow2(depth);
    if k < half {
      DivMod(k, half, 0, k);
    } else {
      DivMod(k, half, 1, k - half);
    }
  }

  /** Consecutive rows step from a node to its left (side 0) or right (side 1) child. */
  lemma ChildOfNode(depth: nat, i: nat, k: nat)
    requires i < depth
    ensures Node(depth, i + 1, k) == 2 * Node(depth, i, k) + 1 + Side(depth, i, k)
  {
    var below := Pow2(depth - (i + 1));
    assert Pow2(depth - i) == below * 2;
    DivDiv(k, below, 2);
    assert Turns(depth, i, k) == Turns(depth, i + 1, k) / 2;
  }

  /** Leaf k's binary digits, most significant first, choose the turns. */
  function Bit(k: nat, b: nat): nat {
    (k / Pow2(b)) % 2
  }

  /** The heap-order walk from the root that turns by Bit(k, depth), Bit(k, depth - 1), ... */
  function Descend(depth: nat, k: nat, i: nat): nat
    requires i <= depth
  {
    if i == 0 then 0 else 2 * Descend(depth, k, i - 1) + 1 + Bit(k, depth - (i - 1))
  }

  /** Column k of the table traces exactly the root-to-leaf walk of leaf k. */
  lemma {:induction false} PathIsDescent(depth: nat, i: nat, k: nat)
    requires i <= depth && k < NumLeaf(depth)
    ensures Node(depth, i, k) == Descend(depth, k, i)
    ensures Side(depth, i, k) == Bit(k, depth - i)
  {
    if i == 0 {
      RootRow(depth, k);
    } else {
      PathIsDescent(depth, i - 1, k);
      ChildOfNode(depth, i - 1, k);
    }
  }

  /** The last row determines the leaf: different leaves end in different entries. */
  lemma LastRowIdentifiesLeaf(depth: nat, k: nat)
    requires k < NumLeaf(depth)
    ensures k == 2 * (Node(depth, depth, k) - (Pow2(depth) - 1)) + Side(depth, depth, k)
  {
    assert Turns(depth, depth, k) == k;
  }

  lemma DistinctLeavesDistinctPaths(depth: nat, k1: nat, k2: nat)
    requires k1 < NumLeaf(depth) && k2 < NumLeaf(depth) && k1 != k2
    ensures MaskEntry(depth, depth, k1) != MaskEntry(depth, depth, k2)
  {
    var n := NumInternals(depth);
    LastRowIdentifiesLeaf(depth, k1);
    LastRowIdentifiesLeaf(depth, k2);
    MaskEntryInRange(depth, depth, k1);
    MaskEntryInRange(depth, depth, k2);
    NodeInLevel(depth, depth, k1);
    NodeInLevel(depth, depth, k2);

  }

  // ---------------------------------------------------------------------
  // The block itself

  /** The shape-relevant state of a `DNDF` module after construction. */
  datatype Forest = Forest(
    numTree: nat,
    treeDepth: nat,
    outputType: string,
    isRegression: bool,
    numLeaf: nat,
    numInternals: nat,
    outputDim: nat,
    treeProj: Linear,
    leavesShape: (nat, nat, nat),
    incrementMasks: seq<seq<int>>)

  ghost predicate Valid(f: Forest) {
    && f.numLeaf == NumLeaf(f.treeDepth)
    && f.numInternals == NumInternals(f.treeDepth)
    && f.treeProj.outDim == f.numInternals * f.numTree
    && IsIncrementMasks(f.treeDepth, f.incrementMasks)
  }

  /** `DNDF.__init__`: counts, the tree projection, the leaf parameter shape and the masks. */
  method NewForest(inDim: nat, outDim: nat, numTree: nat, treeDepth: nat, treeProjConfig: LinearConfig,
                   outputType: string, isRegression: Option<bool>)
    returns (f: Forest)
    ensures Valid(f)
    ensures f.numTree == numTree && f.treeDepth == treeDepth && f.outputDim == outDim && f.outputType == outputType
    ensures f.numLeaf == Pow2(treeDepth + 1) && f.numInternals == f.numLeaf - 1
    ensures f.isRegression == if isRegression.Some? then isRegression.value else outDim == 1
    // the projection yields one logit per internal node of every tree
    ensures f.treeProj.inDim == inDim && f.treeProj.outDim == f.numInternals * numTree
    ensures f.leavesShape == (numTree, f.numLeaf, outDim)
  {
    var regression := if isRegression.None? then outDim == 1 else isRegression.value;
    var numLeaf := Pow2(treeDepth + 1);
    var numInternals := numLeaf - 1;
    var treeProj := NewLinear(inDim, numInternals * numTree, treeProjConfig);
    var masks := BuildIncrementMasks(treeDepth);
    f := Forest(numTree, treeDepth, outputType, regression, numLeaf, numInternals, outDim, treeProj,
                (numTree, numLeaf, outDim), masks);
  }
}
