/**
 * The index side of `DNDF.forward`: splitting the projected logits into one
 * block per tree, laying each block out as the flat vector of [p, 1 - p]
 * rows, gathering it at `batch_index + increment_masks[i]`, and multiplying
 * the gathered values level by level into the routing probability of every
 * leaf.  Probabilities are exact reals here; the sigmoid that produces them
 * is an input.
 */
module DndfForward {
  import opened Arith
  import opened Dndf

  /** `torch.split(..., num_internals, dim=-1)[j]` on one batch row: the logits of tree j. */
  function TreeBlock(row: seq<real>, j: nat, n: nat): (r: seq<real>)
    requires RowStart(j + 1, n) <= |row|
    ensures |r| == n
    ensures forall c :: 0 <= c < n ==> r[c] == row[RowStart(j, n) + c]
  {
    row[RowStart(j, n) .. RowStart(j + 1, n)]
  }

  /** Tree j's block for every batch row: its `p_left`. */
  function TreeBlocks(sig: seq<seq<real>>, j: nat, numTree: nat, n: nat): (r: seq<seq<real>>)
    requires j < numTree
    requires forall b :: 0 <= b < |sig| ==> |sig[b]| == RowStart(numTree, n)
    ensures |r| == |sig|
    ensures forall b :: 0 <= b < |sig| ==> RowStart(j + 1, n) <= |sig[b]| && r[b] == TreeBlock(sig[b], j, n)
  {
    RowStartMonotone(j + 1, numTree, n);
    seq(|sig|, b requires 0 <= b < |sig| => TreeBlock(sig[b], j, n))
  }

  /** The position of column c of batch row b in a row-major table of width 2 * n: `batch_indices[b] + c`. */
  function FlatIndex(b: nat, c: nat, n: nat): nat {
    RowStart(b, 2 * n) + c
  }

  /** `1.0 - p` on one row. */
  function Complement(row: seq<real>): (r: seq<real>)
    ensures |r| == |row|
    ensures forall c :: 0 <= c < |row| ==> r[c] == 1.0 - row[c]
  {
    seq(|row|, c requires 0 <= c < |row| => 1.0 - row[c])
  }

  /** Entry c of row `[p, 1 - p]` for a row p of n split probabilities. */
  function FlatEntry(row: seq<real>, c: nat, n: nat): real
    requires |row| == n && c < 2 * n
  {
    if c < n then row[c] else 1.0 - row[c - n]
  }

  /** r holds the rows `[p[b], 1 - p[b]]` one after the other. */
  ghost predicate LaysOut(r: seq<real>, p: seq<seq<real>>, n: nat)
    requires forall b :: 0 <= b < |p| ==> |p[b]| == n
  {
    && |r| == RowStart(|p|, 2 * n)
    && forall b, c :: 0 <= b < |p| && 0 <= c < 2 * n ==>
         FlatIndex(b, c, n) < |r| && r[FlatIndex(b, c, n)] == FlatEntry(p[b], c, n)
  }

  /** `reshape(cat([p, 1 - p], dim=-1), [-1])`: row b of p followed by its complement, rows one after the other. */
  function FlatProbabilities(p: seq<seq<real>>, n: nat): (r: seq<real>)
    requires forall b :: 0 <= b < |p| ==> |p[b]| == n
    ensures LaysOut(r, p, n)
    decreases |p|
  {
    if p == [] then []
    else
      var front := FlatProbabilities(p[..|p| - 1], n);
      FlatAppend(p[..|p| - 1], p[|p| - 1], n, front);
      assert p[..|p| - 1] + [p[|p| - 1]] == p;
      front + (p[|p| - 1] + Complement(p[|p| - 1]))
  }

  /** Appending the row `[q, 1 - q]` to the layout of p lays out p + [q]. */
  lemma FlatAppend(p: seq<seq<real>>, q: seq<real>, n: nat, front: seq<real>)
    requires forall x :: 0 <= x < |p| ==> |p[x]| == n
    requires |q| == n
    requires LaysOut(front, p, n)
    ensures LaysOut(front + (q + Complement(q)), p + [q], n)
  {
    var p' := p + [q];
    var r := front + (q + Complement(q));
    forall b, c | 0 <= b < |p'| && 0 <= c < 2 * n
      ensures FlatIndex(b, c, n) < |r| && r[FlatIndex(b, c, n)] == FlatEntry(p'[b], c, n)
    {
      if b < |p| {
        assert FlatIndex(b, c, n) < |front|;
        assert r[FlatIndex(b, c, n)] == front[FlatIndex(b, c, n)];
      } else {
        assert FlatIndex(b, c, n) == |front| + c;
      }
    }
  }

  /** Every column c < 2n of every batch row b < batch lies inside the flat vector. */
  lemma FlatIndexBelow(batch: nat, n: nat)
    ensures forall b, c :: 0 <= b < batch && 0 <= c < 2 * n ==> FlatIndex(b, c, n) < RowStart(batch, 2 * n)
  {
    forall b, c | 0 <= b < batch && 0 <= c < 2 * n ensures FlatIndex(b, c, n) < RowStart(batch, 2 * n) {
      RowStartBelow(b, c, 2 * n, batch);
    }
  }

  /** `p_flat.take(batch_indices + mask)`: for every batch row b and column k, the entry at b * 2n + mask[k]. */
  function Gather(flat: seq<real>, batch: nat, n: nat, mask: seq<int>): (r: seq<seq<real>>)
    requires |flat| == RowStart(batch, 2 * n)
    requires forall k :: 0 <= k < |mask| ==> 0 <= mask[k] < 2 * n
    ensures |r| == batch
    ensures forall b :: 0 <= b < batch ==> |r[b]| == |mask|
    ensures forall b, k :: 0 <= b < batch && 0 <= k < |mask| ==>
      FlatIndex(b, mask[k], n) < |flat| && r[b][k] == flat[FlatIndex(b, mask[k], n)]
  {
    FlatIndexBelow(batch, n);
    seq(batch, b requires 0 <= b < batch =>
      seq(|mask|, k requires 0 <= k < |mask| => flat[FlatIndex(b, mask[k], n)]))
  }

  /**
   * The product of two probabilities.  Kept behind a name so that the
   * proofs about routes match products by their factors instead of handing
   * nonlinear real arithmetic to the solver.
   */
  function Times(x: real, y: real): real
  {
    x * y
  }

  /** Elementwise product of two tables of one shape (`routes[j] *= ...`). */
  function Mul(a: seq<seq<real>>, b: seq<seq<real>>): (r: seq<seq<real>>)
    requires |a| == |b| && forall x :: 0 <= x < |a| ==> |a[x]| == |b[x]|
    ensures |r| == |a|
    ensures forall x :: 0 <= x < |a| ==> |r[x]| == |a[x]| && forall y :: 0 <= y < |a[x]| ==> r[x][y] == Times(a[x][y], b[x][y])
  {
    seq(|a|, x requires 0 <= x < |a| => seq(|a[x]|, y requires 0 <= y < |a[x]| => Times(a[x][y], b[x][y])))
  }

  /** The probability of taking `side` at node `node`: p[node] to the left, 1 - p[node] to the right. */
  function Branch(p: seq<real>, node: nat, side: nat): real
    requires node < |p|
  {
    if side == 0 then p[node] else 1.0 - p[node]
  }

  /** The branch probability taken at level i on the path to leaf k. */
  function LevelBranch(p: seq<real>, depth: nat, i: nat, k: nat): real
    requires |p| == NumInternals(depth) && i <= depth && k < NumLeaf(depth)
  {
    MaskEntryInRange(depth, i, k);
    Branch(p, Node(depth, i, k), Side(depth, i, k))
  }

  /** The product of the branch probabilities on the first `levels` levels of the path to leaf k. */
  function PartialRoute(p: seq<real>, depth: nat, k: nat, levels: nat): real
    requires |p| == NumInternals(depth) && k < NumLeaf(depth)
    requires 1 <= levels <= depth + 1
  {
    var here := LevelBranch(p, depth, levels - 1, k);
    if levels == 1 then here else Times(PartialRoute(p, depth, k, levels - 1), here)
  }

  /** The probability that a sample whose split probabilities are p reaches leaf k. */
  function Route(p: seq<real>, depth: nat, k: nat): real
    requires |p| == NumInternals(depth) && k < NumLeaf(depth)
  {
    PartialRoute(p, depth, k, depth + 1)
  }

  /** The partial routes of every batch row and leaf after `levels` levels. */
  ghost function PartialRoutes(p: seq<seq<real>>, depth: nat, levels: nat): (r: seq<seq<real>>)
    requires forall b :: 0 <= b < |p| ==> |p[b]| == NumInternals(depth)
    requires 1 <= levels <= depth + 1
    ensures |r| == |p|
    ensures forall b :: 0 <= b < |p| ==>
      |r[b]| == NumLeaf(depth) && forall k :: 0 <= k < NumLeaf(depth) ==> r[b][k] == PartialRoute(p[b], depth, k, levels)
  {
    seq(|p|, b requires 0 <= b < |p| =>
      seq(NumLeaf(depth), (k: int) requires 0 <= k < NumLeaf(depth) => PartialRoute(p[b], depth, k, levels)))
  }

  /** Gathering the flat [p, 1 - p] table at `b * 2n + increment_masks[i][k]` reads the branch probability of level i on leaf k's path. */
  lemma FlatReadsBranch(p: seq<seq<real>>, depth: nat, i: nat, b: nat, k: nat)
    requires i <= depth && k < NumLeaf(depth) && b < |p|
    requires forall x :: 0 <= x < |p| ==> |p[x]| == NumInternals(depth)
    ensures var flat := FlatProbabilities(p, NumInternals(depth));
      FlatIndex(b, MaskEntry(depth, i, k), NumInternals(depth)) < |flat| &&
      flat[FlatIndex(b, MaskEntry(depth, i, k), NumInternals(depth))] == LevelBranch(p[b], depth, i, k)
  {
    MaskEntryInRange(depth, i, k);
  }

  /** Every entry of mask row i indexes into one row `[p, 1 - p]`. */
  lemma LevelMaskInRange(depth: nat, i: nat)
    requires i <= depth
    ensures forall k :: 0 <= k < NumLeaf(depth) ==> 0 <= LevelMask(depth, i)[k] < 2 * NumInternals(depth)
  {
    forall k | 0 <= k < NumLeaf(depth) ensures 0 <= LevelMask(depth, i)[k] < 2 * NumInternals(depth) {
      MaskEntryInRange(depth, i, k);
    }
  }

  /**
   * The gather at mask row i for every batch row and leaf: it reads the
   * branch probability of level i on every leaf's path.
   */
  ghost function Level(p: seq<seq<real>>, depth: nat, i: nat): (r: seq<seq<real>>)
    requires i <= depth
    requires forall b :: 0 <= b < |p| ==> |p[b]| == NumInternals(depth)
    ensures |r| == |p|
    ensures forall b :: 0 <= b < |p| ==>
      |r[b]| == NumLeaf(depth) && forall k :: 0 <= k < NumLeaf(depth) ==> r[b][k] == LevelBranch(p[b], depth, i, k)
  {
    LevelMaskInRange(depth, i);
    var r := Gather(FlatProbabilities(p, NumInternals(depth)), |p|, NumInternals(depth), LevelMask(depth, i));
    forall b, k | 0 <= b < |p| && 0 <= k < NumLeaf(depth) ensures r[b][k] == LevelBranch(p[b], depth, i, k) {
      FlatReadsBranch(p, depth, i, b, k);
    }
    r
  }

  /** The first gather, at mask row 0, is the route after one level. */
  lemma RoutesStart(p: seq<seq<real>>, depth: nat)
    requires forall b :: 0 <= b < |p| ==> |p[b]| == NumInternals(depth)
    ensures Level(p, depth, 0) == PartialRoutes(p, depth, 1)
  {
    var r, s := Level(p, depth, 0), PartialRoutes(p, depth, 1);
    forall b | 0 <= b < |p| ensures r[b] == s[b] {
      assert forall k :: 0 <= k < NumLeaf(depth) ==> r[b][k] == s[b][k];
    }
  }

  /** Multiplying in the gather at mask row `levels` moves every route one level further down. */
  lemma RoutesStep(p: seq<seq<real>>, depth: nat, levels: nat)
    requires forall b :: 0 <= b < |p| ==> |p[b]| == NumInternals(depth)
    requires 1 <= levels <= depth
    ensures Mul(PartialRoutes(p, depth, levels), Level(p, depth, levels)) == PartialRoutes(p, depth, levels + 1)
  {
    var before, taken := PartialRoutes(p, depth, levels), Level(p, depth, levels);
    var r, s := Mul(before, taken), PartialRoutes(p, depth, levels + 1);
    forall b | 0 <= b < |p| ensures r[b] == s[b] {
      forall k | 0 <= k < NumLeaf(depth) ensures r[b][k] == s[b][k] {
        PartialRouteStep(p[b], depth, k, levels);
      }
    }
  }

  /** One more level multiplies the partial route by that level's branch probability. */
  lemma PartialRouteStep(p: seq<real>, depth: nat, k: nat, levels: nat)
    requires |p| == NumInternals(depth) && k < NumLeaf(depth)
    requires 1 <= levels <= depth
    ensures PartialRoute(p, depth, k, levels + 1) == Times(PartialRoute(p, depth, k, levels), LevelBranch(p, depth, levels, k))
  {
  }

  /** Tree j's flat probability vector: `flat_probabilities[j]`. */
  function TreeFlat(sig: seq<seq<real>>, j: nat, numTree: nat, n: nat): (r: seq<real>)
    requires j < numTree
    requires forall b :: 0 <= b < |sig| ==> |sig[b]| == n * numTree
    ensures |r| == RowStart(|sig|, 2 * n)
  {
    RowStartIsProduct(numTree, n);
    FlatProbabilities(TreeBlocks(sig, j, numTree, n), n)
  }

  /** `routes[j]` once `levels` levels have been multiplied in. */
  ghost function RoutesAt(sig: seq<seq<real>>, j: nat, numTree: nat, n: nat, depth: nat, levels: nat): seq<seq<real>>
    requires j < numTree && n == NumInternals(depth) && 1 <= levels <= depth + 1
    requires forall b :: 0 <= b < |sig| ==> |sig[b]| == n * numTree
  {
    RowStartIsProduct(numTree, n);
    PartialRoutes(TreeBlocks(sig, j, numTree, n), depth, levels)
  }

  /** The routes of tree j: for every batch row b and leaf k, the route through tree j's block of row b. */
  ghost function TreeRoutes(sig: seq<seq<real>>, j: nat, numTree: nat, n: nat, depth: nat): (r: seq<seq<real>>)
    requires j < numTree && n == NumInternals(depth)
    requires forall b :: 0 <= b < |sig| ==> |sig[b]| == n * numTree
    ensures |r| == |sig|
    ensures forall b :: 0 <= b < |sig| ==>
      && RowStart(j + 1, n) <= |sig[b]|
      && |r[b]| == NumLeaf(depth)
      && forall k :: 0 <= k < NumLeaf(depth) ==> r[b][k] == Route(TreeBlock(sig[b], j, n), depth, k)
  {
    RoutesAt(sig, j, numTree, n, depth, depth + 1)
  }

  /** The first gather on tree j, stated on the method's own terms. */
  lemma TreeStart(sig: seq<seq<real>>, j: nat, numTree: nat, n: nat, depth: nat, mask: seq<int>)
    requires j < numTree && n == NumInternals(depth) && mask == LevelMask(depth, 0)
    requires forall b :: 0 <= b < |sig| ==> |sig[b]| == n * numTree
    ensures forall k :: 0 <= k < |mask| ==> 0 <= mask[k] < 2 * n
    ensures Gather(TreeFlat(sig, j, numTree, n), |sig|, n, mask) == RoutesAt(sig, j, numTree, n, depth, 1)
  {
    RowStartIsProduct(numTree, n);
    LevelMaskInRange(depth, 0);
    RoutesStart(TreeBlocks(sig, j, numTree, n), depth);
  }

  /** One pass of the inner loop on tree j at level i, stated on the method's own terms. */
  lemma TreeStep(sig: seq<seq<real>>, j: nat, numTree: nat, n: nat, depth: nat, i: nat, mask: seq<int>, routes: seq<seq<real>>)
    requires j < numTree && n == NumInternals(depth) && 1 <= i <= depth && mask == LevelMask(depth, i)
    requires forall b :: 0 <= b < |sig| ==> |sig[b]| == n * numTree
    requires routes == RoutesAt(sig, j, numTree, n, depth, i)
    ensures forall k :: 0 <= k < |mask| ==> 0 <= mask[k] < 2 * n
    ensures var taken := Gather(TreeFlat(sig, j, numTree, n), |sig|, n, mask);
      && |routes| == |taken| && (forall x :: 0 <= x < |routes| ==> |routes[x]| == |taken[x]|)
      && Mul(routes, taken) == RoutesAt(sig, j, numTree, n, depth, i + 1)
  {
    RowStartIsProduct(numTree, n);
    LevelMaskInRange(depth, i);
    RoutesStep(TreeBlocks(sig, j, numTree, n), depth, i);
  }

  /**
   * The routing part of `DNDF.forward` for a batch whose projected and
   * squashed logits are `sig` (one row of num_internals * num_tree values per
   * sample): `routes[j]` is TreeRoutes, the product of the branch
   * probabilities along every leaf's root-to-leaf path in tree j.
   */
  method ForwardRoutes(f: Forest, sig: seq<seq<real>>) returns (routes: seq<seq<seq<real>>>)
    requires Valid(f)
    requires forall b :: 0 <= b < |sig| ==> |sig[b]| == f.treeProj.outDim
    ensures |routes| == f.numTree
    ensures forall j :: 0 <= j < f.numTree ==> routes[j] == TreeRoutes(sig, j, f.numTree, f.numInternals, f.treeDepth)
  {
    var n, depth, numTree := f.numInternals, f.treeDepth, f.numTree;
    var flats := seq(numTree, j requires 0 <= j < numTree => TreeFlat(sig, j, numTree, n));
    forall j | 0 <= j < numTree
      ensures forall k :: 0 <= k < |f.incrementMasks[0]| ==> 0 <= f.incrementMasks[0][k] < 2 * n
      ensures Gather(flats[j], |sig|, n, f.incrementMasks[0]) == RoutesAt(sig, j, numTree, n, depth, 1)
    {
      TreeStart(sig, j, numTree, n, depth, f.incrementMasks[0]);
    }
    routes := seq(numTree, j requires 0 <= j < numTree => Gather(flats[j], |sig|, n, f.incrementMasks[0]));
    for i := 1 to depth + 1
      invariant |routes| == numTree
      invariant forall j :: 0 <= j < numTree ==> routes[j] == RoutesAt(sig, j, numTree, n, depth, i)
    {
      routes := MultiplyLevel(f, sig, flats, routes, i);
    }
  }

  /** One pass of the outer loop: every tree's routes multiplied by what level i gathers from its flat vector. */
  method MultiplyLevel(f: Forest, sig: seq<seq<real>>, flats: seq<seq<real>>, routes: seq<seq<seq<real>>>, i: nat)
    returns (next: seq<seq<seq<real>>>)
    requires Valid(f) && 1 <= i <= f.treeDepth
    requires forall b :: 0 <= b < |sig| ==> |sig[b]| == f.treeProj.outDim
    requires |flats| == f.numTree && forall j :: 0 <= j < f.numTree ==> flats[j] == TreeFlat(sig, j, f.numTree, f.numInternals)
    requires |routes| == f.numTree
    requires forall j :: 0 <= j < f.numTree ==> routes[j] == RoutesAt(sig, j, f.numTree, f.numInternals, f.treeDepth, i)
    ensures |next| == f.numTree
    ensures forall j :: 0 <= j < f.numTree ==> next[j] == RoutesAt(sig, j, f.numTree, f.numInternals, f.treeDepth, i + 1)
  {
    var n, depth, numTree, mask := f.numInternals, f.treeDepth, f.numTree, f.incrementMasks[i];
    next := routes;
    for j := 0 to numTree
      invariant |next| == numTree
      invariant forall j' :: 0 <= j' < numTree ==> next[j'] == RoutesAt(sig, j', numTree, n, depth, if j' < j then i + 1 else i)
    {
      TreeStep(sig, j, numTree, n, depth, i, mask, next[j]);
      next := next[j := Mul(next[j], Gather(flats[j], |sig|, n, mask))];
    }
  }

  /** Every gather index `b * 2n + increment_masks[i][k]` stays inside the flat vector of a batch of `batch` rows. */
  lemma GatherIndexInBounds(depth: nat, batch: nat, b: nat, i: nat, k: nat)
    requires b < batch && i <= depth && k < NumLeaf(depth)
    ensures b * (2 * NumInternals(depth)) + MaskEntry(depth, i, k) < batch * (2 * NumInternals(depth))
  {
    var n := NumInternals(depth);
    MaskEntryInRange(depth, i, k);
    RowStartBelow(b, MaskEntry(depth, i, k), 2 * n, batch);
    RowStartIsProduct(b, 2 * n);
    RowStartIsProduct(batch, 2 * n);
  }
}
