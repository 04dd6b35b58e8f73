/** Tree pruning (astra/graph/onnx_transformer.py): dropping whole trees from the
    parallel attribute arrays of a tree-ensemble node.

    Evaluation follows the ai.onnx.ml operators TreeEnsembleRegressor and
    TreeEnsembleClassifier with SUM aggregation; which way a branch sends an input
    is an arbitrary function of the node. */
module TreeEnsemble {
  import opened Options

  // ── the ensemble ─────────────────────────────────────────────────────────

  /** A node attribute: absent, or a list that should run parallel to the ids. */
  type Attr<T> = Option<seq<T>>

  /** The `nodes_*` attributes. */
  datatype NodeTable = NodeTable(
    treeIds: Attr<int>, ids: Attr<int>, features: Attr<int>, values: Attr<real>, hitRates: Attr<real>,
    modes: Attr<string>, trueIds: Attr<int>, falseIds: Attr<int>, missing: Attr<int>)

  /** The `target_*` attributes, or the `class_*` attributes. */
  datatype LeafTable = LeafTable(trees: Attr<int>, ids: Attr<int>, targets: Attr<int>, weights: Attr<real>)

  datatype Ensemble = Ensemble(nodes: NodeTable, target: LeafTable, classes: LeafTable)

  /** One position of the parallel `nodes_*` arrays. */
  datatype TreeNode = TreeNode(tree: int, id: int, feature: int, value: real, mode: string, trueId: int, falseId: int,
                               missing: Option<int>)
  /** One position of the parallel `target_*` or `class_*` arrays. */
  datatype Leaf = Leaf(tree: int, id: int, target: int, weight: real)

  // ── masks ────────────────────────────────────────────────────────────────

  function Mask(trees: seq<int>, keep: seq<int>): seq<bool> {
    seq(|trees|, i requires 0 <= i < |trees| => trees[i] in keep)
  }

  function Filtered<T>(xs: seq<T>, mask: seq<bool>): seq<T>
    requires |xs| == |mask|
  {
    if xs == [] then []
    else
      var rest := Filtered(xs[..|xs| - 1], mask[..|xs| - 1]);
      if mask[|xs| - 1] then rest + [xs[|xs| - 1]] else rest
  }

  /** A list of another length than the mask is left alone. */
  function FilterAttr<T>(a: Attr<T>, mask: seq<bool>): Attr<T> {
    if a.Some? && |a.value| == |mask| then Some(Filtered(a.value, mask)) else a
  }

  /** Exactly the masked positions, in order. */
  lemma {:induction false} FilteredExact<T>(xs: seq<T>, mask: seq<bool>) returns (at: seq<nat>)
    requires |xs| == |mask|
    ensures |at| == |Filtered(xs, mask)|
    ensures forall k :: 0 <= k < |at| ==> at[k] < |xs| && mask[at[k]] && Filtered(xs, mask)[k] == xs[at[k]]
    ensures forall k, m :: 0 <= k < m < |at| ==> at[k] < at[m]
    ensures forall i: nat :: i < |xs| && mask[i] ==> i in at
  {
    if xs == [] {
      at := [];
    } else {
      var n := |xs| - 1;
      at := FilteredExact(xs[..n], mask[..n]);
      if mask[n] {
        var before := at;
        at := before + [n];
        assert at[|before|] == n;
        forall i: nat | i < |xs| && mask[i] ensures i in at {
          if i < n { assert mask[..n][i] && i in before; }
        }
      } else {
        assert forall i: nat :: i < |xs| && mask[i] ==> i < n && mask[..n][i];
      }
    }
  }

  /** `_filter_attr` */
  method FilterColumn<T>(a: Attr<T>, mask: seq<bool>) returns (r: Attr<T>)
    ensures a.None? || |a.value| != |mask| ==> r == a
    ensures a.Some? && |a.value| == |mask| ==> r == Some(Filtered(a.value, mask))
    ensures r == FilterAttr(a, mask)
  {
    if a.None? || |a.value| != |mask| { return a; }
    var xs := a.value;
    var kept := [];
    for i := 0 to |xs|
      invariant kept == Filtered(xs[..i], mask[..i])
    {
      assert xs[..i + 1][..i] == xs[..i] && mask[..i + 1][..i] == mask[..i];
      if mask[i] { kept := kept + [xs[i]]; }
    }
    assert xs[..|xs|] == xs && mask[..|mask|] == mask;
    r := Some(kept);
  }

  // ── which trees stay ─────────────────────────────────────────────────────

  ghost predicate Ascending(s: seq<int>) {
    forall i, j :: 0 <= i < j < |s| ==> s[i] < s[j]
  }

  function Insert(s: seq<int>, x: int): (r: seq<int>)
    requires Ascending(s)
    ensures Ascending(r)
    ensures forall t :: t in r <==> t in s || t == x
  {
    if s == [] then [x]
    else if x < s[0] then
      assert forall i :: 0 < i < |s| ==> s[0] < s[i];
      [x] + s
    else if x == s[0] then s
    else
      assert forall t :: t in s[1..] ==> s[0] < t;
      assert forall t :: t in s <==> t == s[0] || t in s[1..];
      var rest := Insert(s[1..], x);
      assert forall i :: 0 <= i < |rest| ==> rest[i] in rest;
      [s[0]] + rest
  }

  /** The distinct members in ascending order, as numpy's `unique` gives them. */
  function Unique(xs: seq<int>): (r: seq<int>)
    ensures Ascending(r)
    ensures forall t :: t in r <==> t in xs
  {
    if xs == [] then [] else Insert(Unique(xs[1..]), xs[0])
  }

  /** What is left of `trees` trees: the share not pruned, rounded down, and never
      none. */
  function KeepCount(trees: nat, ratio: real): nat {
    var n := (trees as real * (1.0 - ratio)).Floor;
    if n < 1 then 1 else n
  }

  /** The trees pruning keeps: all of them, or those with the smallest ids. */
  function KeptTrees(treeIds: seq<int>, ratio: real): seq<int> {
    var all := Unique(treeIds);
    var n := KeepCount(|all|, ratio);
    if ratio <= 0.0 || n >= |all| then all else all[..n]
  }

  /** The share that is not pruned, rounded down, where that is at least one tree,
      and one tree otherwise. */
  lemma KeptShare(treeIds: seq<int>, ratio: real, all: nat, kept: nat, share: real)
    requires 0.0 < ratio && all == |Unique(treeIds)| && kept == |KeptTrees(treeIds, ratio)|
    requires share == all as real * (1.0 - ratio)
    ensures share >= 1.0 ==> kept as real <= share < kept as real + 1.0
    ensures share < 1.0 && treeIds != [] ==> kept == 1
  {
    if treeIds != [] { assert treeIds[0] in Unique(treeIds); }
    assert kept == if KeepCount(all, ratio) >= all then all else KeepCount(all, ratio);
    KeptOf(all, ratio, share, kept);
  }

  lemma KeptOf(all: nat, ratio: real, share: real, kept: nat)
    requires 0.0 < ratio && share == all as real * (1.0 - ratio)
    requires kept == if KeepCount(all, ratio) >= all then all else KeepCount(all, ratio)
    ensures share >= 1.0 ==> kept as real <= share < kept as real + 1.0
    ensures share < 1.0 && all > 0 ==> kept == 1
  {
    KeepCountShare(all, ratio, share);
  }

  lemma KeepCountShare(all: nat, ratio: real, share: real)
    requires 0.0 < ratio && share == all as real * (1.0 - ratio)
    ensures share >= 1.0 ==> KeepCount(all, ratio) as real <= share < KeepCount(all, ratio) as real + 1.0
    ensures share >= 1.0 ==> KeepCount(all, ratio) < all
    ensures share < 1.0 ==> KeepCount(all, ratio) == 1
  {
    ShareBelow(all, ratio);
  }

  lemma ShareBelow(all: nat, ratio: real)
    requires 0.0 < ratio
    ensures all as real * (1.0 - ratio) <= all as real
    ensures all > 0 ==> all as real * (1.0 - ratio) < all as real
  {
    assert all as real * (1.0 - ratio) == all as real - all as real * ratio;
  }

  function RestrictNodes(t: NodeTable, mask: seq<bool>): NodeTable {
    NodeTable(FilterAttr(t.treeIds, mask), FilterAttr(t.ids, mask), FilterAttr(t.features, mask),
              FilterAttr(t.values, mask),
              FilterAttr(t.hitRates, mask), FilterAttr(t.modes, mask), FilterAttr(t.trueIds, mask),
              FilterAttr(t.falseIds, mask), FilterAttr(t.missing, mask))
  }

  function RestrictLeaves(t: LeafTable, keep: seq<int>): LeafTable {
    if t.trees.None? then t
    else
      var mask := Mask(t.trees.value, keep);
      LeafTable(FilterAttr(t.trees, mask), FilterAttr(t.ids, mask), FilterAttr(t.targets, mask),
                FilterAttr(t.weights, mask))
  }

  function Restrict(e: Ensemble, keep: seq<int>): Ensemble
    requires e.nodes.treeIds.Some?
  {
    Ensemble(RestrictNodes(e.nodes, Mask(e.nodes.treeIds.value, keep)),
             RestrictLeaves(e.target, keep), RestrictLeaves(e.classes, keep))
  }

  function Pruned(e: Ensemble, ratio: real): Ensemble {
    if ratio <= 0.0 || e.nodes.treeIds.None? then e
    else
      var all := Unique(e.nodes.treeIds.value);
      if KeepCount(|all|, ratio) >= |all| then e
      else Restrict(e, KeptTrees(e.nodes.treeIds.value, ratio))
  }

  method FilterLeafTable(t: LeafTable, keep: seq<int>) returns (r: LeafTable)
    ensures r == RestrictLeaves(t, keep)
  {
    if t.trees.None? { return t; }
    var mask := Mask(t.trees.value, keep);
    var trees := FilterColumn(t.trees, mask);
    var ids := FilterColumn(t.ids, mask);
    var targets := FilterColumn(t.targets, mask);
    var weights := FilterColumn(t.weights, mask);
    r := LeafTable(trees, ids, targets, weights);
  }

  /** The node found in the model, whose attributes are rewritten in place. */
  class EnsembleNode {
    var nodes: NodeTable
    var target: LeafTable
    var classes: LeafTable

    ghost function Attributes(): Ensemble
      reads this
    {
      Ensemble(nodes, target, classes)
    }

    constructor (e: Ensemble)
      ensures Attributes() == e
    {
      nodes, target, classes := e.nodes, e.target, e.classes;
    }

    method FilterNodes(mask: seq<bool>)
      modifies `nodes
      ensures nodes.treeIds == FilterAttr(old(nodes.treeIds), mask) && nodes.ids == FilterAttr(old(nodes.ids), mask)
      ensures nodes.features == FilterAttr(old(nodes.features), mask)
      ensures nodes.values == FilterAttr(old(nodes.values), mask)
      ensures nodes.hitRates == FilterAttr(old(nodes.hitRates), mask)
      ensures nodes.modes == FilterAttr(old(nodes.modes), mask)
      ensures nodes.trueIds == FilterAttr(old(nodes.trueIds), mask)
      ensures nodes.falseIds == FilterAttr(old(nodes.falseIds), mask)
      ensures nodes.missing == FilterAttr(old(nodes.missing), mask)
      ensures nodes == RestrictNodes(old(nodes), mask)
    {
      var treeIds := FilterColumn(nodes.treeIds, mask);
      var ids := FilterColumn(nodes.ids, mask);
      var features := FilterColumn(nodes.features, mask);
      var values := FilterColumn(nodes.values, mask);
      var hitRates := FilterColumn(nodes.hitRates, mask);
      var modes := FilterColumn(nodes.modes, mask);
      var trueIds := FilterColumn(nodes.trueIds, mask);
      var falseIds := FilterColumn(nodes.falseIds, mask);
      var missing := FilterColumn(nodes.missing, mask);
      nodes := NodeTable(treeIds, ids, features, values, hitRates, modes, trueIds, falseIds, missing);
    }

    /** `_apply_tree_pruning` */
    method ApplyTreePruning(ratio: real)
      modifies this
      ensures Attributes() == Pruned(old(Attributes()), ratio)
    {
      if ratio <= 0.0 { return; }
      if nodes.treeIds.None? { return; }
      var treeIds := nodes.treeIds.value;
      var unique := Unique(treeIds);
      var keepCount := KeepCount(|unique|, ratio);
      if keepCount >= |unique| { return; }
      var keep := unique[..keepCount];
      FilterNodes(Mask(treeIds, keep));
      target := FilterLeafTable(target, keep);
      classes := FilterLeafTable(classes, keep);
    }
  }

  // ── meaning ──────────────────────────────────────────────────────────────

  ghost predicate Parallel<T>(a: Attr<T>, n: nat) { a.Some? && |a.value| == n }

  /** All required node arrays present and parallel, as the operator demands;
      hit rates and missing-value flags may be absent. */
  ghost predicate AlignedNodes(t: NodeTable) {
    && t.treeIds.Some?
    && var n := |t.treeIds.value|;
       && Parallel(t.ids, n) && Parallel(t.features, n) && Parallel(t.values, n) && Parallel(t.modes, n)
       && Parallel(t.trueIds, n) && Parallel(t.falseIds, n)
       && (t.hitRates.None? || Parallel(t.hitRates, n)) && (t.missing.None? || Parallel(t.missing, n))
  }

  /** The whole table absent, or all four arrays parallel. */
  ghost predicate AlignedLeaves(t: LeafTable) {
    if t.trees.None? then t.ids.None? && t.targets.None? && t.weights.None?
    else
      Parallel(t.ids, |t.trees.value|) && Parallel(t.targets, |t.trees.value|) && Parallel(t.weights, |t.trees.value|)
  }

  ghost predicate Aligned(e: Ensemble) {
    AlignedNodes(e.nodes) && AlignedLeaves(e.target) && AlignedLeaves(e.classes)
  }

  ghost function NodeAt(t: NodeTable, i: nat): TreeNode
    requires AlignedNodes(t) && i < |t.treeIds.value|
  {
    TreeNode(t.treeIds.value[i], t.ids.value[i], t.features.value[i], t.values.value[i], t.modes.value[i],
             t.trueIds.value[i], t.falseIds.value[i], if t.missing.None? then None else Some(t.missing.value[i]))
  }

  ghost function LeafAt(t: LeafTable, i: nat): Leaf
    requires AlignedLeaves(t) && t.trees.Some? && i < |t.trees.value|
  {
    Leaf(t.trees.value[i], t.ids.value[i], t.targets.value[i], t.weights.value[i])
  }

  ghost function Nodes(t: NodeTable): seq<TreeNode>
    requires AlignedNodes(t)
  {
    seq(|t.treeIds.value|, i requires 0 <= i < |t.treeIds.value| => NodeAt(t, i))
  }

  ghost function Leaves(t: LeafTable): seq<Leaf>
    requires AlignedLeaves(t)
  {
    if t.trees.None? then []
    else seq(|t.trees.value|, i requires 0 <= i < |t.trees.value| => LeafAt(t, i))
  }

  ghost function Find(nodes: seq<TreeNode>, tree: int, id: int): Option<TreeNode> {
    if nodes == [] then None
    else if nodes[0].tree == tree && nodes[0].id == id then Some(nodes[0])
    else Find(nodes[1..], tree, id)
  }

  /** The root of a tree is the first node listed for it. */
  ghost function Root(nodes: seq<TreeNode>, tree: int): Option<TreeNode> {
    if nodes == [] then None else if nodes[0].tree == tree then Some(nodes[0]) else Root(nodes[1..], tree)
  }

  /** The leaf an input ends in, within `fuel` steps. */
  ghost function Descend(nodes: seq<TreeNode>, branch: TreeNode -> bool, tree: int, at: Option<TreeNode>,
                         fuel: nat): Option<TreeNode>
    decreases fuel
  {
    if at.None? then None
    else if at.value.mode == "LEAF" then at
    else if fuel == 0 then None
    else Descend(nodes, branch, tree, Find(nodes, tree, if branch(at.value) then at.value.trueId else at.value.falseId),
                 fuel - 1)
  }

  ghost function WeightSum(leaves: seq<Leaf>, tree: int, id: int, target: int): real {
    if leaves == [] then 0.0
    else (if leaves[0].tree == tree && leaves[0].id == id && leaves[0].target == target then leaves[0].weight else 0.0)
         + WeightSum(leaves[1..], tree, id, target)
  }

  /** What one tree contributes to a target. */
  ghost function TreeOutput(nodes: seq<TreeNode>, leaves: seq<Leaf>, branch: TreeNode -> bool, tree: int, fuel: nat,
                            target: int): real
  {
    var end := Descend(nodes, branch, tree, Root(nodes, tree), fuel);
    if end.None? then 0.0 else WeightSum(leaves, tree, end.value.id, target)
  }

  /** SUM aggregation over a list of trees. */
  ghost function Output(nodes: seq<TreeNode>, leaves: seq<Leaf>, branch: TreeNode -> bool, trees: seq<int>, fuel: nat,
                        target: int): real
  {
    if trees == [] then 0.0
    else
      TreeOutput(nodes, leaves, branch, trees[0], fuel, target)
      + Output(nodes, leaves, branch, trees[1..], fuel, target)
  }

  // ── pruning keeps the rest exact ─────────────────────────────────────────

  ghost function KeepNodes(nodes: seq<TreeNode>, keep: seq<int>): seq<TreeNode> {
    if nodes == [] then []
    else if nodes[0].tree in keep then [nodes[0]] + KeepNodes(nodes[1..], keep)
    else KeepNodes(nodes[1..], keep)
  }

  ghost function KeepLeaves(leaves: seq<Leaf>, keep: seq<int>): seq<Leaf> {
    if leaves == [] then []
    else if leaves[0].tree in keep then [leaves[0]] + KeepLeaves(leaves[1..], keep)
    else KeepLeaves(leaves[1..], keep)
  }

  lemma {:induction false} FindKept(nodes: seq<TreeNode>, keep: seq<int>, tree: int, id: int)
    requires tree in keep
    ensures Find(KeepNodes(nodes, keep), tree, id) == Find(nodes, tree, id)
    ensures Root(KeepNodes(nodes, keep), tree) == Root(nodes, tree)
  {
    if nodes != [] {
      FindKept(nodes[1..], keep, tree, id);
      if nodes[0].tree in keep {
        assert ([nodes[0]] + KeepNodes(nodes[1..], keep))[1..] == KeepNodes(nodes[1..], keep);
      }
    }
  }

  lemma {:induction false} DescendKept(nodes: seq<TreeNode>, keep: seq<int>, branch: TreeNode -> bool, tree: int,
                                       at: Option<TreeNode>, fuel: nat)
    requires tree in keep
    ensures Descend(KeepNodes(nodes, keep), branch, tree, at, fuel) == Descend(nodes, branch, tree, at, fuel)
    decreases fuel
  {
    if at.Some? && at.value.mode != "LEAF" && fuel > 0 {
      var id := if branch(at.value) then at.value.trueId else at.value.falseId;
      FindKept(nodes, keep, tree, id);
      DescendKept(nodes, keep, branch, tree, Find(nodes, tree, id), fuel - 1);
    }
  }

  lemma {:induction false} WeightKept(leaves: seq<Leaf>, keep: seq<int>, tree: int, id: int, target: int)
    requires tree in keep
    ensures WeightSum(KeepLeaves(leaves, keep), tree, id, target) == WeightSum(leaves, tree, id, target)
  {
    if leaves != [] {
      WeightKept(leaves[1..], keep, tree, id, target);
      if leaves[0].tree in keep {
        assert ([leaves[0]] + KeepLeaves(leaves[1..], keep))[1..] == KeepLeaves(leaves[1..], keep);
      }
    }
  }

  lemma {:induction false} OutputKept(nodes: seq<TreeNode>, leaves: seq<Leaf>, keep: seq<int>, branch: TreeNode -> bool,
                                      trees: seq<int>, fuel: nat, target: int)
    requires forall t :: t in trees ==> t in keep
    ensures Output(KeepNodes(nodes, keep), KeepLeaves(leaves, keep), branch, trees, fuel, target)
         == Output(nodes, leaves, branch, trees, fuel, target)
  {
    if trees != [] {
      assert trees[0] in trees;
      FindKept(nodes, keep, trees[0], 0);
      DescendKept(nodes, keep, branch, trees[0], Root(nodes, trees[0]), fuel);
      var end := Descend(nodes, branch, trees[0], Root(nodes, trees[0]), fuel);
      if end.Some? { WeightKept(leaves, keep, trees[0], end.value.id, target); }
      OutputKept(nodes, leaves, keep, branch, trees[1..], fuel, target);
    }
  }

  // the parallel arrays against the list of nodes

  /** Positions that survive a mask, in order. */
  ghost function Kept(mask: seq<bool>): (at: seq<nat>)
    ensures forall i :: 0 <= i < |at| ==> at[i] < |mask|
  {
    if mask == [] then []
    else
      var rest := Kept(mask[..|mask| - 1]);
      if mask[|mask| - 1] then rest + [|mask| - 1] else rest
  }

  /** Every parallel array keeps the same positions. */
  lemma {:induction false} FilteredAt<T>(xs: seq<T>, mask: seq<bool>)
    requires |xs| == |mask|
    ensures |Filtered(xs, mask)| == |Kept(mask)|
    ensures forall i :: 0 <= i < |Kept(mask)| ==> Filtered(xs, mask)[i] == xs[Kept(mask)[i]]
  {
    if xs != [] { FilteredAt(xs[..|xs| - 1], mask[..|xs| - 1]); }
  }

  lemma {:induction false} KeepNodesSnoc(nodes: seq<TreeNode>, n: TreeNode, keep: seq<int>)
    ensures KeepNodes(nodes + [n], keep) == KeepNodes(nodes, keep) + if n.tree in keep then [n] else []
  {
    if nodes == [] {
      assert [] + [n] == [n] && [n][1..] == [];
    } else {
      assert (nodes + [n])[1..] == nodes[1..] + [n];
      KeepNodesSnoc(nodes[1..], n, keep);
    }
  }

  lemma {:induction false} KeepLeavesSnoc(leaves: seq<Leaf>, n: Leaf, keep: seq<int>)
    ensures KeepLeaves(leaves + [n], keep) == KeepLeaves(leaves, keep) + if n.tree in keep then [n] else []
  {
    if leaves == [] {
      assert [] + [n] == [n] && [n][1..] == [];
    } else {
      assert (leaves + [n])[1..] == leaves[1..] + [n];
      KeepLeavesSnoc(leaves[1..], n, keep);
    }
  }

  lemma {:induction false} KeepNodesIsFilter(nodes: seq<TreeNode>, mask: seq<bool>, keep: seq<int>)
    requires |nodes| == |mask| && forall i :: 0 <= i < |mask| ==> (mask[i] <==> nodes[i].tree in keep)
    ensures KeepNodes(nodes, keep) == Filtered(nodes, mask)
  {
    if nodes != [] {
      var k := |nodes| - 1;
      KeepNodesIsFilter(nodes[..k], mask[..k], keep);
      KeepNodesSnoc(nodes[..k], nodes[k], keep);
      assert nodes == nodes[..k] + [nodes[k]];
    }
  }

  lemma {:induction false} KeepLeavesIsFilter(leaves: seq<Leaf>, mask: seq<bool>, keep: seq<int>)
    requires |leaves| == |mask| && forall i :: 0 <= i < |mask| ==> (mask[i] <==> leaves[i].tree in keep)
    ensures KeepLeaves(leaves, keep) == Filtered(leaves, mask)
  {
    if leaves != [] {
      var k := |leaves| - 1;
      KeepLeavesIsFilter(leaves[..k], mask[..k], keep);
      KeepLeavesSnoc(leaves[..k], leaves[k], keep);
      assert leaves == leaves[..k] + [leaves[k]];
    }
  }

  lemma NodesRestricted(t: NodeTable, keep: seq<int>)
    requires AlignedNodes(t)
    ensures var r := RestrictNodes(t, Mask(t.treeIds.value, keep));
            AlignedNodes(r) && Nodes(r) == KeepNodes(Nodes(t), keep)
  {
    var mask := Mask(t.treeIds.value, keep);
    var r := RestrictNodes(t, mask);
    FilteredAt(t.treeIds.value, mask);
    FilteredAt(t.ids.value, mask);
    FilteredAt(t.features.value, mask);
    FilteredAt(t.values.value, mask);
    FilteredAt(t.modes.value, mask);
    FilteredAt(t.trueIds.value, mask);
    FilteredAt(t.falseIds.value, mask);
    if t.hitRates.Some? { FilteredAt(t.hitRates.value, mask); }
    if t.missing.Some? { FilteredAt(t.missing.value, mask); }
    FilteredAt(Nodes(t), mask);
    KeepNodesIsFilter(Nodes(t), mask, keep);
    assert |Nodes(r)| == |Kept(mask)|;
    forall i | 0 <= i < |Kept(mask)| ensures Nodes(r)[i] == Filtered(Nodes(t), mask)[i] {
      assert Nodes(r)[i] == NodeAt(r, i);
      assert Filtered(Nodes(t), mask)[i] == NodeAt(t, Kept(mask)[i]);
    }
  }

  lemma LeavesRestricted(t: LeafTable, keep: seq<int>)
    requires AlignedLeaves(t)
    ensures AlignedLeaves(RestrictLeaves(t, keep))
    ensures Leaves(RestrictLeaves(t, keep)) == KeepLeaves(Leaves(t), keep)
  {
    if t.trees.Some? {
      var mask := Mask(t.trees.value, keep);
      var r := RestrictLeaves(t, keep);
      FilteredAt(t.trees.value, mask);
      FilteredAt(t.ids.value, mask);
      FilteredAt(t.targets.value, mask);
      FilteredAt(t.weights.value, mask);
      FilteredAt(Leaves(t), mask);
      KeepLeavesIsFilter(Leaves(t), mask, keep);
      forall i | 0 <= i < |Kept(mask)| ensures Leaves(r)[i] == Filtered(Leaves(t), mask)[i] {
        assert Leaves(r)[i] == LeafAt(r, i);
        assert Filtered(Leaves(t), mask)[i] == LeafAt(t, Kept(mask)[i]);
      }
    }
  }

  // ── which trees the pruned arrays mention ────────────────────────────────

  lemma {:induction false} FilteredMembers(trees: seq<int>, mask: seq<bool>, keep: seq<int>)
    requires |mask| == |trees| && forall i :: 0 <= i < |mask| ==> (mask[i] <==> trees[i] in keep)
    ensures forall t :: t in Filtered(trees, mask) <==> t in trees && t in keep
  {
    if trees != [] {
      var k := |trees| - 1;
      FilteredMembers(trees[..k], mask[..k], keep);
      assert trees == trees[..k] + [trees[k]];
    }
  }

  /** An ascending list is determined by its members. */
  lemma {:induction false} AscendingUnique(a: seq<int>, b: seq<int>)
    requires Ascending(a) && Ascending(b) && forall t :: t in a <==> t in b
    ensures a == b
  {
    assert a != [] ==> a[0] in a;
    assert b != [] ==> b[0] in b;
    if a != [] && b != [] {
      assert a[0] in b && b[0] in a;
      assert a[0] == b[0];
      forall t ensures t in a[1..] <==> t in b[1..] {
        assert t in a <==> t == a[0] || t in a[1..];
        assert t in b <==> t == b[0] || t in b[1..];
        assert t in a[1..] ==> t > a[0];
        assert t in b[1..] ==> t > b[0];
      }
      AscendingUnique(a[1..], b[1..]);
    }
  }

  /** The pruned arrays mention exactly the kept trees, which have smaller ids
      than every dropped one; a non-empty ensemble keeps at least one tree. */
  lemma PruningClosed(e: Ensemble, ratio: real)
    requires Aligned(e)
    ensures Aligned(Pruned(e, ratio))
    ensures Unique(Pruned(e, ratio).nodes.treeIds.value) == KeptTrees(e.nodes.treeIds.value, ratio)
    ensures forall l :: l in Leaves(Pruned(e, ratio).target) + Leaves(Pruned(e, ratio).classes) ==>
              l in Leaves(e.target) + Leaves(e.classes)
              && (l.tree in e.nodes.treeIds.value ==> l.tree in KeptTrees(e.nodes.treeIds.value, ratio))
    ensures var keep := KeptTrees(e.nodes.treeIds.value, ratio);
            forall x, y :: x in keep && y in e.nodes.treeIds.value && y !in keep ==> x < y
    ensures e.nodes.treeIds.value != [] ==> KeptTrees(e.nodes.treeIds.value, ratio) != []
  {
    var trees := e.nodes.treeIds.value;
    var all := Unique(trees);
    var n := KeepCount(|all|, ratio);
    if trees != [] { assert trees[0] in all; }
    if ratio > 0.0 && n < |all| {
      var keep := all[..n];
      assert KeptTrees(trees, ratio) == keep;
      NodesRestricted(e.nodes, keep);
      LeavesRestricted(e.target, keep);
      LeavesRestricted(e.classes, keep);
      FilteredMembers(trees, Mask(trees, keep), keep);
      assert forall t :: t in keep ==> t in all;
      AscendingUnique(Unique(Pruned(e, ratio).nodes.treeIds.value), keep);
      KeepLeavesMembers(Leaves(e.target), keep);
      KeepLeavesMembers(Leaves(e.classes), keep);
    }
  }

  lemma {:induction false} KeepLeavesMembers(leaves: seq<Leaf>, keep: seq<int>)
    ensures forall l :: l in KeepLeaves(leaves, keep) <==> l in leaves && l.tree in keep
  {
    if leaves != [] {
      KeepLeavesMembers(leaves[1..], keep);
      assert leaves == [leaves[0]] + leaves[1..];
    }
  }

  // ── what the pruned ensemble computes ────────────────────────────────────

  /** The whole ensemble: the sum over every tree it mentions. */
  ghost function EnsembleOutput(nodes: NodeTable, leaves: LeafTable, branch: TreeNode -> bool, fuel: nat,
                                target: int): real
    requires AlignedNodes(nodes) && AlignedLeaves(leaves)
  {
    Output(Nodes(nodes), Leaves(leaves), branch, Unique(nodes.treeIds.value), fuel, target)
  }

  lemma {:induction false} OutputConcat(nodes: seq<TreeNode>, leaves: seq<Leaf>, branch: TreeNode -> bool,
                                        a: seq<int>, b: seq<int>, fuel: nat, target: int)
    ensures Output(nodes, leaves, branch, a + b, fuel, target)
         == Output(nodes, leaves, branch, a, fuel, target) + Output(nodes, leaves, branch, b, fuel, target)
  {
    if a == [] {
      assert a + b == b;
    } else {
      assert (a + b)[0] == a[0] && (a + b)[1..] == a[1..] + b;
      OutputConcat(nodes, leaves, branch, a[1..], b, fuel, target);
    }
  }

  /** On every input, every target and every class of the pruned ensemble is the
      original's sum over the kept trees; what pruning takes away is exactly the
      original's sum over the dropped ones. */
  lemma PruningIsExact(e: Ensemble, ratio: real, branch: TreeNode -> bool, fuel: nat, target: int)
    requires Aligned(e)
    ensures Aligned(Pruned(e, ratio))
    ensures var p := Pruned(e, ratio);
            var keep := KeptTrees(e.nodes.treeIds.value, ratio);
            var drop := Unique(e.nodes.treeIds.value)[|keep|..];
            && Unique(e.nodes.treeIds.value) == keep + drop
            && EnsembleOutput(p.nodes, p.target, branch, fuel, target)
                 == Output(Nodes(e.nodes), Leaves(e.target), branch, keep, fuel, target)
                 == EnsembleOutput(e.nodes, e.target, branch, fuel, target)
                    - Output(Nodes(e.nodes), Leaves(e.target), branch, drop, fuel, target)
            && EnsembleOutput(p.nodes, p.classes, branch, fuel, target)
                 == Output(Nodes(e.nodes), Leaves(e.classes), branch, keep, fuel, target)
                 == EnsembleOutput(e.nodes, e.classes, branch, fuel, target)
                    - Output(Nodes(e.nodes), Leaves(e.classes), branch, drop, fuel, target)
  {
    var trees := e.nodes.treeIds.value;
    var all := Unique(trees);
    var keep := KeptTrees(trees, ratio);
    var drop := all[|keep|..];
    assert all == keep + drop;
    OutputConcat(Nodes(e.nodes), Leaves(e.target), branch, keep, drop, fuel, target);
    OutputConcat(Nodes(e.nodes), Leaves(e.classes), branch, keep, drop, fuel, target);
    PruningClosed(e, ratio);
    if ratio > 0.0 && KeepCount(|all|, ratio) < |all| {
      NodesRestricted(e.nodes, keep);
      LeavesRestricted(e.target, keep);
      LeavesRestricted(e.classes, keep);
      OutputKept(Nodes(e.nodes), Leaves(e.target), keep, branch, keep, fuel, target);
      OutputKept(Nodes(e.nodes), Leaves(e.classes), keep, branch, keep, fuel, target);
    }
  }
}
