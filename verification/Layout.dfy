/** Layout of the kept-operator graph (app/services/mappers/layout.py) and the
    input/output wrapping of app/services/mappers/architecture_mapper.py. */
module Layout {
  import opened Collections
  import opened Digraph
  import opened Options

  const GRID_THRESHOLD := 4

  ghost function EdgeSet(edges: seq<(string, string)>): Edges { set p | p in edges }

  /** What the mapper hands over: ids in topological order, edges among them. */
  ghost predicate Input(ids: seq<string>, edges: seq<(string, string)>) {
    && NoRepeats(ids)
    && (forall a, b :: (a, b) in edges ==> a in ids && b in ids)
    && Forward(EdgeSet(edges), ids)
  }

  // ── depth ────────────────────────────────────────────────────────────────

  method Predecessors(ids: seq<string>, edges: seq<(string, string)>) returns (preds: map<string, seq<string>>)
    ensures preds.Keys == SetOf(ids)
    ensures forall p, n :: n in preds ==> (p in preds[n] <==> (p, n) in edges && p in ids)
  {
    preds := map n | n in ids :: [];
    for i := 0 to |edges|
      invariant preds.Keys == SetOf(ids)
      invariant forall p, n :: n in preds ==> (p in preds[n] <==> (p, n) in edges[..i] && p in ids)
    {
      assert edges[..i + 1] == edges[..i] + [edges[i]];
      var (source, target) := edges[i];
      if source in preds && target in preds {
        preds := preds[target := preds[target] + [source]];
      }
    }
    assert edges[..|edges|] == edges;
  }

  method MaxDepth(ps: seq<string>, depth: map<string, nat>) returns (m: nat)
    requires ps != [] && forall p :: p in ps ==> p in depth
    ensures (exists p :: p in ps && depth[p] == m) && forall p :: p in ps ==> depth[p] <= m
  {
    m := depth[ps[0]];
    for i := 1 to |ps|
      invariant (exists p :: p in ps && depth[p] == m) && forall k :: 0 <= k < i ==> depth[ps[k]] <= m
    {
      assert ps[i] in ps;
      if depth[ps[i]] > m { m := depth[ps[i]]; }
    }
  }

  /** One above the deepest predecessor, or 0 without any. */
  ghost predicate OneAbove(e: Edges, depth: map<string, nat>, n: string)
    requires n in depth
  {
    && (forall p :: (p, n) in e ==> p in depth && depth[p] < depth[n])
    && (depth[n] > 0 ==> exists p :: (p, n) in e && p in depth && depth[p] + 1 == depth[n])
  }

  /** Depth of one node whose predecessors are done. */
  method NodeDepth(ghost e: Edges, n: string, ps: seq<string>, depth: map<string, nat>) returns (d: nat)
    requires n !in depth && (forall p :: p in ps ==> p in depth) && (forall p :: (p, n) in e <==> p in ps)
    ensures OneAbove(e, depth[n := d], n)
  {
    if ps == [] {
      return 0;
    }
    var m := MaxDepth(ps, depth);
    d := m + 1;
    var p :| p in ps && depth[p] == m;
    assert (p, n) in e;
  }

  lemma OneAboveStays(e: Edges, depth: map<string, nat>, n: string, d: nat, k: string)
    requires n !in depth && k in depth && OneAbove(e, depth, k)
    ensures OneAbove(e, depth[n := d], k)
  {
    if depth[k] > 0 {
      var p :| (p, k) in e && p in depth && depth[p] + 1 == depth[k];
      assert depth[n := d][p] + 1 == depth[n := d][k];
    }
  }

  lemma DepthAdded(e: Edges, depth: map<string, nat>, n: string, d: nat)
    requires n !in depth && OneAbove(e, depth[n := d], n)
    requires forall k {:trigger OneAbove(e, depth, k)} :: k in depth ==> OneAbove(e, depth, k)
    ensures forall k {:trigger OneAbove(e, depth[n := d], k)} :: k in depth[n := d] ==> OneAbove(e, depth[n := d], k)
  {
    forall k | k in depth ensures OneAbove(e, depth[n := d], k) { OneAboveStays(e, depth, n, d, k); }
  }

  method Depths(ids: seq<string>, edges: seq<(string, string)>) returns (depth: map<string, nat>)
    requires Input(ids, edges)
    ensures AllOneAbove(EdgeSet(edges), ids, depth)
  {
    var preds := Predecessors(ids, edges);
    depth := map[];
    for i := 0 to |ids|
      invariant AllOneAbove(EdgeSet(edges), ids[..i], depth)
    {
      PredsDone(ids, edges, preds, i);
      var d := NodeDepth(EdgeSet(edges), ids[i], preds[ids[i]], depth);
      DepthAdded(EdgeSet(edges), depth, ids[i], d);
      assert ids[..i + 1] == ids[..i] + [ids[i]];
      depth := depth[ids[i] := d];
    }
    assert ids[..|ids|] == ids;
  }

  lemma PredsDone(ids: seq<string>, edges: seq<(string, string)>, preds: map<string, seq<string>>, i: nat)
    requires Input(ids, edges) && i < |ids| && preds.Keys == SetOf(ids)
    requires forall p, n :: n in preds ==> (p in preds[n] <==> (p, n) in edges && p in ids)
    ensures ids[i] in preds && ids[i] !in ids[..i]
    ensures forall p :: p in preds[ids[i]] ==> p in ids[..i]
    ensures forall p :: (p, ids[i]) in EdgeSet(edges) <==> p in preds[ids[i]]
  {
    forall p | p in preds[ids[i]] ensures p in ids[..i] { PredIsDone(ids, edges, i, p); }
  }

  lemma PredIsDone(ids: seq<string>, edges: seq<(string, string)>, i: nat, p: string)
    requires Input(ids, edges) && i < |ids| && (p, ids[i]) in edges
    ensures p in ids[..i]
  {
    assert (p, ids[i]) in EdgeSet(edges);
    var k :| 0 <= k < |ids| && ids[k] == p;
    assert k < i;
  }

  ghost predicate AllOneAbove(e: Edges, ids: seq<string>, depth: map<string, nat>) {
    depth.Keys == SetOf(ids) && forall n {:trigger OneAbove(e, depth, n)} :: n in depth ==> OneAbove(e, depth, n)
  }

  /** The simple definition: the longest path that ends at `n`. */
  ghost predicate IsLongest(e: Edges, n: string, d: nat) {
    && (forall p :: IsPath(e, p) && p[|p| - 1] == n ==> |p| - 1 <= d)
    && (exists p :: IsPath(e, p) && p[|p| - 1] == n && |p| - 1 == d)
  }

  lemma {:induction false} PathsBounded(e: Edges, ids: seq<string>, depth: map<string, nat>, p: seq<string>)
    requires AllOneAbove(e, ids, depth) && IsPath(e, p) && p[|p| - 1] in ids
    ensures |p| - 1 <= depth[p[|p| - 1]]
    decreases |p|
  {
    if |p| > 1 {
      var q := p[..|p| - 1];
      SubPath(e, p, 0, |p| - 1);
      assert p[0..|p| - 1] == q;
      assert (q[|q| - 1], p[|p| - 1]) in e;
      assert OneAbove(e, depth, p[|p| - 1]);
      PathsBounded(e, ids, depth, q);
    }
  }

  /** A path as long as the depth, starting at a source. */
  lemma {:induction false} DeepPath(e: Edges, ids: seq<string>, depth: map<string, nat>, n: string)
    returns (p: seq<string>)
    requires AllOneAbove(e, ids, depth) && n in ids
    ensures IsPath(e, p) && p[|p| - 1] == n && |p| - 1 == depth[n]
    ensures p[0] in ids && depth[p[0]] == 0
    decreases depth[n]
  {
    assert OneAbove(e, depth, n);
    if depth[n] == 0 {
      p := [n];
    } else {
      var u :| (u, n) in e && u in depth && depth[u] + 1 == depth[n];
      var q := DeepPath(e, ids, depth, u);
      p := q + [n];
      forall i | 0 <= i < |p| - 1 ensures (p[i], p[i + 1]) in e {
        if i < |q| - 1 { assert (q[i], q[i + 1]) in e; }
      }
    }
  }

  /** The computed depth is the longest-path length. */
  lemma DepthIsLongest(e: Edges, ids: seq<string>, depth: map<string, nat>, n: string)
    requires AllOneAbove(e, ids, depth) && n in ids
    ensures IsLongest(e, n, depth[n])
  {
    forall p | IsPath(e, p) && p[|p| - 1] == n ensures |p| - 1 <= depth[n] {
      PathsBounded(e, ids, depth, p);
    }
    var p := DeepPath(e, ids, depth, n);
  }

  // ── placement within a level ─────────────────────────────────────────────

  datatype NodePos = NodePos(depth: nat, col: real, zCol: Option<real>)

  /** Least `c` with `c * c >= k`. */
  function CeilSqrt(k: nat, c: nat): (r: nat)
    requires c == 0 || (c - 1) * (c - 1) < k
    ensures r * r >= k && (r > 0 ==> (r - 1) * (r - 1) < k)
    decreases k - c
  {
    if c * c >= k then c
    else
      assert c < k by { if c >= k { SquareAbove(c, k); } }
      CeilSqrt(k, c + 1)
  }

  lemma SquareAbove(c: nat, k: nat)
    requires c >= k
    ensures c * c >= k
  {
    if c > 0 { assert c * c >= c * 1; }
  }

  /** Symmetric offset of slot `i` of `k`. */
  function Offset(i: nat, k: nat): real { (i as real - (k as real - 1.0) / 2.0) * 3.4 }

  /** Slot `i` of a level with `k` members: a row, or a near-square grid. */
  function Place(d: nat, k: nat, i: nat): NodePos
    requires i < k
  {
    if k == 1 then NodePos(d, 0.0, None)
    else if k <= GRID_THRESHOLD then NodePos(d, Offset(i, k), None)
    else
      var cols := CeilSqrt(k, 0);
      assert cols > 0;
      var rows := (k + cols - 1) / cols;
      NodePos(d, Offset(i % cols, cols), Some(Offset(i / cols, rows)))
  }

  lemma OffsetInjective(i: nat, j: nat, k: nat)
    requires Offset(i, k) == Offset(j, k)
    ensures i == j
  {
  }

  lemma CellInjective(i: nat, j: nat, cols: nat)
    requires cols > 0 && i % cols == j % cols && i / cols == j / cols
    ensures i == j
  {
    assert i == cols * (i / cols) + i % cols;
    assert j == cols * (j / cols) + j % cols;
  }

  /** Two slots of one level never share a place. */
  lemma PlaceInjective(d: nat, k: nat, i: nat, j: nat)
    requires i < k && j < k && Place(d, k, i) == Place(d, k, j)
    ensures i == j
  {
    if k > GRID_THRESHOLD {
      var cols := CeilSqrt(k, 0);
      var rows := (k + cols - 1) / cols;
      OffsetInjective(i % cols, j % cols, cols);
      OffsetInjective(i / cols, j / cols, rows);
      CellInjective(i, j, cols);
    } else if k > 1 {
      OffsetInjective(i, j, k);
    }
  }

  /** Rows are symmetric about 0, and rounding to 3 decimals changes nothing. */
  lemma RowSymmetric(d: nat, k: nat, i: nat)
    requires i < k <= 4
    ensures Place(d, k, i).depth == d && Place(d, k, i).zCol == None
    ensures Place(d, k, i).col == -Place(d, k, k - 1 - i).col
    ensures Centred(Place(d, k, i).col, i, k)
  {
  }

  /** Row `r`, column `c` of the grid of `k` cells holds cell `i`: the fewest columns
      that make a square large enough, as many rows as that takes, filled in turn. */
  ghost predicate Cell(k: nat, i: nat, cols: nat, rows: nat, r: nat, c: nat) {
    && cols * cols >= k && (cols - 1) * (cols - 1) < k
    && (rows - 1) * cols < k <= rows * cols
    && i == r * cols + c && c < cols && r < rows
  }

  /** Slot `i` of `k` slots 3.4 apart and centred on 0, exact at three decimals. */
  ghost predicate Centred(x: real, i: nat, k: nat) { x * 1000.0 == (1700 * (2 * i - k + 1)) as real }

  /** A larger level is a grid, filled row by row and centred both ways. */
  lemma GridExact(d: nat, k: nat, i: nat) returns (cols: nat, rows: nat, r: nat, c: nat)
    requires i < k && k > 4
    ensures Cell(k, i, cols, rows, r, c)
    ensures Place(d, k, i).depth == d && Place(d, k, i).zCol.Some?
    ensures Centred(Place(d, k, i).col, c, cols) && Centred(Place(d, k, i).zCol.value, r, rows)
  {
    cols, rows, r, c := GridPlace(d, k, i);
    OffsetExact(c, cols);
    OffsetExact(r, rows);
  }

  lemma GridPlace(d: nat, k: nat, i: nat) returns (cols: nat, rows: nat, r: nat, c: nat)
    requires i < k && k > 4
    ensures Cell(k, i, cols, rows, r, c)
    ensures Place(d, k, i) == NodePos(d, Offset(c, cols), Some(Offset(r, rows)))
  {
    cols := CeilSqrt(k, 0);
    rows := (k + cols - 1) / cols;
    r, c := i / cols, i % cols;
    GridRows(k, cols, rows);
    GridCell(i, k, cols, rows, r, c);
  }

  lemma GridRows(k: nat, cols: nat, rows: nat)
    requires cols > 0 && k > 0 && rows == (k + cols - 1) / cols
    ensures (rows - 1) * cols < k <= rows * cols
  {
    var rest := (k + cols - 1) % cols;
    assert k + cols - 1 == rows * cols + rest;
    assert (rows - 1) * cols == rows * cols - cols;
  }

  lemma GridCell(i: nat, k: nat, cols: nat, rows: nat, r: nat, c: nat)
    requires cols > 0 && i < k <= rows * cols && r == i / cols && c == i % cols
    ensures i == r * cols + c && c < cols && r < rows
  {
    assert i == r * cols + c;
    Wider(rows, r, cols);
  }

  lemma Wider(a: nat, b: nat, cols: nat)
    ensures a <= b ==> a * cols <= b * cols
  {
  }

  lemma OffsetExact(i: nat, k: nat)
    ensures Centred(Offset(i, k), i, k)
  {
  }

  // ── levels ───────────────────────────────────────────────────────────────

  /** Members of level `d` among `ids`, in order. */
  function Level(ids: seq<string>, depth: map<string, nat>, d: nat): seq<string> {
    if ids == [] then []
    else
      var rest := Level(ids[..|ids| - 1], depth, d);
      var n := ids[|ids| - 1];
      if n in depth && depth[n] == d then rest + [n] else rest
  }

  lemma {:induction false} LevelExact(ids: seq<string>, depth: map<string, nat>, d: nat)
    requires NoRepeats(ids)
    ensures NoRepeats(Level(ids, depth, d))
    ensures forall n :: n in Level(ids, depth, d) <==> n in ids && n in depth && depth[n] == d
  {
    if ids != [] {
      var init := ids[..|ids| - 1];
      var last := ids[|ids| - 1];
      assert NoRepeats(init);
      LevelExact(init, depth, d);
      assert last !in init;
      assert ids == init + [last];
    }
  }

  /** A level lists its members in the order of the ids. */
  lemma {:induction false} LevelInOrder(ids: seq<string>, depth: map<string, nat>, d: nat) returns (at: seq<nat>)
    ensures |at| == |Level(ids, depth, d)|
    ensures forall k :: 0 <= k < |at| ==> at[k] < |ids| && ids[at[k]] == Level(ids, depth, d)[k]
    ensures forall k, m :: 0 <= k < m < |at| ==> at[k] < at[m]
  {
    if ids == [] {
      at := [];
    } else {
      var n := |ids| - 1;
      at := LevelInOrder(ids[..n], depth, d);
      if ids[n] in depth && depth[ids[n]] == d { at := at + [n]; }
    }
  }

  /** The dictionary holds exactly the non-empty levels. */
  ghost predicate Grouped(ids: seq<string>, depth: map<string, nat>, levels: map<nat, seq<string>>) {
    forall d :: if d in levels then Level(ids, depth, d) == levels[d] != [] else Level(ids, depth, d) == []
  }

  lemma {:induction false} LevelInhabited(ids: seq<string>, depth: map<string, nat>, d: nat)
    requires forall n :: n in ids ==> n in depth
    ensures Level(ids, depth, d) != [] <==> exists n :: n in ids && depth[n] == d
  {
    if ids != [] {
      var init, last := ids[..|ids| - 1], ids[|ids| - 1];
      assert ids == init + [last];
      LevelInhabited(init, depth, d);
      assert forall n :: n in ids <==> n in init || n == last;
    }
  }

  method Levels(ids: seq<string>, depth: map<string, nat>) returns (levels: map<nat, seq<string>>, order: seq<nat>)
    requires forall n :: n in ids ==> n in depth
    ensures NoRepeats(order) && forall n :: n in ids ==> depth[n] in order
    ensures forall d :: d in order ==> d in levels && levels[d] == Level(ids, depth, d)
  {
    levels, order := map[], [];
    for i := 0 to |ids|
      invariant NoRepeats(order) && (forall d :: d in order <==> d in levels)
      invariant Grouped(ids[..i], depth, levels)
    {
      assert ids[..i + 1] == ids[..i] + [ids[i]] && ids[i] in ids;
      var d := depth[ids[i]];
      if d in levels {
        levels := levels[d := levels[d] + [ids[i]]];
      } else {
        levels := levels[d := [ids[i]]];
        order := order + [d];
      }
    }
    assert ids[..|ids|] == ids;
    forall n | n in ids ensures depth[n] in order { LevelInhabited(ids, depth, depth[n]); }
  }

  /** `n` sits in slot `i` of its level. */
  ghost predicate Placed(ids: seq<string>, depth: map<string, nat>, n: string, at: NodePos)
    requires n in depth
  {
    var members := Level(ids, depth, depth[n]);
    exists i :: 0 <= i < |members| && members[i] == n && at == Place(depth[n], |members|, i)
  }

  /** The nodes of these levels are placed, and only they. */
  ghost predicate Placing(ids: seq<string>, depth: map<string, nat>, done: seq<nat>, pos: map<string, NodePos>)
    requires depth.Keys == SetOf(ids)
  {
    && (forall n :: n in pos <==> n in ids && depth[n] in done)
    && forall n :: n in pos ==> Placed(ids, depth, n, pos[n])
  }

  method PlaceLevel(ids: seq<string>, depth: map<string, nat>, ghost done: seq<nat>, d: nat, members: seq<string>,
                    pos: map<string, NodePos>)
    returns (pos': map<string, NodePos>)
    requires NoRepeats(ids) && depth.Keys == SetOf(ids) && members == Level(ids, depth, d) && d !in done
    requires Placing(ids, depth, done, pos)
    ensures Placing(ids, depth, done + [d], pos')
  {
    LevelExact(ids, depth, d);
    pos' := pos;
    for i := 0 to |members|
      invariant forall n :: n in pos' <==> n in pos || n in members[..i]
      invariant forall n :: n in pos' ==> n in depth && Placed(ids, depth, n, pos'[n])
    {
      assert members[..i + 1] == members[..i] + [members[i]];
      assert members[i] in members;
      var at := Place(d, |members|, i);
      assert Placed(ids, depth, members[i], at);
      pos' := pos'[members[i] := at];
    }
    assert members[..|members|] == members;
  }

  ghost predicate AllPlaced(ids: seq<string>, depth: map<string, nat>, pos: map<string, NodePos>) {
    && pos.Keys == SetOf(ids) && depth.Keys == SetOf(ids)
    && forall n :: n in pos ==> Placed(ids, depth, n, pos[n])
  }

  method PlaceAll(ids: seq<string>, depth: map<string, nat>) returns (pos: map<string, NodePos>)
    requires NoRepeats(ids) && depth.Keys == SetOf(ids)
    ensures AllPlaced(ids, depth, pos)
  {
    var levels, order := Levels(ids, depth);
    pos := map[];
    for t := 0 to |order|
      invariant Placing(ids, depth, order[..t], pos)
    {
      assert order[..t + 1] == order[..t] + [order[t]];
      pos := PlaceLevel(ids, depth, order[..t], order[t], levels[order[t]], pos);
    }
    assert order[..|order|] == order;
  }

  function DepthsOf(pos: map<string, NodePos>): map<string, nat> { map n | n in pos :: pos[n].depth }

  /** `compute_layout`: every node gets its longest-path depth and a place of its
      own. */
  method ComputeLayout(ids: seq<string>, edges: seq<(string, string)>) returns (pos: map<string, NodePos>)
    requires Input(ids, edges)
    ensures pos.Keys == SetOf(ids)
    ensures forall n :: n in ids ==> IsLongest(EdgeSet(edges), n, pos[n].depth)
    ensures forall a, b :: a in ids && b in ids && a != b ==> pos[a] != pos[b]
    ensures AllOneAbove(EdgeSet(edges), ids, DepthsOf(pos))
    ensures AllPlaced(ids, DepthsOf(pos), pos)
  {
    var depth := Depths(ids, edges);
    pos := PlaceAll(ids, depth);
    assert DepthsOf(pos) == depth by {
      forall n | n in ids ensures pos[n].depth == depth[n] { assert Placed(ids, depth, n, pos[n]); }
    }
    forall n | n in ids ensures IsLongest(EdgeSet(edges), n, pos[n].depth) {
      DepthIsLongest(EdgeSet(edges), ids, depth, n);
      assert Placed(ids, depth, n, pos[n]);
    }
    forall a, b | a in ids && b in ids && a != b ensures pos[a] != pos[b] {
      PlacedApart(ids, depth, a, b, pos[a], pos[b]);
    }
  }

  lemma PlacedApart(ids: seq<string>, depth: map<string, nat>, a: string, b: string, x: NodePos, y: NodePos)
    requires a in depth && b in depth && a != b && Placed(ids, depth, a, x) && Placed(ids, depth, b, y)
    ensures x != y
  {
    var ms, ns := Level(ids, depth, depth[a]), Level(ids, depth, depth[b]);
    var i :| 0 <= i < |ms| && ms[i] == a && x == Place(depth[a], |ms|, i);
    var j :| 0 <= j < |ns| && ns[j] == b && y == Place(depth[b], |ns|, j);
    if x == y { PlaceInjective(depth[a], |ms|, i, j); }
  }

  // ── the synthetic input and output ───────────────────────────────────────

  const INPUT := "input"
  const OUTPUT := "output"

  predicate HasPred(edges: seq<(string, string)>, n: string) { exists k :: 0 <= k < |edges| && edges[k].1 == n }
  predicate HasSucc(edges: seq<(string, string)>, n: string) { exists k :: 0 <= k < |edges| && edges[k].0 == n }

  /** The final edge list: input to every source, every sink to output. */
  method WrapEdges(ids: seq<string>, edges: seq<(string, string)>) returns (all: seq<(string, string)>)
    ensures Wrapped(ids, edges, all)
  {
    var sources, sinks := [], [];
    for i := 0 to |ids|
      invariant forall a, b :: (a, b) in sources <==> a == INPUT && b in ids[..i] && !HasPred(edges, b)
      invariant forall a, b :: (a, b) in sinks <==> a in ids[..i] && !HasSucc(edges, a) && b == OUTPUT
    {
      assert ids[..i + 1] == ids[..i] + [ids[i]];
      if !HasPred(edges, ids[i]) { sources := sources + [(INPUT, ids[i])]; }
      if !HasSucc(edges, ids[i]) { sinks := sinks + [(ids[i], OUTPUT)]; }
    }
    assert ids[..|ids|] == ids;
    all := sources + edges + sinks;
  }

  ghost predicate Wrapped(ids: seq<string>, edges: seq<(string, string)>, all: seq<(string, string)>) {
    forall a, b :: (a, b) in all <==>
      || (a == INPUT && b in ids && !HasPred(edges, b))
      || (a, b) in edges
      || (a in ids && !HasSucc(edges, a) && b == OUTPUT)
  }

  /** A drawn node: its name and the depth it is shown at. */
  type Drawn = (string, nat)

  /** Input at 0, operators one below their layout depth, output below everything. */
  method DrawNodes(ids: seq<string>, pos: map<string, NodePos>) returns (nodes: seq<Drawn>)
    requires forall n :: n in ids ==> n in pos
    ensures DrawnAs(ids, DepthsOf(pos), nodes)
  {
    nodes := [(INPUT, 0)];
    var bottom: nat := 0;
    for i := 0 to |ids|
      invariant |nodes| == i + 1 && nodes[0] == (INPUT, 0)
      invariant forall k :: 0 <= k < i ==> nodes[k + 1] == (ids[k], pos[ids[k]].depth + 1)
      invariant forall k :: 0 <= k < i ==> pos[ids[k]].depth + 1 <= bottom
    {
      assert ids[i] in ids;
      nodes := nodes + [(ids[i], pos[ids[i]].depth + 1)];
      if pos[ids[i]].depth + 1 > bottom { bottom := pos[ids[i]].depth + 1; }
    }
    nodes := nodes + [(OUTPUT, bottom + 1)];
    ghost var depth := DepthsOf(pos);
    forall v ensures v in nodes <==> v == (INPUT, 0) || v == (OUTPUT, bottom + 1) || Operator(ids, depth, v) {
      if Operator(ids, depth, v) {
        var k :| 0 <= k < |ids| && ids[k] == v.0;
        assert nodes[k + 1] == v;
      }
      if v in nodes {
        var k :| 0 <= k < |nodes| && nodes[k] == v;
        if 0 < k <= |ids| { assert v.0 == ids[k - 1]; }
      }
      assert nodes[0] == (INPUT, 0) && nodes[|ids| + 1] == (OUTPUT, bottom + 1);
    }
    forall n | n in ids ensures depth[n] + 1 <= bottom {
      var k :| 0 <= k < |ids| && ids[k] == n;
    }
    assert Bottom(ids, depth, bottom, nodes);
  }

  ghost predicate Operator(ids: seq<string>, depth: map<string, nat>, v: Drawn) {
    v.0 in ids && v.0 in depth && v.1 == depth[v.0] + 1
  }

  ghost predicate Bottom(ids: seq<string>, depth: map<string, nat>, bottom: nat, nodes: seq<Drawn>) {
    && (forall n :: n in ids ==> n in depth && depth[n] + 1 <= bottom)
    && forall v :: v in nodes <==> v == (INPUT, 0) || v == (OUTPUT, bottom + 1) || Operator(ids, depth, v)
  }

  ghost predicate DrawnAs(ids: seq<string>, depth: map<string, nat>, nodes: seq<Drawn>) {
    exists bottom :: Bottom(ids, depth, bottom, nodes)
  }

  /** Every edge leads from any node drawn under its first name to a strictly
      deeper one under its second. */
  ghost predicate Deepens(nodes: seq<Drawn>, all: seq<(string, string)>) {
    forall u, v :: u in nodes && v in nodes && (u.0, v.0) in all ==> u.1 < v.1
  }

  /** Edges deepen if and only if no operator is called like the two synthetic
      nodes: such an operator is drawn under a name that is already taken, and the
      edges of the two cannot be told apart. */
  lemma EdgesDeepenIff(ids: seq<string>, edges: seq<(string, string)>, all: seq<(string, string)>,
                       depth: map<string, nat>, nodes: seq<Drawn>)
    requires Input(ids, edges) && AllOneAbove(EdgeSet(edges), ids, depth) && Wrapped(ids, edges, all)
    requires DrawnAs(ids, depth, nodes)
    ensures Deepens(nodes, all) <==> INPUT !in ids && OUTPUT !in ids
  {
    var bottom :| Bottom(ids, depth, bottom, nodes);
    if INPUT in ids {
      InputTaken(ids, edges, all, depth, bottom, nodes);
    } else if OUTPUT in ids {
      OutputTaken(ids, edges, all, depth, bottom, nodes);
    } else {
      forall u, v | u in nodes && v in nodes && (u.0, v.0) in all ensures u.1 < v.1 {
        if (u.0, v.0) in edges { assert (u.0, v.0) in EdgeSet(edges) && OneAbove(EdgeSet(edges), depth, v.0); }
      }
    }
  }

  /** An operator called "input" sits no higher than the sources input feeds. */
  lemma InputTaken(ids: seq<string>, edges: seq<(string, string)>, all: seq<(string, string)>,
                   depth: map<string, nat>, bottom: nat, nodes: seq<Drawn>)
    requires Input(ids, edges) && AllOneAbove(EdgeSet(edges), ids, depth) && Wrapped(ids, edges, all)
    requires Bottom(ids, depth, bottom, nodes) && INPUT in ids
    ensures !Deepens(nodes, all)
  {
    var p := DeepPath(EdgeSet(edges), ids, depth, INPUT);
    SourceHasNoPred(ids, edges, depth, p[0]);
    var u, v := (INPUT, depth[INPUT] + 1), (p[0], 1);
    assert Operator(ids, depth, u) && Operator(ids, depth, v);
    assert (u.0, v.0) in all && u in nodes && v in nodes;
  }

  /** An operator called "output" sits no lower than the sinks that feed output. */
  lemma OutputTaken(ids: seq<string>, edges: seq<(string, string)>, all: seq<(string, string)>,
                    depth: map<string, nat>, bottom: nat, nodes: seq<Drawn>)
    requires Input(ids, edges) && AllOneAbove(EdgeSet(edges), ids, depth) && Wrapped(ids, edges, all)
    requires Bottom(ids, depth, bottom, nodes) && OUTPUT in ids
    ensures !Deepens(nodes, all)
  {
    var i :| 0 <= i < |ids| && ids[i] == OUTPUT;
    var p := DownToSink(ids, edges, i);
    var sink := p[|p| - 1];
    DepthAlongPath(edges, ids, depth, p);
    var u, v := (sink, depth[sink] + 1), (OUTPUT, depth[OUTPUT] + 1);
    assert Operator(ids, depth, u) && Operator(ids, depth, v);
    assert (u.0, v.0) in all && u in nodes && v in nodes;
  }

  lemma {:induction false} DepthAlongPath(edges: seq<(string, string)>, ids: seq<string>, depth: map<string, nat>,
                                          p: seq<string>)
    requires AllOneAbove(EdgeSet(edges), ids, depth) && IsPath(EdgeSet(edges), p) && p[|p| - 1] in ids
    ensures p[0] in depth && depth[p[0]] <= depth[p[|p| - 1]]
    decreases |p|
  {
    if |p| > 1 {
      var q := p[..|p| - 1];
      SubPath(EdgeSet(edges), p, 0, |p| - 1);
      assert p[0..|p| - 1] == q;
      assert (q[|q| - 1], p[|p| - 1]) in EdgeSet(edges);
      assert OneAbove(EdgeSet(edges), depth, p[|p| - 1]);
      DepthAlongPath(edges, ids, depth, q);
    }
  }

  /** `n` lies on a drawn path from input to output. */
  ghost predicate OnPath(all: seq<(string, string)>, n: string) {
    exists p :: IsPath(EdgeSet(all), p) && p[0] == INPUT && p[|p| - 1] == OUTPUT && n in p
  }

  /** From every operator some sink is reachable. */
  lemma {:induction false} DownToSink(ids: seq<string>, edges: seq<(string, string)>, i: nat) returns (p: seq<string>)
    requires Input(ids, edges) && i < |ids|
    ensures IsPath(EdgeSet(edges), p) && p[0] == ids[i] && p[|p| - 1] in ids && !HasSucc(edges, p[|p| - 1])
    decreases |ids| - i
  {
    if HasSucc(edges, ids[i]) {
      var k :| 0 <= k < |edges| && edges[k].0 == ids[i];
      assert (ids[i], edges[k].1) in edges;
      var j :| 0 <= j < |ids| && ids[j] == edges[k].1;
      assert (ids[i], ids[j]) in EdgeSet(edges);
      var q := DownToSink(ids, edges, j);
      p := [ids[i]] + q;
      forall m | 0 <= m < |p| - 1 ensures (p[m], p[m + 1]) in EdgeSet(edges) {
        if m > 0 { assert (q[m - 1], q[m]) in EdgeSet(edges); }
      }
    } else {
      p := [ids[i]];
    }
  }

  /** Every operator lies on a path from input to output. */
  lemma OnInputOutputPath(ids: seq<string>, edges: seq<(string, string)>, all: seq<(string, string)>,
                          depth: map<string, nat>, n: string) returns (p: seq<string>)
    requires Input(ids, edges) && AllOneAbove(EdgeSet(edges), ids, depth) && Wrapped(ids, edges, all) && n in ids
    ensures IsPath(EdgeSet(all), p) && p[0] == INPUT && p[|p| - 1] == OUTPUT && n in p
  {
    var e := EdgeSet(edges);
    var up := DeepPath(e, ids, depth, n);
    var i :| 0 <= i < |ids| && ids[i] == n;
    var down := DownToSink(ids, edges, i);
    PathConcat(e, up, down);
    var mid := up + down[1..];
    assert n == up[|up| - 1] && n in mid;
    assert mid[|mid| - 1] == down[|down| - 1];
    SourceHasNoPred(ids, edges, depth, mid[0]);
    p := [INPUT] + mid + [OUTPUT];
    assert n in p;
    forall m | 0 <= m < |p| - 1 ensures (p[m], p[m + 1]) in EdgeSet(all) {
      if m == 0 {
        assert (INPUT, mid[0]) in all;
      } else if m == |p| - 2 {
        assert p[m] == mid[|mid| - 1] && (p[m], OUTPUT) in all;
      } else {
        assert (mid[m - 1], mid[m]) in e;
        assert (p[m], p[m + 1]) in edges;
      }
    }
  }

  lemma SourceHasNoPred(ids: seq<string>, edges: seq<(string, string)>, depth: map<string, nat>, s: string)
    requires Input(ids, edges) && AllOneAbove(EdgeSet(edges), ids, depth) && s in ids && depth[s] == 0
    ensures !HasPred(edges, s)
  {
    assert OneAbove(EdgeSet(edges), depth, s);
    forall k | 0 <= k < |edges| ensures edges[k].1 != s {
      assert edges[k] in EdgeSet(edges) && edges[k] == (edges[k].0, edges[k].1);
    }
  }
}
