/** The two-objective search geometry of astra/search/pareto_search.py: the
    dominated-hypervolume sweep, the 2-D filter in front of it and the Pareto
    front of the recorded trials.

    Coordinates are integers on a grid of any fineness; the hypervolume is then
    the number of unit cells of the reference box that some point dominates. */
module Hypervolume {
  import opened Collections

  datatype Point = Point(x: int, y: int)

  // ── the simple definition ────────────────────────────────────────────────

  /** The cell with lower-left corner (i, j) lies in the union of the boxes. */
  predicate Covered(pts: seq<Point>, i: int, j: int) {
    exists k :: 0 <= k < |pts| && pts[k].x <= i && pts[k].y <= j
  }

  /** Dominated cells of the reference box in columns below `w`. */
  ghost function Cells(pts: seq<Point>, w: nat, h: nat): set<(int, int)> {
    set i, j | 0 <= i < w && 0 <= j < h && Covered(pts, i, j) :: (i, j)
  }

  ghost function Area(pts: seq<Point>, w: nat, h: nat): nat {
    |Cells(pts, w, h)|
  }

  function Min(a: int, b: int): int { if a <= b then a else b }

  function Clip(p: Point, w: nat, h: nat): Point {
    Point(if p.x < 0 then 0 else Min(p.x, w), if p.y < 0 then 0 else Min(p.y, h))
  }

  /** Clipping into the box changes no cell of it. */
  lemma ClipKeepsCells(pts: seq<Point>, clipped: seq<Point>, w: nat, h: nat)
    requires |clipped| == |pts| && forall k :: 0 <= k < |pts| ==> clipped[k] == Clip(pts[k], w, h)
    ensures Cells(clipped, w, h) == Cells(pts, w, h)
  {
    forall i, j | 0 <= i < w && 0 <= j < h ensures Covered(clipped, i, j) <==> Covered(pts, i, j) {
      if Covered(pts, i, j) {
        var k :| 0 <= k < |pts| && pts[k].x <= i && pts[k].y <= j;
        assert clipped[k].x <= i && clipped[k].y <= j;
      }
      if Covered(clipped, i, j) {
        var k :| 0 <= k < |clipped| && clipped[k].x <= i && clipped[k].y <= j;
        assert pts[k].x <= i && pts[k].y <= j;
      }
    }
  }

  // ── counting by columns ──────────────────────────────────────────────────

  /** Height of the uncovered part of column `i`: the lowest reaching point. */
  function Floor(pts: seq<Point>, i: int, h: nat): int {
    if pts == [] then h
    else
      var rest := Floor(pts[..|pts| - 1], i, h);
      var p := pts[|pts| - 1];
      if p.x <= i then Min(rest, p.y) else rest
  }

  lemma {:induction false} FloorSplits(pts: seq<Point>, i: int, h: nat, j: int)
    requires j < h
    ensures Floor(pts, i, h) <= h
    ensures Floor(pts, i, h) <= j <==> Covered(pts, i, j)
  {
    if pts != [] {
      var init := pts[..|pts| - 1];
      var p := pts[|pts| - 1];
      FloorSplits(init, i, h, j);
      if Covered(init, i, j) {
        var k :| 0 <= k < |init| && init[k].x <= i && init[k].y <= j;
        assert pts[k].x <= i && pts[k].y <= j;
      }
      if Covered(pts, i, j) && !(p.x <= i && p.y <= j) {
        var k :| 0 <= k < |pts| && pts[k].x <= i && pts[k].y <= j;
        assert init[k].x <= i && init[k].y <= j;
      }
    }
  }

  ghost function Column(i: int, lo: int, h: nat): set<(int, int)>
  {
    set j | lo <= j < h :: (i, j)
  }

  lemma {:induction false} ColumnSize(i: int, lo: int, h: nat)
    requires 0 <= lo <= h
    ensures |Column(i, lo, h)| == h - lo
    decreases h - lo
  {
    if lo == h {
      assert Column(i, lo, h) == {};
    } else {
      ColumnSize(i, lo + 1, h);
      assert Column(i, lo, h) == {(i, lo)} + Column(i, lo + 1, h);
    }
  }

  /** One more column adds the covered part above its floor. */
  lemma AreaStep(pts: seq<Point>, w: nat, h: nat)
    requires forall k :: 0 <= k < |pts| ==> 0 <= pts[k].y
    ensures 0 <= Floor(pts, w, h) <= h
    ensures Area(pts, w + 1, h) == Area(pts, w, h) + h - Floor(pts, w, h)
  {
    FloorNonnegative(pts, w, h);
    var lo := Floor(pts, w, h);
    forall j | 0 <= j < h ensures lo <= j <==> Covered(pts, w, j) { FloorSplits(pts, w, h, j); }
    assert Cells(pts, w + 1, h) == Cells(pts, w, h) + Column(w, lo, h) by {
      forall c | c in Cells(pts, w + 1, h) ensures c in Cells(pts, w, h) + Column(w, lo, h) {
        if c.0 == w { assert lo <= c.1; }
      }
    }
    assert Cells(pts, w, h) !! Column(w, lo, h);
    ColumnSize(w, lo, h);
  }

  lemma {:induction false} FloorNonnegative(pts: seq<Point>, i: int, h: nat)
    requires forall k :: 0 <= k < |pts| ==> 0 <= pts[k].y
    ensures 0 <= Floor(pts, i, h) <= h
  {
    if pts != [] { FloorNonnegative(pts[..|pts| - 1], i, h); }
  }

  /** Columns `first` up to `last` share the floor `lo`. */
  lemma {:induction false} AreaStrip(pts: seq<Point>, first: nat, last: nat, h: nat, lo: int)
    requires forall k :: 0 <= k < |pts| ==> 0 <= pts[k].y
    requires first <= last && forall i :: first <= i < last ==> Floor(pts, i, h) == lo
    ensures Area(pts, last, h) == Area(pts, first, h) + (last - first) * (h - lo)
    decreases last
  {
    if first < last {
      AreaStrip(pts, first, last - 1, h, lo);
      AreaStep(pts, last - 1, h);
      OneMore(last - 1 - first, h - lo);
    }
  }

  lemma OneMore(n: int, d: int)
    ensures (n + 1) * d == n * d + d
  {
  }

  // ── the sweep ────────────────────────────────────────────────────────────

  predicate SortedByX(pts: seq<Point>) {
    forall a, b :: 0 <= a < b < |pts| ==> pts[a].x <= pts[b].x
  }

  predicate InBox(pts: seq<Point>, w: nat, h: nat) {
    forall k :: 0 <= k < |pts| ==> 0 <= pts[k].x <= w && 0 <= pts[k].y <= h
  }

  /** Between two neighbouring points of the sorted set the floor is the running
      minimum of the heights seen so far. */
  lemma {:induction false} FloorOfPrefix(pts: seq<Point>, n: nat, i: int, h: nat)
    requires n <= |pts| && SortedByX(pts)
    requires n > 0 ==> pts[n - 1].x <= i
    requires n < |pts| ==> i < pts[n].x
    ensures Floor(pts, i, h) == Floor(pts[..n], i, h)
    decreases |pts|
  {
    if n < |pts| {
      var init := pts[..|pts| - 1];
      assert pts[|pts| - 1].x > i;
      FloorOfPrefix(init, n, i, h);
      assert init[..n] == pts[..n];
    } else {
      assert pts[..n] == pts;
    }
  }

  /** Every point of the prefix reaches column `i`, so only heights matter. */
  lemma {:induction false} FloorOfReached(pts: seq<Point>, i: int, i': int, h: nat)
    requires forall k :: 0 <= k < |pts| ==> pts[k].x <= i && pts[k].x <= i'
    ensures Floor(pts, i, h) == Floor(pts, i', h)
  {
    if pts != [] { FloorOfReached(pts[..|pts| - 1], i, i', h); }
  }

  /** The sweep over points sorted by x (any sort order among equal x). */
  method Sweep(pts: seq<Point>, w: nat, h: nat) returns (hv: int)
    requires InBox(pts, w, h) && SortedByX(pts)
    ensures hv == Area(pts, w, h)
  {
    hv := 0;
    var yMin: int := h;
    ghost var done: nat := if |pts| > 0 then pts[0].x else w;
    for i := 0 to |pts|
      invariant done == if i < |pts| then pts[i].x else w
      invariant yMin == Floor(pts[..i], w, h)
      invariant hv == Area(pts, done, h)
    {
      yMin := Min(yMin, pts[i].y);
      assert pts[..i + 1][..i] == pts[..i];
      assert yMin == Floor(pts[..i + 1], w, h);
      var xNext := if i + 1 < |pts| then pts[i + 1].x else w;
      var dx := xNext - pts[i].x;
      forall c | done <= c < xNext ensures Floor(pts, c, h) == yMin {
        FloorOfPrefix(pts, i + 1, c, h);
        FloorOfReached(pts[..i + 1], c, w, h);
      }
      AreaStrip(pts, done, xNext, h, yMin);
      if dx > 0 {
        hv := hv + dx * (h - yMin);
      }
      done := xNext;
    }
  }

  // ── the 2-D filter ───────────────────────────────────────────────────────

  predicate Dominates(q: Point, p: Point) {
    q.x <= p.x && q.y <= p.y && (q.x < p.x || q.y < p.y)
  }

  predicate Beaten(pts: seq<Point>, p: Point) {
    exists k :: 0 <= k < |pts| && Dominates(pts[k], p)
  }

  /** The undominated points among the first `n`, in input order. */
  function Undominated(pts: seq<Point>, n: nat): seq<Point>
    requires n <= |pts|
  {
    if n == 0 then []
    else if Beaten(pts, pts[n - 1]) then Undominated(pts, n - 1)
    else Undominated(pts, n - 1) + [pts[n - 1]]
  }

  lemma {:induction false} UndominatedExact(pts: seq<Point>, n: nat)
    requires n <= |pts|
    ensures forall p :: p in Undominated(pts, n) <==> p in pts[..n] && !Beaten(pts, p)
  {
    if n > 0 {
      UndominatedExact(pts, n - 1);
      assert pts[..n] == pts[..n - 1] + [pts[n - 1]];
    }
  }

  /** Below every point lies an undominated one: descend while dominated. */
  lemma {:induction false} UndominatedBelow(pts: seq<Point>, p: Point, lo: int) returns (q: Point)
    requires p in pts && forall r :: r in pts ==> lo <= r.x && lo <= r.y
    ensures q in pts && !Beaten(pts, q) && q.x <= p.x && q.y <= p.y
    decreases p.x - lo + p.y - lo
  {
    if Beaten(pts, p) {
      var k :| 0 <= k < |pts| && Dominates(pts[k], p);
      assert pts[k] in pts;
      q := UndominatedBelow(pts, pts[k], lo);
    } else {
      q := p;
    }
  }

  lemma {:induction false} LowerBound(pts: seq<Point>) returns (lo: int)
    ensures forall r :: r in pts ==> lo <= r.x && lo <= r.y
  {
    if pts == [] {
      lo := 0;
    } else {
      var rest := LowerBound(pts[1..]);
      lo := Min(rest, Min(pts[0].x, pts[0].y));
      forall r | r in pts ensures lo <= r.x && lo <= r.y {
        if r != pts[0] { assert r in pts[1..]; }
      }
    }
  }

  /** A point of the input is kept if and only if no other point of the input is at
      most as large in both coordinates. */
  lemma KeptUnbeaten(pts: seq<Point>, p: Point)
    ensures p in Undominated(pts, |pts|) <==>
            p in pts && forall q :: q in pts && q.x <= p.x && q.y <= p.y ==> q == p
  {
    UndominatedExact(pts, |pts|);
    assert pts[..|pts|] == pts;
    if q :| q in pts && q.x <= p.x && q.y <= p.y && q != p {
      var k :| 0 <= k < |pts| && pts[k] == q;
      assert Dominates(pts[k], p);
    }
    if Beaten(pts, p) {
      var k :| 0 <= k < |pts| && Dominates(pts[k], p);
      assert pts[k] in pts;
    }
  }

  method ParetoFilter(pts: seq<Point>) returns (kept: seq<Point>)
    ensures kept == Undominated(pts, |pts|)
    ensures pts != [] ==> kept != []
  {
    var keep := [];
    for i := 0 to |pts|
      invariant keep == Undominated(pts, i)
    {
      var dominated := false;
      for j := 0 to |pts|
        invariant dominated <==> exists k :: 0 <= k < j && Dominates(pts[k], pts[i])
      {
        if i != j && Dominates(pts[j], pts[i]) {
          dominated := true;
        }
      }
      if !dominated {
        keep := keep + [pts[i]];
      }
    }
    if pts != [] {
      var lo := LowerBound(pts);
      var q := UndominatedBelow(pts, pts[0], lo);
      UndominatedExact(pts, |pts|);
      assert pts[..|pts|] == pts;
      assert q in keep;
    }
    kept := if keep != [] then keep else pts[..Min(1, |pts|)];
  }

  /** The filter keeps the union of boxes, hence the hypervolume. */
  lemma FilterKeepsCells(pts: seq<Point>, w: nat, h: nat)
    ensures Cells(Undominated(pts, |pts|), w, h) == Cells(pts, w, h)
  {
    var kept := Undominated(pts, |pts|);
    UndominatedExact(pts, |pts|);
    assert pts[..|pts|] == pts;
    var lo := LowerBound(pts);
    forall i, j | 0 <= i < w && 0 <= j < h ensures Covered(kept, i, j) <==> Covered(pts, i, j) {
      if Covered(kept, i, j) {
        var k :| 0 <= k < |kept| && kept[k].x <= i && kept[k].y <= j;
        assert kept[k] in kept;
        var m :| 0 <= m < |pts| && pts[m] == kept[k];
      }
      if Covered(pts, i, j) {
        var k :| 0 <= k < |pts| && pts[k].x <= i && pts[k].y <= j;
        assert pts[k] in pts;
        var q := UndominatedBelow(pts, pts[k], lo);
        assert q in kept;
        var m :| 0 <= m < |kept| && kept[m] == q;
      }
    }
  }

  /** What is left after the filter is a staircase: nobody dominates anybody. */
  lemma FilterLeavesStaircase(pts: seq<Point>, p: Point, q: Point)
    requires p in Undominated(pts, |pts|) && q in Undominated(pts, |pts|)
    ensures !Dominates(p, q)
  {
    UndominatedExact(pts, |pts|);
    assert pts[..|pts|] == pts;
    var k :| 0 <= k < |pts| && pts[k] == p;
  }

  // ── the whole computation ────────────────────────────────────────────────

  /** `order` is what argsort answered: a permutation that sorts by x. */
  ghost predicate IsArgsort(order: seq<nat>, pts: seq<Point>) {
    && |order| == |pts|
    && (forall a :: 0 <= a < |order| ==> order[a] < |pts|)
    && (forall k :: 0 <= k < |pts| ==> k in order)
    && (forall a, b :: 0 <= a < b < |order| && order[a] < |pts| && order[b] < |pts| ==>
        pts[order[a]].x <= pts[order[b]].x)
  }

  lemma ReorderKeepsCells(pts: seq<Point>, order: seq<nat>, sorted: seq<Point>, w: nat, h: nat)
    requires IsArgsort(order, pts)
    requires |sorted| == |pts| && forall a :: 0 <= a < |pts| ==> sorted[a] == pts[order[a]]
    ensures Cells(sorted, w, h) == Cells(pts, w, h)
  {
    forall i, j ensures Covered(sorted, i, j) <==> Covered(pts, i, j) {
      if Covered(sorted, i, j) {
        var a :| 0 <= a < |sorted| && sorted[a].x <= i && sorted[a].y <= j;
        assert pts[order[a]] == sorted[a];
      }
      if Covered(pts, i, j) {
        var k :| 0 <= k < |pts| && pts[k].x <= i && pts[k].y <= j;
        assert k in order;
        var a :| 0 <= a < |order| && order[a] == k;
        assert sorted[a] == pts[k];
      }
    }
  }

  /** The points as the sweep sees them: clipped into the box, then filtered. */
  function Prepared(losses: seq<Point>, w: nat, h: nat): seq<Point> {
    var clipped := seq(|losses|, k requires 0 <= k < |losses| => Clip(losses[k], w, h));
    Undominated(clipped, |clipped|)
  }

  /** `_dominated_hv_2d` with its own sweep: for any losses, clipped or not, and
      any valid argsort, the result is the area they dominate inside the box. */
  method DominatedHv(losses: seq<Point>, w: nat, h: nat, order: seq<nat>) returns (hv: int)
    requires IsArgsort(order, Prepared(losses, w, h))
    ensures hv == Area(losses, w, h)
  {
    var clipped := seq(|losses|, k requires 0 <= k < |losses| => Clip(losses[k], w, h));
    var kept := ParetoFilter(clipped);
    var sorted := seq(|kept|, a requires 0 <= a < |kept| => kept[order[a]]);
    ClipKeepsCells(losses, clipped, w, h);
    FilterKeepsCells(clipped, w, h);
    ReorderKeepsCells(kept, order, sorted, w, h);
    UndominatedExact(clipped, |clipped|);
    forall a | 0 <= a < |sorted| ensures 0 <= sorted[a].x <= w && 0 <= sorted[a].y <= h {
      assert kept[order[a]] in kept;
      assert sorted[a] in clipped[..|clipped|];
      var k :| 0 <= k < |clipped| && clipped[k] == sorted[a];
    }
    hv := Sweep(sorted, w, h);
  }

  /** Adding a point never lowers the hypervolume. */
  lemma AddingNeverLowers(pts: seq<Point>, p: Point, w: nat, h: nat)
    ensures Area(pts, w, h) <= Area(pts + [p], w, h)
  {
    assert Cells(pts, w, h) <= Cells(pts + [p], w, h) by {
      forall i, j | 0 <= i < w && 0 <= j < h && Covered(pts, i, j) ensures Covered(pts + [p], i, j) {
        var k :| 0 <= k < |pts| && pts[k].x <= i && pts[k].y <= j;
        assert (pts + [p])[k] == pts[k];
      }
    }
    SubsetSize(Cells(pts, w, h), Cells(pts + [p], w, h));
  }

  /** It rises exactly when the new point covers a cell nobody covered. */
  lemma AddingRaisesIff(pts: seq<Point>, p: Point, w: nat, h: nat)
    ensures Area(pts, w, h) < Area(pts + [p], w, h)
            <==> exists i, j :: 0 <= i < w && 0 <= j < h && p.x <= i && p.y <= j && !Covered(pts, i, j)
  {
    var a, b := Cells(pts, w, h), Cells(pts + [p], w, h);
    forall i, j ensures Covered(pts + [p], i, j) <==> Covered(pts, i, j) || (p.x <= i && p.y <= j) {
      CoveredSnoc(pts, p, i, j);
    }
    assert a <= b;
    if i, j :| 0 <= i < w && 0 <= j < h && p.x <= i && p.y <= j && !Covered(pts, i, j) {
      assert (i, j) in b && (i, j) !in a;
      SubsetSize(a, b - {(i, j)});
    } else {
      assert a == b;
    }
  }

  lemma CoveredSnoc(pts: seq<Point>, p: Point, i: int, j: int)
    ensures Covered(pts + [p], i, j) <==> Covered(pts, i, j) || (p.x <= i && p.y <= j)
  {
    var all := pts + [p];
    assert all[|pts|] == p;
    if Covered(pts, i, j) {
      var k :| 0 <= k < |pts| && pts[k].x <= i && pts[k].y <= j;
      assert all[k] == pts[k];
    }
    if k :| 0 <= k < |all| && all[k].x <= i && all[k].y <= j && k < |pts| {
      assert pts[k] == all[k];
    }
  }
}
