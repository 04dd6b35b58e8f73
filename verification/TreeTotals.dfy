/** What leaf merging does to single trees.  The merge is documented as working
    within each tree (astra/graph/onnx_transformer.py), but it sorts the leaves of
    all trees together, so a group may take from one tree and give to another. */
module TreeTotals {
  import opened Collections
  import opened LeafMerging
  import opened Reals

  /** The values at the marked positions, 0 elsewhere. */
  function Masked(values: seq<real>, mine: seq<bool>): seq<real>
    requires |mine| == |values|
  {
    seq(|values|, k requires 0 <= k < |values| => if mine[k] then values[k] else 0.0)
  }

  function Of(owner: seq<int>, tree: int): seq<bool> {
    seq(|owner|, k requires 0 <= k < |owner| => owner[k] == tree)
  }

  /** The leaf weights of one tree summed; `owner` names each leaf's tree. */
  function TreeTotal(values: seq<real>, owner: seq<int>, tree: int): real
    requires |owner| == |values|
  {
    Sum(Masked(values, Of(owner, tree)))
  }

  // ── in sorted order ──────────────────────────────────────────────────────

  /** Leaves that lie closer than the threshold without being equal share a mark. */
  ghost predicate CloseShare(s: seq<real>, mine: seq<bool>, threshold: real)
    requires |mine| == |s|
  {
    forall i, j :: 0 <= i < |s| && 0 <= j < |s| && s[i] != s[j] && Abs(s[i] - s[j]) < threshold ==> mine[i] == mine[j]
  }

  lemma MaskedSplit(s: seq<real>, mine: seq<bool>, j: nat)
    requires |mine| == |s| && j <= |s|
    ensures Sum(Masked(s, mine)) == Sum(Masked(s[..j], mine[..j])) + Sum(Masked(s[j..], mine[j..]))
  {
    SumConcat(Masked(s[..j], mine[..j]), Masked(s[j..], mine[j..]));
    assert Masked(s, mine) == Masked(s[..j], mine[..j]) + Masked(s[j..], mine[j..]);
  }

  lemma {:induction false} ZeroSum(s: seq<real>)
    requires forall k :: 0 <= k < |s| ==> s[k] == 0.0
    ensures Sum(s) == 0.0
  {
    if s != [] { ZeroSum(s[1..]); }
  }

  /** A group with one mark throughout keeps its marked total. */
  lemma OneMark(s: seq<real>, mine: seq<bool>)
    requires s != [] && |mine| == |s| && forall k :: 0 <= k < |s| ==> mine[k] == mine[0]
    ensures Sum(Masked(Repeat(Mean(s), |s|), mine)) == Sum(Masked(s, mine))
  {
    var group := Repeat(Mean(s), |s|);
    if mine[0] {
      assert Masked(s, mine) == s && Masked(group, mine) == group;
      GroupTotal(s);
    } else {
      ZeroSum(Masked(s, mine));
      ZeroSum(Masked(group, mine));
    }
  }

  lemma MeanOfEqual(s: seq<real>)
    requires s != [] && forall k :: 0 <= k < |s| ==> s[k] == s[0]
    ensures Repeat(Mean(s), |s|) == s
  {
    MeanBounds(s, s[0], s[0]);
  }

  lemma FirstGroupKept(s: seq<real>, mine: seq<bool>, threshold: real)
    requires Ascending(s) && s != [] && threshold > 0.0 && |mine| == |s| && CloseShare(s, mine, threshold)
    ensures var j := GroupEnd(s, threshold, 1);
            Sum(Masked(Repeat(Mean(s[..j]), j), mine[..j])) == Sum(Masked(s[..j], mine[..j]))
  {
    var j := GroupEnd(s, threshold, 1);
    FirstGroup(s, threshold);
    if s[j - 1] == s[0] {
      assert forall k :: 0 <= k < j ==> s[0] <= s[k] <= s[j - 1];
      MeanOfEqual(s[..j]);
    } else {
      assert Abs(s[j - 1] - s[0]) < threshold;
      assert mine[j - 1] == mine[0];
      forall k | 0 <= k < j ensures mine[k] == mine[0] {
        assert s[0] <= s[k] <= s[j - 1];
        if s[k] != s[0] {
          assert Abs(s[k] - s[0]) < threshold;
        } else {
          assert Abs(s[k] - s[j - 1]) < threshold;
        }
      }
      OneMark(s[..j], mine[..j]);
    }
  }

  lemma SameParts(s: seq<real>, out: seq<real>, mine: seq<bool>, j: nat)
    requires |out| == |s| == |mine| && j <= |s|
    requires Sum(Masked(out[..j], mine[..j])) == Sum(Masked(s[..j], mine[..j]))
    requires Sum(Masked(out[j..], mine[j..])) == Sum(Masked(s[j..], mine[j..]))
    ensures Sum(Masked(out, mine)) == Sum(Masked(s, mine))
  {
    MaskedSplit(s, mine, j);
    MaskedSplit(out, mine, j);
  }

  lemma {:induction false} SmoothKeepsMarked(s: seq<real>, mine: seq<bool>, threshold: real)
    requires Ascending(s) && threshold > 0.0 && |mine| == |s| && CloseShare(s, mine, threshold)
    ensures |Smooth(s, threshold)| == |s|
    ensures Sum(Masked(Smooth(s, threshold), mine)) == Sum(Masked(s, mine))
    decreases |s|
  {
    SmoothLength(s, threshold);
    if s != [] {
      var j := GroupEnd(s, threshold, 1);
      FirstGroupKept(s, mine, threshold);
      SmoothKeepsMarked(s[j..], mine[j..], threshold);
      SameParts(s, Smooth(s, threshold), mine, j);
    }
  }

  ghost predicate Separated(s: seq<real>, threshold: real) {
    forall i, j :: 0 <= i < |s| && 0 <= j < |s| ==> s[i] == s[j] || Abs(s[i] - s[j]) >= threshold
  }

  lemma PartsSeparated(s: seq<real>, j: nat, threshold: real)
    requires Ascending(s) && 0 < j <= |s| && threshold > 0.0
    requires (forall k :: 0 <= k < j ==> s[k] == s[0]) && Separated(s[j..], threshold)
    requires j < |s| ==> Abs(s[j] - s[0]) >= threshold
    ensures Separated(s, threshold)
  {
    forall a, b | 0 <= a < |s| && 0 <= b < |s| ensures s[a] == s[b] || Abs(s[a] - s[b]) >= threshold {
      if a >= j && b >= j { assert s[a] == s[j..][a - j] && s[b] == s[j..][b - j]; }
    }
  }

  /** If smoothing moves nothing, distinct values are a threshold apart. */
  lemma {:induction false} FixedIsSeparated(s: seq<real>, threshold: real)
    requires Ascending(s) && threshold > 0.0 && Smooth(s, threshold) == s
    ensures Separated(s, threshold)
    decreases |s|
  {
    if s != [] {
      var j := GroupEnd(s, threshold, 1);
      FixedIsSeparated(s[j..], threshold);
      PartsSeparated(s, j, threshold);
    }
  }

  // ── in the leaves' own order ─────────────────────────────────────────────

  function Marks(mine: seq<bool>, order: seq<int>): seq<bool>
    requires forall k :: 0 <= k < |order| ==> 0 <= order[k] < |mine|
  {
    seq(|order|, k requires 0 <= k < |order| => mine[order[k]])
  }

  lemma MaskedArranged(values: seq<real>, mine: seq<bool>, order: seq<int>)
    requires |mine| == |values| == |order| && NoRepeats(order)
    requires forall k :: 0 <= k < |order| ==> 0 <= order[k] < |values|
    ensures Sum(Masked(Arranged(values, order), Marks(mine, order))) == Sum(Masked(values, mine))
  {
    ArrangedTotal(Masked(values, mine), order);
    assert Arranged(Masked(values, mine), order) == Masked(Arranged(values, order), Marks(mine, order));
  }

  /** What `MergeLeaves` returns. */
  ghost predicate Merged(values: seq<real>, order: seq<int>, threshold: real, result: seq<real>) {
    && SortsBy(order, values) && threshold > 0.0 && |result| == |values|
    && Arranged(result, order) == Smooth(Arranged(values, order), threshold)
  }

  /** Leaves of different trees are equal or at least the threshold apart. */
  ghost predicate TreesApart(values: seq<real>, owner: seq<int>, threshold: real)
    requires |owner| == |values|
  {
    forall x, y :: 0 <= x < |values| && 0 <= y < |values| && owner[x] != owner[y] ==>
      values[x] == values[y] || Abs(values[x] - values[y]) >= threshold
  }

  /** A tree keeps its total when the trees' leaves lie apart. */
  lemma TreeKept(values: seq<real>, order: seq<int>, threshold: real, result: seq<real>, owner: seq<int>, tree: int)
    requires Merged(values, order, threshold, result) && |owner| == |values|
    requires TreesApart(values, owner, threshold)
    ensures TreeTotal(result, owner, tree) == TreeTotal(values, owner, tree)
  {
    var s, mine := Arranged(values, order), Of(owner, tree);
    var marks := Marks(mine, order);
    assert CloseShare(s, marks, threshold);
    SmoothKeepsMarked(s, marks, threshold);
    MaskedArranged(values, mine, order);
    MaskedArranged(result, mine, order);
  }

  /** No two distinct leaf weights are closer than the threshold. */
  ghost predicate WellSeparated(values: seq<real>, threshold: real) {
    forall x, y :: 0 <= x < |values| && 0 <= y < |values| ==>
      values[x] == values[y] || Abs(values[x] - values[y]) >= threshold
  }

  lemma OneMarked(values: seq<real>, mine: seq<bool>, z: nat)
    requires |mine| == |values| && z < |values| && forall k :: 0 <= k < |mine| ==> (mine[k] <==> k == z)
    ensures Sum(Masked(values, mine)) == values[z]
  {
    var m := Masked(values, mine);
    assert m == m[..z] + ([m[z]] + m[z + 1..]);
    SumConcat(m[..z], [m[z]] + m[z + 1..]);
    assert ([m[z]] + m[z + 1..])[1..] == m[z + 1..];
    ZeroSum(m[..z]);
    ZeroSum(m[z + 1..]);
  }

  /** Two distinct leaves closer than the threshold move some leaf. */
  lemma SomeLeafMoves(values: seq<real>, order: seq<int>, threshold: real, result: seq<real>) returns (z: nat)
    requires Merged(values, order, threshold, result) && !WellSeparated(values, threshold)
    ensures z < |values| && result[z] != values[z]
  {
    var s := Arranged(values, order);
    if result == values {
      FixedIsSeparated(s, threshold);
      forall x, y | 0 <= x < |values| && 0 <= y < |values|
        ensures values[x] == values[y] || Abs(values[x] - values[y]) >= threshold
      {
        var a := Position(order, |values|, x);
        var b := Position(order, |values|, y);
        assert s[a] == values[x] && s[b] == values[y];
      }
    }
    z :| 0 <= z < |values| && result[z] != values[z];
  }

  /** However the leaves are spread over trees, every tree keeps its total, if and
      only if no two distinct leaf weights are closer than the threshold, that is,
      when there is nothing to merge. */
  lemma TreeTotalsKeptIff(values: seq<real>, order: seq<int>, threshold: real, result: seq<real>)
    requires Merged(values, order, threshold, result)
    ensures WellSeparated(values, threshold)
            <==> forall owner: seq<int>, tree | |owner| == |values| ::
                   TreeTotal(result, owner, tree) == TreeTotal(values, owner, tree)
  {
    if WellSeparated(values, threshold) {
      forall owner: seq<int>, tree | |owner| == |values|
        ensures TreeTotal(result, owner, tree) == TreeTotal(values, owner, tree)
      {
        TreeKept(values, order, threshold, result, owner, tree);
      }
    } else {
      var z := SomeLeafMoves(values, order, threshold, result);
      var owner := seq(|values|, k => if k == z then 1 else 0);
      OneMarked(values, Of(owner, 1), z);
      OneMarked(result, Of(owner, 1), z);
      assert TreeTotal(result, owner, 1) != TreeTotal(values, owner, 1);
    }
  }

  /** Two one-leaf trees at a distance below the threshold share their weights. */
  lemma TwoTreesShare(x: real, y: real, threshold: real)
    requires x < y < x + threshold
    ensures var values, owner := [x, y], [0, 1];
            forall result :: Merged(values, [0, 1], threshold, result) ==>
              result == [(x + y) / 2.0, (x + y) / 2.0] && TreeTotal(result, owner, 0) > TreeTotal(values, owner, 0)
  {
    var values, owner := [x, y], [0, 1];
    assert Arranged(values, [0, 1]) == values;
    assert GroupEnd(values, threshold, 2) == 2;
    assert GroupEnd(values, threshold, 1) == 2;
    assert values[..2] == values && values[2..] == [];
    assert Sum(values) == x + Sum([y]) && [y][1..] == [];
    assert Mean(values) == (x + y) / 2.0;
    assert Smooth(values, threshold) == Repeat((x + y) / 2.0, 2) + [];
    forall result | Merged(values, [0, 1], threshold, result)
      ensures result == [(x + y) / 2.0, (x + y) / 2.0] && TreeTotal(result, owner, 0) > TreeTotal(values, owner, 0)
    {
      assert Arranged(result, [0, 1])[0] == result[0] && Arranged(result, [0, 1])[1] == result[1];
      OneMarked(result, Of(owner, 0), 0);
      OneMarked(values, Of(owner, 0), 0);
    }
  }

  /** Under the threshold the pass computes, two leaves of different trees at a
      distance of 1e-8 or less share, whatever the deviation is. */
  lemma CloseTreesShare(x: real, y: real, sqrt: real -> real)
    requires x < y < x + 0.00000001 && forall v :: sqrt(v) >= 0.0
    ensures var values, owner := [x, y], [0, 1];
            forall result :: Merged(values, [0, 1], Threshold(values, sqrt), result) ==>
              TreeTotal(result, owner, 0) > TreeTotal(values, owner, 0)
  {
    TwoTreesShare(x, y, Threshold([x, y], sqrt));
  }
}
