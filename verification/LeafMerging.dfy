/** Leaf merging (astra/graph/onnx_transformer.py): runs of close leaf weights are
    replaced by their mean.  Weights are real numbers; the order numpy's `argsort`
    returns is a parameter, any order that sorts the values. */
module LeafMerging {
  import opened Collections
  import opened Reals

  function Sum(s: seq<real>): real { if s == [] then 0.0 else s[0] + Sum(s[1..]) }

  function Mean(s: seq<real>): real
    requires s != []
  {
    Sum(s) / (|s| as real)
  }

  ghost predicate Ascending(s: seq<real>) {
    forall i, j :: 0 <= i <= j < |s| ==> s[i] <= s[j]
  }

  // ── the greedy groups of a sorted list ───────────────────────────────────

  /** Where the group that starts the list ends, when it holds the first `j` already. */
  function GroupEnd(s: seq<real>, threshold: real, j: nat): (end: nat)
    requires 0 < j <= |s|
    ensures j <= end <= |s|
    ensures forall k :: j <= k < end ==> Abs(s[k] - s[0]) < threshold
    ensures end < |s| ==> Abs(s[end] - s[0]) >= threshold
    decreases |s| - j
  {
    if j < |s| && Abs(s[j] - s[0]) < threshold then GroupEnd(s, threshold, j + 1) else j
  }

  function Repeat(x: real, n: nat): seq<real> { seq(n, i => x) }

  /** Every group replaced by its mean. */
  function Smooth(s: seq<real>, threshold: real): seq<real> {
    if s == [] then []
    else
      var j := GroupEnd(s, threshold, 1);
      Repeat(Mean(s[..j]), j) + Smooth(s[j..], threshold)
  }

  // ── sums and means ───────────────────────────────────────────────────────

  lemma {:induction false} SumConcat(a: seq<real>, b: seq<real>)
    ensures Sum(a + b) == Sum(a) + Sum(b)
  {
    if a == [] {
      assert a + b == b;
    } else {
      assert (a + b)[0] == a[0] && (a + b)[1..] == a[1..] + b;
      SumConcat(a[1..], b);
    }
  }

  /** `n` times `x`, by addition. */
  ghost function Times(n: nat, x: real): real { if n == 0 then 0.0 else x + Times(n - 1, x) }

  lemma {:induction false} TimesIsProduct(n: nat, x: real)
    ensures Times(n, x) == n as real * x
  {
    if n > 0 {
      TimesIsProduct(n - 1, x);
      Distribute(x, (n - 1) as real, 1.0);
      assert n as real == (n - 1) as real + 1.0;
    }
  }

  lemma {:induction false} TimesMonotone(n: nat, x: real, y: real)
    requires x < y && n > 0
    ensures Times(n, x) < Times(n, y)
  {
    if n > 1 { TimesMonotone(n - 1, x, y); }
  }

  lemma Share(total: real, n: nat)
    requires n > 0
    ensures Times(n, total / (n as real)) == total
  {
    TimesIsProduct(n, total / (n as real));
  }

  lemma {:induction false} SumRepeat(x: real, n: nat)
    ensures Sum(Repeat(x, n)) == Times(n, x)
  {
    if n > 0 {
      assert Repeat(x, n)[1..] == Repeat(x, n - 1);
      SumRepeat(x, n - 1);
    }
  }

  lemma {:induction false} SumBounds(s: seq<real>, low: real, high: real)
    requires forall i :: 0 <= i < |s| ==> low <= s[i] <= high
    ensures Times(|s|, low) <= Sum(s) <= Times(|s|, high)
  {
    if s != [] { SumBounds(s[1..], low, high); }
  }

  lemma MeanBounds(s: seq<real>, low: real, high: real)
    requires s != [] && forall i :: 0 <= i < |s| ==> low <= s[i] <= high
    ensures low <= Mean(s) <= high
  {
    SumBounds(s, low, high);
    Share(Sum(s), |s|);
    if Mean(s) < low { TimesMonotone(|s|, Mean(s), low); }
    if Mean(s) > high { TimesMonotone(|s|, high, Mean(s)); }
  }

  /** A group and what replaces it have the same total. */
  lemma GroupTotal(s: seq<real>)
    requires s != []
    ensures Sum(Repeat(Mean(s), |s|)) == Sum(s)
  {
    SumRepeat(Mean(s), |s|);
    Share(Sum(s), |s|);
  }

  // ── what smoothing keeps ─────────────────────────────────────────────────

  lemma {:induction false} SmoothLength(s: seq<real>, threshold: real)
    ensures |Smooth(s, threshold)| == |s|
    decreases |s|
  {
    if s != [] { SmoothLength(s[GroupEnd(s, threshold, 1)..], threshold); }
  }

  lemma {:induction false} SmoothTotal(s: seq<real>, threshold: real)
    ensures Sum(Smooth(s, threshold)) == Sum(s)
    decreases |s|
  {
    if s != [] {
      var j := GroupEnd(s, threshold, 1);
      SmoothTotal(s[j..], threshold);
      GroupTotal(s[..j]);
      SumConcat(Repeat(Mean(s[..j]), j), Smooth(s[j..], threshold));
      SumConcat(s[..j], s[j..]);
      assert s == s[..j] + s[j..];
    }
  }

  ghost predicate Averages(x: real, n: nat, total: real) { x * n as real == total }

  /** Values closer than the threshold to the first of them, and their common mean. */
  ghost predicate IsGroup(group: seq<real>, out: seq<real>, threshold: real) {
    && group != [] && |out| == |group|
    && (forall k :: 0 < k < |group| ==> Abs(group[k] - group[0]) < threshold)
    && forall k :: 0 <= k < |out| ==> Averages(out[k], |group|, Sum(group))
  }

  /** Between `i` and `j` lies one group, and what follows is too far from its first. */
  ghost predicate GroupBetween(s: seq<real>, out: seq<real>, threshold: real, i: nat, j: nat) {
    && i < j <= |s| == |out|
    && IsGroup(s[i..j], out[i..j], threshold)
    && (j < |s| ==> Abs(s[j] - s[i]) >= threshold)
  }

  /** These cuts run from the start to the end, with one group between any two. */
  ghost predicate CutInGroups(s: seq<real>, out: seq<real>, threshold: real, cuts: seq<nat>) {
    && cuts != [] && cuts[0] == 0 && cuts[|cuts| - 1] == |s|
    && forall g :: 0 <= g < |cuts| - 1 ==> GroupBetween(s, out, threshold, cuts[g], cuts[g + 1])
  }

  /** Smoothing, cut by cut: each group reaches as far as it can, and all of it ends
      at its mean. */
  lemma {:induction false} SmoothExact(s: seq<real>, threshold: real) returns (cuts: seq<nat>)
    ensures CutInGroups(s, Smooth(s, threshold), threshold, cuts)
    decreases |s|
  {
    if s == [] {
      return [0];
    }
    var j := GroupEnd(s, threshold, 1);
    var later := SmoothExact(s[j..], threshold);
    SmoothLength(s[j..], threshold);
    FirstIsGroup(s[..j], threshold);
    cuts := CutsJoined(s, threshold, j, Repeat(Mean(s[..j]), j), Smooth(s[j..], threshold), later);
  }

  lemma FirstIsGroup(group: seq<real>, threshold: real)
    requires group != [] && forall k :: 0 < k < |group| ==> Abs(group[k] - group[0]) < threshold
    ensures IsGroup(group, Repeat(Mean(group), |group|), threshold)
  {
    Share(Sum(group), |group|);
    TimesIsProduct(|group|, Mean(group));
    assert Averages(Mean(group), |group|, Sum(group));
  }

  lemma CutsJoined(s: seq<real>, threshold: real, j: nat, first: seq<real>, rest: seq<real>, later: seq<nat>)
    returns (cuts: seq<nat>)
    requires 0 < j <= |s| && |rest| == |s| - j && IsGroup(s[..j], first, threshold)
    requires (j < |s| ==> Abs(s[j] - s[0]) >= threshold) && CutInGroups(s[j..], rest, threshold, later)
    ensures CutInGroups(s, first + rest, threshold, cuts)
  {
    var out := first + rest;
    assert s[0..j] == s[..j] && out[0..j] == first && out[j..] == rest;
    cuts := [0] + seq(|later|, g requires 0 <= g < |later| => j + later[g]);
    forall g | 0 <= g < |cuts| - 1 ensures GroupBetween(s, out, threshold, cuts[g], cuts[g + 1]) {
      if g > 0 { GroupMoved(s, out, threshold, j, rest, later[g - 1], later[g]); }
    }
  }

  lemma GroupMoved(s: seq<real>, out: seq<real>, threshold: real, j: nat, rest: seq<real>, a: nat, b: nat)
    requires j <= |s| == |out| && rest == out[j..] && GroupBetween(s[j..], rest, threshold, a, b)
    ensures GroupBetween(s, out, threshold, j + a, j + b)
  {
    assert s[j..][a..b] == s[j + a..j + b];
    assert rest[a..b] == out[j + a..j + b];
  }

  /** Every member of the first group, and its mean, lie between the group's ends. */
  lemma FirstGroup(s: seq<real>, threshold: real)
    requires Ascending(s) && s != [] && threshold > 0.0
    ensures var j := GroupEnd(s, threshold, 1);
            s[0] <= Mean(s[..j]) <= s[j - 1] < s[0] + threshold
  {
    MeanBounds(s[..GroupEnd(s, threshold, 1)], s[0], s[GroupEnd(s, threshold, 1) - 1]);
  }

  /** No value moves by the threshold or more; none falls below the least. */
  lemma {:induction false} SmoothMoves(s: seq<real>, threshold: real)
    requires Ascending(s) && threshold > 0.0
    ensures |Smooth(s, threshold)| == |s|
    ensures forall k :: 0 <= k < |s| ==>
              Abs(Smooth(s, threshold)[k] - s[k]) < threshold && s[0] <= Smooth(s, threshold)[k]
    decreases |s|
  {
    SmoothLength(s, threshold);
    if s != [] {
      var j := GroupEnd(s, threshold, 1);
      FirstGroup(s, threshold);
      SmoothMoves(s[j..], threshold);
      MovesJoin(s, j, Mean(s[..j]), Smooth(s[j..], threshold), threshold);
    }
  }

  lemma MovesJoin(s: seq<real>, j: nat, mean: real, rest: seq<real>, threshold: real)
    requires Ascending(s) && 0 < j <= |s| && |rest| == |s| - j && s[0] <= mean <= s[j - 1] < s[0] + threshold
    requires forall k :: 0 <= k < |rest| ==> Abs(rest[k] - s[j..][k]) < threshold && s[j] <= rest[k]
    ensures var out := Repeat(mean, j) + rest;
            forall k :: 0 <= k < |s| ==> Abs(out[k] - s[k]) < threshold && s[0] <= out[k]
  {
    forall k | 0 <= k < |s|
      ensures Abs((Repeat(mean, j) + rest)[k] - s[k]) < threshold && s[0] <= (Repeat(mean, j) + rest)[k]
    {
      if k < j { assert s[0] <= s[k] <= s[j - 1]; } else { assert s[k] == s[j..][k - j]; }
    }
  }

  /** Order is kept, and equal values stay equal. */
  lemma {:induction false} SmoothOrder(s: seq<real>, threshold: real)
    requires Ascending(s) && threshold > 0.0
    ensures Ascending(Smooth(s, threshold)) && |Smooth(s, threshold)| == |s|
    ensures forall a, b :: 0 <= a < b < |s| && s[a] == s[b] ==> Smooth(s, threshold)[a] == Smooth(s, threshold)[b]
    decreases |s|
  {
    SmoothLength(s, threshold);
    if s != [] {
      var j := GroupEnd(s, threshold, 1);
      SmoothOrder(s[j..], threshold);
      forall a, b | 0 <= a < j <= b < |s| ensures Mean(s[..j]) <= Smooth(s[j..], threshold)[b - j] && s[a] < s[b] {
        AcrossGroups(s, threshold, a, b);
      }
      OrderJoin(s, j, Mean(s[..j]), Smooth(s[j..], threshold));
    }
  }

  lemma OrderJoin(s: seq<real>, j: nat, mean: real, rest: seq<real>)
    requires 0 < j <= |s| && |rest| == |s| - j && Ascending(rest)
    requires forall a, b :: 0 <= a < j <= b < |s| ==> mean <= rest[b - j] && s[a] < s[b]
    requires forall a, b :: 0 <= a < b < |rest| && s[j..][a] == s[j..][b] ==> rest[a] == rest[b]
    ensures var out := Repeat(mean, j) + rest;
            Ascending(out) && forall a, b :: 0 <= a < b < |s| && s[a] == s[b] ==> out[a] == out[b]
  {
    var out := Repeat(mean, j) + rest;
    forall a, b | 0 <= a < b < |s| ensures out[a] <= out[b] && (s[a] == s[b] ==> out[a] == out[b]) {
      if a >= j {
        assert out[a] == rest[a - j] && out[b] == rest[b - j];
        assert s[a] == s[j..][a - j] && s[b] == s[j..][b - j];
      } else if b >= j {
        assert out[b] == rest[b - j] && s[a] < s[b];
      }
    }
  }

  /** A leaf of the first group against a later one. */
  lemma AcrossGroups(s: seq<real>, threshold: real, a: nat, b: nat)
    requires Ascending(s) && threshold > 0.0 && s != []
    requires a < GroupEnd(s, threshold, 1) <= b < |s|
    ensures |Smooth(s[GroupEnd(s, threshold, 1)..], threshold)| == |s| - GroupEnd(s, threshold, 1)
    ensures var j := GroupEnd(s, threshold, 1);
            Mean(s[..j]) <= Smooth(s[j..], threshold)[b - j] && s[a] < s[b]
  {
    var j := GroupEnd(s, threshold, 1);
    FirstGroup(s, threshold);
    SmoothMoves(s[j..], threshold);
    assert Abs(s[j] - s[0]) >= threshold && s[0] <= s[j];
    assert s[a] <= s[j - 1] < s[j] <= s[b];
  }

  // ── in the leaves' own order ─────────────────────────────────────────────

  /** `order` lists every position once, by ascending value. */
  ghost predicate SortsBy(order: seq<int>, values: seq<real>) {
    && |order| == |values|
    && (forall k :: 0 <= k < |order| ==> 0 <= order[k] < |values|)
    && NoRepeats(order)
    && (forall i, j :: 0 <= i <= j < |order| ==> values[order[i]] <= values[order[j]])
  }

  function Arranged(values: seq<real>, order: seq<int>): seq<real>
    requires forall k :: 0 <= k < |order| ==> 0 <= order[k] < |values|
  {
    seq(|order|, k requires 0 <= k < |order| => values[order[k]])
  }

  /** The inner `while`: how far the group that starts at `i` reaches. */
  method GroupFrom(values: seq<real>, order: seq<int>, threshold: real, i: nat) returns (j: nat)
    requires SortsBy(order, values) && i < |order|
    ensures i < j <= |order| && GroupEnd(Arranged(values, order)[i..], threshold, 1) == j - i
  {
    ghost var tail := Arranged(values, order)[i..];
    j := i + 1;
    while j < |order| && Abs(values[order[j]] - values[order[i]]) < threshold
      invariant i < j <= |order|
      invariant GroupEnd(tail, threshold, 1) == GroupEnd(tail, threshold, j - i)
    {
      assert tail[j - i] == values[order[j]] && tail[0] == values[order[i]];
      j := j + 1;
    }
    assert j < |order| ==> tail[j - i] == values[order[j]] && tail[0] == values[order[i]];
  }

  /** Every leaf of the group takes the mean; the others stay. */
  method Assign(merged: array<real>, group: seq<int>, mean: real)
    requires forall k :: 0 <= k < |group| ==> 0 <= group[k] < merged.Length
    modifies merged
    ensures forall x :: 0 <= x < merged.Length ==> merged[x] == if x in group then mean else old(merged[x])
  {
    for k := 0 to |group|
      invariant forall x :: 0 <= x < merged.Length ==> merged[x] == if x in group[..k] then mean else old(merged[x])
    {
      merged[group[k]] := mean;
      assert group[..k + 1] == group[..k] + [group[k]];
    }
    assert group[..|group|] == group;
  }

  /** One group: found, averaged, assigned. */
  method MergeGroup(values: seq<real>, order: seq<int>, threshold: real, merged: array<real>, i: nat) returns (j: nat)
    requires SortsBy(order, values) && i < |order| && Progress(values, order, threshold, merged[..], i)
    modifies merged
    ensures i < j <= |order| && Progress(values, order, threshold, merged[..], j)
  {
    ghost var s := Arranged(values, order);
    ghost var out := Smooth(s, threshold);
    j := GroupFrom(values, order, threshold, i);
    var group := order[i..j];
    var mean := Mean(Arranged(values, group));
    ghost var before := merged[..];
    Assign(merged, group, mean);
    Advance(s, out, threshold, values, order, i, j, mean);
    AssignedGroup(before, merged[..], order, out, s, i, j, mean);
  }

  /** `_apply_leaf_merging`: the loop over one attribute's values. */
  method MergeLeaves(values: seq<real>, order: seq<int>, threshold: real) returns (result: seq<real>)
    requires SortsBy(order, values) && threshold > 0.0
    ensures |result| == |values|
    ensures Arranged(result, order) == Smooth(Arranged(values, order), threshold)
    ensures Sum(result) == Sum(values) && Gentle(values, result, threshold)
  {
    var n := |values|;
    var merged := new real[n](i requires 0 <= i < n => values[i]);
    Begin(values, order, threshold, merged[..]);
    var i := 0;
    while i < n - 1
      invariant 0 <= i <= n
      invariant Progress(values, order, threshold, merged[..], i)
    {
      i := MergeGroup(values, order, threshold, merged, i);
    }
    result := merged[..];
    Finish(values, order, threshold, result, i);
    MergingIsSound(values, order, threshold, result);
  }

  /** The groups up to `i` are done, and the rest of the list groups by itself. */
  ghost predicate Progress(values: seq<real>, order: seq<int>, threshold: real, merged: seq<real>, i: nat)
    requires SortsBy(order, values)
  {
    var s := Arranged(values, order);
    var out := Smooth(s, threshold);
    && |out| == |s| && i <= |s| && out[i..] == Smooth(s[i..], threshold)
    && Partly(merged, order, out, s, i)
  }

  lemma Begin(values: seq<real>, order: seq<int>, threshold: real, merged: seq<real>)
    requires SortsBy(order, values) && merged == values
    ensures Progress(values, order, threshold, merged, 0)
  {
    var s := Arranged(values, order);
    SmoothLength(s, threshold);
    assert s[0..] == s && Smooth(s, threshold)[0..] == Smooth(s, threshold);
  }

  lemma Finish(values: seq<real>, order: seq<int>, threshold: real, merged: seq<real>, i: nat)
    requires SortsBy(order, values) && Progress(values, order, threshold, merged, i) && i >= |values| - 1
    ensures |merged| == |values| && Arranged(merged, order) == Smooth(Arranged(values, order), threshold)
  {
    var s := Arranged(values, order);
    var out := Smooth(s, threshold);
    if i == |values| - 1 { LastLeaf(s, out, threshold); }
    PartlyAll(merged, order, out, s, i);
  }

  lemma PartlyAll(merged: seq<real>, order: seq<int>, out: seq<real>, s: seq<real>, i: nat)
    requires Partly(merged, order, out, s, i) && i >= |s| - 1 && (i == |s| - 1 ==> out[i] == s[i])
    ensures Arranged(merged, order) == out
  {
    forall k | 0 <= k < |order| ensures Arranged(merged, order)[k] == out[k] {
      assert merged[order[k]] == if k < i then out[k] else s[k];
    }
  }

  /** The first `i` leaves in order have their new value, the others the old one. */
  ghost predicate Partly(merged: seq<real>, order: seq<int>, out: seq<real>, s: seq<real>, i: nat) {
    && |merged| == |order| == |out| == |s|
    && forall k :: 0 <= k < |order| ==> 0 <= order[k] < |merged| && merged[order[k]] == if k < i then out[k] else s[k]
  }

  lemma AssignedGroup(before: seq<real>, after: seq<real>, order: seq<int>, out: seq<real>, s: seq<real>, i: nat,
                      j: nat, mean: real)
    requires Partly(before, order, out, s, i) && i <= j <= |order| && NoRepeats(order)
    requires |after| == |before|
    requires forall x :: 0 <= x < |after| ==> after[x] == if x in order[i..j] then mean else before[x]
    requires forall k :: i <= k < j ==> out[k] == mean
    ensures Partly(after, order, out, s, j)
  {
    forall k | 0 <= k < |order| ensures after[order[k]] == if k < j then out[k] else s[k] {
      if i <= k < j { assert order[i..j][k - i] == order[k]; }
    }
  }

  lemma Advance(s: seq<real>, out: seq<real>, threshold: real, values: seq<real>, order: seq<int>, i: nat, j: nat,
                mean: real)
    requires SortsBy(order, values) && s == Arranged(values, order)
    requires i < j <= |s| == |out| && GroupEnd(s[i..], threshold, 1) == j - i
    requires mean == Mean(Arranged(values, order[i..j])) && out[i..] == Smooth(s[i..], threshold)
    ensures forall k :: i <= k < j ==> out[k] == mean
    ensures out[j..] == Smooth(s[j..], threshold)
  {
    var tail := s[i..];
    assert Arranged(values, order[i..j]) == tail[..j - i];
    assert out[i..] == Repeat(mean, j - i) + Smooth(tail[j - i..], threshold);
    assert tail[j - i..] == s[j..];
    assert forall k :: i <= k < j ==> out[k] == out[i..][k - i] == Repeat(mean, j - i)[k - i];
    assert out[i..][j - i..] == out[j..];
    assert out[i..][j - i..] == Smooth(s[j..], threshold);
  }

  /** A leaf left over at the end is a group of its own. */
  lemma LastLeaf(s: seq<real>, out: seq<real>, threshold: real)
    requires s != [] && |out| == |s| && out[|s| - 1..] == Smooth(s[|s| - 1..], threshold)
    ensures out[|s| - 1] == s[|s| - 1]
  {
    var last := s[|s| - 1..];
    assert last[..1] == last && Sum(last) == last[0] + Sum(last[1..]);
    assert Smooth(last, threshold) == Repeat(Mean(last), 1) + Smooth(last[1..], threshold);
    assert out[|s| - 1..][0] == Mean(last);
  }

  // ── sums do not depend on the order ──────────────────────────────────────

  function SumAt(values: seq<real>, at: seq<int>): real
    requires forall k :: 0 <= k < |at| ==> 0 <= at[k] < |values|
  {
    Sum(Arranged(values, at))
  }

  /** Taking one position out. */
  lemma TakeOut(values: seq<real>, at: seq<int>, x: int) returns (rest: seq<int>)
    requires NoRepeats(at) && x in at && forall k :: 0 <= k < |at| ==> 0 <= at[k] < |values|
    ensures |rest| == |at| - 1 && NoRepeats(rest) && forall k :: 0 <= k < |rest| ==> 0 <= rest[k] < |values|
    ensures forall y :: y in rest <==> y in at && y != x
    ensures SumAt(values, at) == values[x] + SumAt(values, rest)
  {
    var k :| 0 <= k < |at| && at[k] == x;
    rest := at[..k] + at[k + 1..];
    WithoutOne(at, k, rest);
    SumAtSplit(values, at, k);
  }

  lemma WithoutOne(at: seq<int>, k: nat, rest: seq<int>)
    requires NoRepeats(at) && k < |at| && rest == at[..k] + at[k + 1..]
    ensures NoRepeats(rest) && forall y :: y in rest <==> y in at && y != at[k]
  {
    forall y ensures y in rest <==> y in at && y != at[k] {
      if y in at && y != at[k] {
        var i :| 0 <= i < |at| && at[i] == y;
        assert if i < k then rest[i] == y else rest[i - 1] == y;
      }
    }
  }

  lemma SumAtSplit(values: seq<real>, at: seq<int>, k: nat)
    requires k < |at| && forall i :: 0 <= i < |at| ==> 0 <= at[i] < |values|
    ensures SumAt(values, at) == values[at[k]] + SumAt(values, at[..k] + at[k + 1..])
  {
    var s := Arranged(values, at);
    assert s == s[..k] + ([s[k]] + s[k + 1..]);
    SumConcat(s[..k], [s[k]] + s[k + 1..]);
    assert ([s[k]] + s[k + 1..])[1..] == s[k + 1..];
    SumConcat(s[..k], s[k + 1..]);
    assert Arranged(values, at[..k] + at[k + 1..]) == s[..k] + s[k + 1..];
  }

  lemma {:induction false} SumAtPermuted(values: seq<real>, a: seq<int>, b: seq<int>)
    requires forall k :: 0 <= k < |a| ==> 0 <= a[k] < |values|
    requires forall k :: 0 <= k < |b| ==> 0 <= b[k] < |values|
    requires NoRepeats(a) && NoRepeats(b) && forall x :: x in a <==> x in b
    ensures SumAt(values, a) == SumAt(values, b)
    decreases |a|
  {
    assert b != [] ==> b[0] in b;
    if a != [] {
      assert a[0] in a;
      var restA := TakeOut(values, a, a[0]);
      var restB := TakeOut(values, b, a[0]);
      SumAtPermuted(values, restA, restB);
    }
  }

  function Upto(n: nat): (r: seq<int>)
    ensures |r| == n && forall k :: 0 <= k < n ==> r[k] == k
    ensures forall x :: x in r <==> 0 <= x < n
  {
    if n == 0 then [] else Upto(n - 1) + [n - 1]
  }

  lemma ArrangedTotal(values: seq<real>, order: seq<int>)
    requires |order| == |values| && NoRepeats(order) && forall k :: 0 <= k < |order| ==> 0 <= order[k] < |values|
    ensures Sum(Arranged(values, order)) == Sum(values)
  {
    assert forall y :: y in order ==> y in Upto(|values|);
    DistinctCovers(order, Upto(|values|));
    SumAtPermuted(values, order, Upto(|values|));
    assert Arranged(values, Upto(|values|)) == values;
  }

  lemma Position(order: seq<int>, n: nat, x: nat) returns (k: nat)
    requires |order| == n && NoRepeats(order) && (forall k :: 0 <= k < n ==> 0 <= order[k] < n) && x < n
    ensures k < n && order[k] == x
  {
    assert forall y :: y in order ==> y in Upto(n);
    DistinctCovers(order, Upto(n));
    assert x in Upto(n);
    k :| 0 <= k < n && order[k] == x;
  }

  /** No leaf moves by the threshold or more, no two leaves change order, and
      equal leaves stay equal. */
  ghost predicate Gentle(values: seq<real>, result: seq<real>, threshold: real)
    requires |result| == |values|
  {
    && (forall x :: 0 <= x < |values| ==> Abs(result[x] - values[x]) < threshold)
    && forall x, y :: 0 <= x < |values| && 0 <= y < |values| ==>
         (values[x] < values[y] ==> result[x] <= result[y]) && (values[x] == values[y] ==> result[x] == result[y])
  }

  /** Whatever order `argsort` picked: the total is kept, and the change is gentle. */
  lemma MergingIsSound(values: seq<real>, order: seq<int>, threshold: real, result: seq<real>)
    requires SortsBy(order, values) && threshold > 0.0 && |result| == |values|
    requires Arranged(result, order) == Smooth(Arranged(values, order), threshold)
    ensures Sum(result) == Sum(values) && Gentle(values, result, threshold)
  {
    var s := Arranged(values, order);
    var out := Smooth(s, threshold);
    ArrangedTotal(values, order);
    ArrangedTotal(result, order);
    SmoothTotal(s, threshold);
    SmoothMoves(s, threshold);
    SmoothOrder(s, threshold);
    forall x | 0 <= x < |values| ensures Abs(result[x] - values[x]) < threshold {
      var k := Position(order, |values|, x);
      assert Arranged(result, order)[k] == out[k] && s[k] == values[x];
    }
    forall x, y | 0 <= x < |values| && 0 <= y < |values|
      ensures (values[x] < values[y] ==> result[x] <= result[y]) && (values[x] == values[y] ==> result[x] == result[y])
    {
      var a := Position(order, |values|, x);
      var b := Position(order, |values|, y);
      assert Arranged(result, order)[a] == out[a] && Arranged(result, order)[b] == out[b];
      assert s[a] == values[x] && s[b] == values[y];
    }
  }

  // ── with numpy's answers ─────────────────────────────────────────────────

  function SquaredDeviations(values: seq<real>, mean: real): real {
    if values == [] then 0.0 else (values[0] - mean) * (values[0] - mean) + SquaredDeviations(values[1..], mean)
  }

  /** A tenth of the standard deviation, and a little more. */
  function Threshold(values: seq<real>, sqrt: real -> real): real
    requires values != []
  {
    sqrt(SquaredDeviations(values, Mean(values)) / (|values| as real)) * 0.1 + 0.00000001
  }

  /** `_apply_leaf_merging` for one attribute; any square root that is not negative
      and any order that sorts the values will do. */
  method ApplyLeafMerging(values: seq<real>, argsort: seq<real> -> seq<int>, sqrt: real -> real)
    returns (result: seq<real>)
    requires SortsBy(argsort(values), values) && forall x :: sqrt(x) >= 0.0
    ensures |result| == |values| && Sum(result) == Sum(values)
    ensures values != [] ==>
              Gentle(values, result, Threshold(values, sqrt))
              && Arranged(result, argsort(values)) == Smooth(Arranged(values, argsort(values)), Threshold(values, sqrt))
  {
    if values == [] {
      return values;
    }
    result := MergeLeaves(values, argsort(values), Threshold(values, sqrt));
  }
}
