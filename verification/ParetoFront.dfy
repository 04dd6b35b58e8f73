/** The Pareto front of the recorded trials
    (`ParetoSearch._compute_pareto_front`): maximise accuracy, minimise size. */
module ParetoFront {
  datatype Trial = Trial(number: nat, accuracy: real, size: nat)

  predicate Dominates(q: Trial, p: Trial) {
    && q.accuracy >= p.accuracy && q.size <= p.size
    && (q.accuracy > p.accuracy || q.size < p.size)
  }

  predicate Dominated(points: seq<Trial>, p: Trial) {
    exists k :: 0 <= k < |points| && Dominates(points[k], p)
  }

  /** The non-dominated trials among the first `n`, in input order. */
  function Front(points: seq<Trial>, n: nat): seq<Trial>
    requires n <= |points|
  {
    if n == 0 then []
    else if Dominated(points, points[n - 1]) then Front(points, n - 1)
    else Front(points, n - 1) + [points[n - 1]]
  }

  method ComputeParetoFront(points: seq<Trial>) returns (pareto: seq<Trial>)
    ensures pareto == Front(points, |points|)
  {
    pareto := [];
    for i := 0 to |points|
      invariant pareto == Front(points, i)
    {
      var p := points[i];
      var dominated := false;
      for j := 0 to |points|
        invariant !dominated && forall k :: 0 <= k < j ==> !Dominates(points[k], p)
      {
        if Dominates(points[j], p) {
          dominated := true;
          break;
        }
      }
      if !dominated {
        pareto := pareto + [p];
      }
    }
  }

  /** Exactly the non-dominated trials, each as often as it was recorded. */
  lemma {:induction false} FrontExact(points: seq<Trial>, n: nat, p: Trial)
    requires n <= |points|
    ensures multiset(Front(points, n))[p] == if Dominated(points, p) then 0 else multiset(points[..n])[p]
  {
    if n > 0 {
      FrontExact(points, n - 1, p);
      assert points[..n] == points[..n - 1] + [points[n - 1]];
    } else {
      assert points[..0] == [];
    }
  }

  /** A recorded trial is on the front if and only if whoever is at least as accurate
      and no larger is just as accurate and as large. */
  lemma FrontUnbeaten(points: seq<Trial>, p: Trial)
    ensures p in Front(points, |points|) <==>
            p in points && forall q :: q in points && q.accuracy >= p.accuracy && q.size <= p.size ==>
                             q.accuracy == p.accuracy && q.size == p.size
  {
    FrontExact(points, |points|, p);
    assert points[..|points|] == points;
    assert p in Front(points, |points|) <==> p in multiset(Front(points, |points|));
    assert p in points <==> p in multiset(points);
    if Dominated(points, p) {
      var k :| 0 <= k < |points| && Dominates(points[k], p);
      assert points[k] in points;
    }
    if q :| q in points && q.accuracy >= p.accuracy && q.size <= p.size
            && !(q.accuracy == p.accuracy && q.size == p.size) {
      var k :| 0 <= k < |points| && points[k] == q;
      assert Dominates(points[k], p);
    }
  }

  ghost function Dominators(points: seq<Trial>, p: Trial): set<nat> {
    set k: nat | k < |points| && Dominates(points[k], p)
  }

  /** Climbing to a dominator leaves strictly fewer dominators, so the climb ends
      at a trial nobody dominates. */
  lemma {:induction false} Climb(points: seq<Trial>, p: Trial) returns (q: Trial)
    requires p in points
    ensures q in points && !Dominated(points, q)
    ensures q.accuracy >= p.accuracy && q.size <= p.size
    decreases Dominators(points, p)
  {
    if Dominated(points, p) {
      var k :| 0 <= k < |points| && Dominates(points[k], p);
      assert k in Dominators(points, p) && k !in Dominators(points, points[k]);
      q := Climb(points, points[k]);
    } else {
      q := p;
    }
  }

  /** Every recorded trial, duplicates included, is matched or beaten on both axes
      by a member of the front. */
  lemma FrontCovers(points: seq<Trial>, p: Trial)
    requires p in points
    ensures exists q :: q in Front(points, |points|) && q.accuracy >= p.accuracy && q.size <= p.size
  {
    var q := Climb(points, p);
    FrontExact(points, |points|, q);
    assert points[..|points|] == points;
    assert q in multiset(points);
    assert q in multiset(Front(points, |points|));
  }

  lemma {:induction false} FrontOrder(points: seq<Trial>, n: nat) returns (at: seq<nat>)
    requires n <= |points|
    ensures |at| == |Front(points, n)|
    ensures forall i :: 0 <= i < |at| ==> at[i] < n && points[at[i]] == Front(points, n)[i]
    ensures forall i, j :: 0 <= i < j < |at| ==> at[i] < at[j]
  {
    if n == 0 {
      at := [];
    } else {
      at := FrontOrder(points, n - 1);
      if !Dominated(points, points[n - 1]) {
        assert Front(points, n) == Front(points, n - 1) + [points[n - 1]];
        at := at + [n - 1];
      } else {
        assert Front(points, n) == Front(points, n - 1);
      }
    }
  }
}
