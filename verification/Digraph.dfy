/** Directed graphs as edge sets: paths and cycles, shared by the sort, the
    bridging and the layout. */
module Digraph {
  import opened Collections

  type Edges = set<(string, string)>

  ghost predicate IsPath(e: Edges, p: seq<string>) {
    |p| >= 1 && forall i :: 0 <= i < |p| - 1 ==> (p[i], p[i + 1]) in e
  }

  ghost predicate Acyclic(e: Edges) {
    forall p :: IsPath(e, p) && |p| >= 2 ==> p[0] != p[|p| - 1]
  }

  lemma PathConcat(e: Edges, p: seq<string>, q: seq<string>)
    requires IsPath(e, p) && IsPath(e, q) && p[|p| - 1] == q[0]
    ensures IsPath(e, p + q[1..]) && (p + q[1..])[|p + q[1..]| - 1] == q[|q| - 1]
  {
    var r := p + q[1..];
    forall i | 0 <= i < |r| - 1 ensures (r[i], r[i + 1]) in e {
      if i < |p| - 1 {
        assert (p[i], p[i + 1]) in e;
      } else {
        assert r[i] == q[i - (|p| - 1)] && r[i + 1] == q[i + 1 - (|p| - 1)];
      }
    }
  }

  lemma SubPath(e: Edges, p: seq<string>, i: nat, j: nat)
    requires IsPath(e, p) && i < j <= |p|
    ensures IsPath(e, p[i..j])
  {
    var q := p[i..j];
    forall k | 0 <= k < |q| - 1 ensures (q[k], q[k + 1]) in e {
      assert (p[i + k], p[i + k + 1]) in e;
    }
  }

  ghost predicate HasPredecessor(e: Edges, rest: set<string>, x: string) {
    exists u :: u in rest && (u, x) in e
  }

  /** Everything in `rest` has a predecessor in `rest`. */
  ghost predicate PredecessorClosed(e: Edges, rest: set<string>) {
    forall x {:trigger HasPredecessor(e, rest, x)} :: x in rest ==> HasPredecessor(e, rest, x)
  }

  /** Walking backwards from a node of `rest`, staying inside it. */
  lemma {:induction false} WalkBack(e: Edges, rest: set<string>, v: string, n: nat) returns (p: seq<string>)
    requires v in rest && PredecessorClosed(e, rest)
    ensures |p| == n + 1 && IsPath(e, p) && p[n] == v && forall x :: x in p ==> x in rest
    decreases n
  {
    if n == 0 {
      p := [v];
    } else {
      assert HasPredecessor(e, rest, v);
      var u :| u in rest && (u, v) in e;
      var q := WalkBack(e, rest, u, n - 1);
      p := q + [v];
      forall i | 0 <= i < |p| - 1 ensures (p[i], p[i + 1]) in e {
        if i < |q| - 1 { assert (q[i], q[i + 1]) in e; }
      }
    }
  }

  /** A nonempty set in which everything has a predecessor contains a cycle. */
  lemma PredecessorClosedHasCycle(e: Edges, rest: set<string>)
    requires rest != {} && PredecessorClosed(e, rest)
    ensures !Acyclic(e)
  {
    var v :| v in rest;
    var p := WalkBack(e, rest, v, |rest|);
    if NoRepeats(p) { DistinctFits(p, rest); }
    var i, j :| 0 <= i < j < |p| && p[i] == p[j];
    SubPath(e, p, i, j + 1);
    assert p[i..j + 1][0] == p[i..j + 1][j - i];
  }

  // ── positions in an order ────────────────────────────────────────────────

  /** Every edge leads from an earlier to a later entry of `order`. */
  ghost predicate Forward(e: Edges, order: seq<string>) {
    forall i, j :: 0 <= i < |order| && 0 <= j < |order| && (order[i], order[j]) in e ==> i < j
  }

  lemma {:induction false} PathAdvances(e: Edges, order: seq<string>, p: seq<string>, i: nat, j: nat)
    requires Forward(e, order) && IsPath(e, p) && |p| >= 2 && forall x :: x in p ==> x in order
    requires i < |order| && order[i] == p[0] && j < |order| && order[j] == p[|p| - 1]
    ensures i < j
    decreases |p|
  {
    assert (p[0], p[1]) in e;
    if |p| > 2 {
      assert p[1] in p;
      var k :| 0 <= k < |order| && order[k] == p[1];
      var q := p[1..];
      SubPath(e, p, 1, |p|);
      assert p[1..|p|] == q;
      forall x | x in q ensures x in order { assert x in p; }
      PathAdvances(e, order, q, k, j);
    }
  }
}
