/** Bridging the architecture graph over dropped operators
    (app/services/mappers/architecture_mapper.py, `kept_successors` and the edge
    list of `map_architecture`). */
module Bridging {
  import opened Collections
  import opened Digraph
  import opened TopoSort

  // ── the simple definition ────────────────────────────────────────────────

  /** A path from `a` to `b` all of whose interior nodes are dropped. */
  ghost predicate Bridge(e: Edges, kept: set<string>, p: seq<string>, a: string, b: string) {
    && IsPath(e, p) && |p| >= 2 && p[0] == a && p[|p| - 1] == b
    && forall i :: 0 < i < |p| - 1 ==> p[i] !in kept
  }

  ghost predicate Bridged(e: Edges, kept: set<string>, a: string, b: string) {
    b in kept && exists p :: Bridge(e, kept, p, a, b)
  }

  ghost function Targets(e: Edges, kept: set<string>, a: string): set<string> {
    set b | b in kept && Bridged(e, kept, a, b)
  }

  // ── its recursion ────────────────────────────────────────────────────────

  /** What one successor contributes. */
  ghost function Through(e: Edges, kept: set<string>, succ: string): set<string> {
    if succ in kept then {succ} else Targets(e, kept, succ)
  }

  lemma BridgeExtends(e: Edges, kept: set<string>, a: string, succ: string, b: string)
    requires (a, succ) in e && b in Through(e, kept, succ)
    ensures Bridged(e, kept, a, b)
  {
    if succ in kept {
      assert Bridge(e, kept, [a, succ], a, b);
    } else {
      var p :| Bridge(e, kept, p, succ, b);
      var q := [a] + p;
      forall i | 0 <= i < |q| - 1 ensures (q[i], q[i + 1]) in e {
        if i > 0 { assert (p[i - 1], p[i]) in e; }
      }
      assert Bridge(e, kept, q, a, b);
    }
  }

  lemma BridgeBegins(e: Edges, kept: set<string>, a: string, b: string) returns (succ: string)
    requires Bridged(e, kept, a, b)
    ensures (a, succ) in e && b in Through(e, kept, succ)
  {
    var p :| Bridge(e, kept, p, a, b);
    succ := p[1];
    assert (p[0], p[1]) in e;
    if succ !in kept {
      SubPath(e, p, 1, |p|);
      assert Bridge(e, kept, p[1..|p|], succ, b);
    }
  }

  ghost function UnionOver(e: Edges, kept: set<string>, succs: seq<string>, n: nat): set<string>
    requires n <= |succs|
  {
    if n == 0 then {} else UnionOver(e, kept, succs, n - 1) + Through(e, kept, succs[n - 1])
  }

  lemma {:induction false} UnionMembers(e: Edges, kept: set<string>, succs: seq<string>, n: nat, b: string)
    requires n <= |succs|
    ensures b in UnionOver(e, kept, succs, n) <==> exists i :: 0 <= i < n && b in Through(e, kept, succs[i])
  {
    if n > 0 { UnionMembers(e, kept, succs, n - 1, b); }
  }

  ghost function Successors(adj: Adjacency, name: string): seq<string> {
    if name in adj then adj[name] else []
  }

  lemma TargetsAreUnion(adj: Adjacency, kept: set<string>, name: string)
    ensures Targets(EdgesOf(adj), kept, name)
         == UnionOver(EdgesOf(adj), kept, Successors(adj, name), |Successors(adj, name)|)
  {
    var e := EdgesOf(adj);
    var succs := Successors(adj, name);
    forall b ensures b in Targets(e, kept, name) <==> b in UnionOver(e, kept, succs, |succs|) {
      UnionMembers(e, kept, succs, |succs|, b);
      if b in Targets(e, kept, name) {
        var succ := BridgeBegins(e, kept, name, b);
        var i :| 0 <= i < |succs| && succs[i] == succ;
        assert b in Through(e, kept, succs[i]);
      }
      if i :| 0 <= i < |succs| && b in Through(e, kept, succs[i]) {
        assert (name, succs[i]) in e;
        BridgeExtends(e, kept, name, succs[i], b);
      }
    }
  }

  // ── the memoised recursion ───────────────────────────────────────────────

  ghost predicate Reaches(e: Edges, a: string, b: string) {
    exists p :: IsPath(e, p) && p[0] == a && p[|p| - 1] == b
  }

  lemma ReachesStep(e: Edges, a: string, b: string, c: string)
    requires Reaches(e, a, b) && (b, c) in e
    ensures Reaches(e, a, c)
  {
    var p :| IsPath(e, p) && p[0] == a && p[|p| - 1] == b;
    assert IsPath(e, [b, c]);
    PathConcat(e, p, [b, c]);
    assert [b, c][1..] == [c];
  }

  /** An edge back to an ancestor closes a cycle. */
  lemma BackEdgeIsCycle(e: Edges, a: string, b: string)
    requires Reaches(e, a, b) && (b, a) in e
    ensures !Acyclic(e)
  {
    var p :| IsPath(e, p) && p[0] == a && p[|p| - 1] == b;
    assert IsPath(e, [b, a]);
    PathConcat(e, p, [b, a]);
    var q := p + [b, a][1..];
    assert q[0] == q[|q| - 1];
  }

  class ArchitectureMapper {
    const adjacency: Adjacency
    const kept: set<string>
    /** Every name the recursion can meet. */
    ghost const universe: set<string>
    var memo: map<string, set<string>>

    constructor (adj: Adjacency, keep: set<string>)
      ensures adjacency == adj && kept == keep && memo == map[] && Closed()
    {
      adjacency, kept, memo := adj, keep, map[];
      universe := adj.Keys + set u, v | u in adj && v in adj[u] :: v;
    }

    ghost predicate Closed() {
      adjacency.Keys <= universe && forall u, v :: u in adjacency && v in adjacency[u] ==> v in universe
    }

    ghost predicate MemoRight()
      reads this
    {
      forall n :: n in memo ==> memo[n] == Targets(EdgesOf(adjacency), kept, n)
    }

    /** The call is one the acyclic case makes: every name in `seen` leads here. */
    ghost predicate Descends(name: string, seen: set<string>) {
      Acyclic(EdgesOf(adjacency)) && forall s :: s in seen ==> Reaches(EdgesOf(adjacency), s, name)
    }

    /** `kept_successors`.  It ends on every graph; on an acyclic one it returns
        exactly the bridged targets and leaves only right answers in the memo. */
    method KeptSuccessors(name: string, seen: set<string>) returns (out: set<string>)
      requires Closed()
      modifies this
      ensures Descends(name, seen) && old(MemoRight()) ==>
                MemoRight() && out == Targets(EdgesOf(adjacency), kept, name)
      decreases universe - seen, if name in seen then 1 else 0
    {
      if name in memo {
        return memo[name];
      }
      out := {};
      var succs := if name in adjacency then adjacency[name] else [];
      ghost var e := EdgesOf(adjacency);
      ghost var good := Descends(name, seen) && MemoRight();
      for i := 0 to |succs|
        invariant good ==> MemoRight() && out == UnionOver(e, kept, succs, i)
      {
        var succ := succs[i];
        assert (name, succ) in e && succ in universe;
        if good { NotSeen(name, seen, succ); }
        if succ in seen { continue; }
        if succ in kept {
          out := out + {succ};
        } else {
          if good { DescendsTo(name, seen, succ); }
          var more := Descend(name, seen, succ);
          out := out + more;
        }
      }
      memo := memo[name := out];
      if good { TargetsAreUnion(adjacency, kept, name); }
    }

    method Descend(name: string, seen: set<string>, succ: string) returns (out: set<string>)
      requires Closed() && name in adjacency && succ !in seen
      modifies this
      ensures Descends(succ, seen + {name}) && old(MemoRight()) ==>
                MemoRight() && out == Targets(EdgesOf(adjacency), kept, succ)
      decreases universe - seen, if name in seen then 1 else 0, 0
    {
      if name in seen {
        assert seen + {name} == seen;
      } else {
        assert name in universe - seen && name !in universe - (seen + {name});
      }
      out := KeptSuccessors(succ, seen + {name});
    }

    lemma NotSeen(name: string, seen: set<string>, succ: string)
      requires Descends(name, seen) && (name, succ) in EdgesOf(adjacency)
      ensures succ !in seen
    {
      if succ in seen { BackEdgeIsCycle(EdgesOf(adjacency), succ, name); }
    }

    lemma DescendsTo(name: string, seen: set<string>, succ: string)
      requires Descends(name, seen) && (name, succ) in EdgesOf(adjacency)
      ensures Descends(succ, seen + {name})
    {
      forall s | s in seen + {name} ensures Reaches(EdgesOf(adjacency), s, succ) {
        if s == name {
          assert IsPath(EdgesOf(adjacency), [name, succ]);
        } else {
          ReachesStep(EdgesOf(adjacency), s, name, succ);
        }
      }
    }

    // ── the edge list ──────────────────────────────────────────────────────

    /** `sorted(targets, key=topo.index)` for an order without repeats. */
    static function InOrder(order: seq<string>, targets: set<string>): (s: seq<string>)
    {
      if order == [] then []
      else if order[0] in targets then [order[0]] + InOrder(order[1..], targets)
      else InOrder(order[1..], targets)
    }

    static lemma {:induction false} InOrderExact(order: seq<string>, targets: set<string>)
      requires NoRepeats(order)
      ensures NoRepeats(InOrder(order, targets))
      ensures forall s :: s in InOrder(order, targets) <==> s in order && s in targets
    {
      if order != [] {
        var rest := order[1..];
        assert order == [order[0]] + rest;
        assert NoRepeats(rest);
        assert order[0] !in rest;
        InOrderExact(rest, targets);
      }
    }

    /** The edges of `map_architecture`: source by source in topological order. */
    method EdgePairs(topo: seq<string>) returns (pairs: seq<(string, string)>)
      requires Closed() && NoRepeats(topo) && (forall k :: k in kept ==> k in topo)
      requires memo == map[] && Acyclic(EdgesOf(adjacency))
      modifies this
      ensures NoRepeats(pairs)
      ensures forall a, b :: (a, b) in pairs <==> a in kept && Bridged(EdgesOf(adjacency), kept, a, b)
    {
      pairs := [];
      var seenEdges := {};
      ghost var e := EdgesOf(adjacency);
      for i := 0 to |topo|
        invariant MemoRight() && NoRepeats(pairs)
        invariant forall p :: p in seenEdges <==> p in pairs
        invariant forall a, b :: (a, b) in pairs <==> a in topo[..i] && a in kept && Bridged(e, kept, a, b)
      {
        var name := topo[i];
        assert topo[..i + 1] == topo[..i] + [name];
        if name !in kept { continue; }
        assert name !in topo[..i];
        var targets := KeptSuccessors(name, {});
        var sorted := InOrder(topo, targets);
        InOrderExact(topo, targets);
        ghost var before := pairs;
        for j := 0 to |sorted|
          invariant NoRepeats(pairs)
          invariant forall p :: p in seenEdges <==> p in pairs
          invariant forall p :: p in pairs <==> p in before || (p.0 == name && p.1 in sorted[..j])
        {
          assert sorted[..j + 1] == sorted[..j] + [sorted[j]];
          var pair := (name, sorted[j]);
          if pair !in seenEdges {
            seenEdges := seenEdges + {pair};
            pairs := pairs + [pair];
          }
        }
        assert sorted[..|sorted|] == sorted;
        forall b ensures b in sorted <==> Bridged(e, kept, name, b) {}
      }
      assert topo[..|topo|] == topo;
    }
  }

  /** Bridged edges follow the topological order they were derived from. */
  lemma BridgedForward(e: Edges, kept: set<string>, topo: seq<string>, a: string, b: string, i: nat, j: nat)
    requires Forward(e, topo) && Bridged(e, kept, a, b)
    requires forall u, v :: (u, v) in e ==> u in topo && v in topo
    requires i < |topo| && topo[i] == a && j < |topo| && topo[j] == b
    ensures i < j
  {
    var p :| Bridge(e, kept, p, a, b);
    forall x | x in p ensures x in topo {
      var k :| 0 <= k < |p| && p[k] == x;
      if k == 0 { assert (p[0], p[1]) in e; } else { assert (p[k - 1], p[k]) in e; }
    }
    PathAdvances(e, topo, p, i, j);
  }
}
