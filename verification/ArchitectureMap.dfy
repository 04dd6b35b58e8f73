/** The whole architecture mapping: sort, bridge, lay out, wrap
    (`map_architecture` over an analysed graph). */
module ArchitectureMap {
  import opened Collections
  import opened Digraph
  import T = TopoSort
  import B = Bridging
  import L = Layout

  /** Filtering an order keeps positions in order. */
  lemma {:induction false} InOrderPositions(order: seq<string>, targets: set<string>) returns (at: seq<nat>)
    ensures var s := B.ArchitectureMapper.InOrder(order, targets);
            |at| == |s| && (forall i :: 0 <= i < |at| ==> at[i] < |order| && order[at[i]] == s[i])
    ensures forall i, j :: 0 <= i < j < |at| ==> at[i] < at[j]
  {
    at := [];
    if order != [] {
      var rest := InOrderPositions(order[1..], targets);
      at := seq(|rest|, i requires 0 <= i < |rest| => rest[i] + 1);
      if order[0] in targets { at := [0] + at; }
    }
  }

  /** The bridged edges over the kept operators are what the layout expects. */
  lemma LayoutInput(adj: T.Adjacency, topo: seq<string>, kept: set<string>, pairs: seq<(string, string)>,
                    ids: seq<string>)
    requires NoRepeats(topo) && Forward(T.EdgesOf(adj), topo) && (forall k :: k in kept ==> k in topo)
    requires forall u, v :: (u, v) in T.EdgesOf(adj) ==> u in topo && v in topo
    requires ids == B.ArchitectureMapper.InOrder(topo, kept)
    requires forall a, b :: (a, b) in pairs <==> a in kept && B.Bridged(T.EdgesOf(adj), kept, a, b)
    ensures L.Input(ids, pairs)
  {
    B.ArchitectureMapper.InOrderExact(topo, kept);
    forall i, j | 0 <= i < |ids| && 0 <= j < |ids| && (ids[i], ids[j]) in L.EdgeSet(pairs) ensures i < j {
      assert (ids[i], ids[j]) in pairs;
      BridgeForward(adj, topo, kept, ids, i, j);
    }
    forall a, b | (a, b) in pairs ensures a in ids && b in ids {
      assert B.Bridged(T.EdgesOf(adj), kept, a, b);
    }
  }

  lemma BridgeForward(adj: T.Adjacency, topo: seq<string>, kept: set<string>, ids: seq<string>, i: nat, j: nat)
    requires Forward(T.EdgesOf(adj), topo) && forall u, v :: (u, v) in T.EdgesOf(adj) ==> u in topo && v in topo
    requires ids == B.ArchitectureMapper.InOrder(topo, kept) && i < |ids| && j < |ids|
    requires B.Bridged(T.EdgesOf(adj), kept, ids[i], ids[j])
    ensures i < j
  {
    var at := InOrderPositions(topo, kept);
    B.BridgedForward(T.EdgesOf(adj), kept, topo, ids[i], ids[j], at[i], at[j]);
  }

  /** For every acyclic graph with distinct names and every choice of kept
      operators: the drawn edges are exactly the bridges, each once, plus the
      wrapping; depths are longest paths; places are distinct; every kept operator
      lies on a path from input to output; and every drawn edge goes strictly
      deeper, if and only if no kept operator is called "input" or "output". */
  method MapArchitecture(names: seq<string>, adj: T.Adjacency, kept: set<string>)
    returns (ids: seq<string>, pairs: seq<(string, string)>, pos: map<string, L.NodePos>,
             all: seq<(string, string)>, nodes: seq<L.Drawn>)
    requires T.Graph(names, adj) && Acyclic(T.EdgesOf(adj)) && forall k :: k in kept ==> k in names
    ensures NoRepeats(ids) && (forall n :: n in ids <==> n in kept)
    ensures NoRepeats(pairs)
    ensures forall a, b :: (a, b) in pairs <==> a in kept && B.Bridged(T.EdgesOf(adj), kept, a, b)
    ensures L.Input(ids, pairs) && pos.Keys == SetOf(ids)
    ensures forall n :: n in ids ==> L.IsLongest(L.EdgeSet(pairs), n, pos[n].depth)
    ensures forall a, b :: a in ids && b in ids && a != b ==> pos[a] != pos[b]
    ensures L.Wrapped(ids, pairs, all) && L.DrawnAs(ids, L.DepthsOf(pos), nodes)
    ensures forall n :: n in kept ==> L.OnPath(all, n)
    ensures L.Deepens(nodes, all) <==> L.INPUT !in kept && L.OUTPUT !in kept
  {
    var topo := T.TopologicalSort(names, adj);
    T.CompleteIffAcyclic(names, adj, topo);
    var mapper := new B.ArchitectureMapper(adj, kept);
    pairs := mapper.EdgePairs(topo);
    ids := B.ArchitectureMapper.InOrder(topo, kept);
    B.ArchitectureMapper.InOrderExact(topo, kept);
    LayoutInput(adj, topo, kept, pairs, ids);
    pos := L.ComputeLayout(ids, pairs);
    all := L.WrapEdges(ids, pairs);
    nodes := L.DrawNodes(ids, pos);
    forall n | n in kept ensures L.OnPath(all, n) {
      var p := L.OnInputOutputPath(ids, pairs, all, L.DepthsOf(pos), n);
    }
    L.EdgesDeepenIff(ids, pairs, all, L.DepthsOf(pos), nodes);
  }
}
