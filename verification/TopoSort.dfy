/** Operator adjacency and Kahn's algorithm
    (astra/graph/onnx_analyzer.py: `_build_adjacency`, `_topological_sort`). */
module TopoSort {
  import opened Collections
  import opened Digraph
  import opened Options

  type Adjacency = map<string, seq<string>>

  ghost function EdgesOf(adj: Adjacency): Edges {
    set u, v | u in adj && v in adj[u] :: (u, v)
  }

  // ── adjacency ────────────────────────────────────────────────────────────

  datatype Node = Node(name: string, inputs: seq<string>, outputs: seq<string>)

  /** The node recorded as producer of `tensor`: the last one listing it. */
  ghost function Producer(nodes: seq<Node>, tensor: string): Option<string> {
    if nodes == [] then None
    else
      var last := nodes[|nodes| - 1];
      if tensor != "" && tensor in last.outputs then Some(last.name) else Producer(nodes[..|nodes| - 1], tensor)
  }

  /** `consumer` reads some tensor that `producer` makes. */
  ghost predicate Feeds(nodes: seq<Node>, producer: string, consumer: Node, n: nat)
    requires n <= |consumer.inputs|
  {
    exists k :: 0 <= k < n && Producer(nodes, consumer.inputs[k]) == Some(producer)
  }

  ghost predicate FedBy(nodes: seq<Node>, producer: string, name: string, m: nat)
    requires m <= |nodes|
  {
    exists i :: 0 <= i < m && nodes[i].name == name && Feeds(nodes, producer, nodes[i], |nodes[i].inputs|)
  }

  ghost predicate Producers(nodes: seq<Node>, n: nat, made: map<string, string>)
    requires n <= |nodes|
  {
    forall t ::
      && (t in made <==> Producer(nodes[..n], t).Some?)
      && (t in made ==> Producer(nodes[..n], t) == Some(made[t]))
  }

  /** Record `name` as producer of each of its named outputs. */
  method NoteOutputs(made: map<string, string>, name: string, outs: seq<string>) returns (made': map<string, string>)
    ensures forall t :: t in made' <==> t in made || (t != "" && t in outs)
    ensures forall t :: t in made' ==> made'[t] == if t != "" && t in outs then name else made[t]
  {
    made' := made;
    for k := 0 to |outs|
      invariant forall t :: t in made' <==> t in made || (t != "" && t in outs[..k])
      invariant forall t :: t in made' ==> made'[t] == if t != "" && t in outs[..k] then name else made[t]
    {
      assert outs[..k + 1] == outs[..k] + [outs[k]];
      if outs[k] != "" {
        made' := made'[outs[k] := name];
      }
    }
    assert outs[..|outs|] == outs;
  }

  lemma ProducerSnoc(nodes: seq<Node>, i: nat, t: string)
    requires i < |nodes|
    ensures Producer(nodes[..i + 1], t)
         == if t != "" && t in nodes[i].outputs then Some(nodes[i].name) else Producer(nodes[..i], t)
  {
    assert nodes[..i + 1][..i] == nodes[..i];
  }

  lemma {:induction false} ProducerExists(nodes: seq<Node>, t: string)
    requires Producer(nodes, t).Some?
    ensures exists i :: 0 <= i < |nodes| && nodes[i].name == Producer(nodes, t).value
  {
    var last := nodes[|nodes| - 1];
    if t != "" && t in last.outputs {
      assert nodes[|nodes| - 1].name == last.name;
    } else {
      var init := nodes[..|nodes| - 1];
      ProducerExists(init, t);
      var i :| 0 <= i < |init| && init[i].name == Producer(init, t).value;
      assert nodes[i] == init[i];
    }
  }

  method MapProducers(nodes: seq<Node>) returns (made: map<string, string>)
    ensures Producers(nodes, |nodes|, made)
  {
    made := map[];
    for i := 0 to |nodes|
      invariant Producers(nodes, i, made)
    {
      ghost var before := made;
      made := NoteOutputs(made, nodes[i].name, nodes[i].outputs);
      forall t
        ensures (t in made <==> Producer(nodes[..i + 1], t).Some?)
                && (t in made ==> Producer(nodes[..i + 1], t) == Some(made[t]))
      {
        ProducerSnoc(nodes, i, t);
      }
    }
  }

  method EmptyLists(nodes: seq<Node>) returns (adj: Adjacency)
    ensures forall name :: name in adj <==> exists k :: 0 <= k < |nodes| && nodes[k].name == name
    ensures forall p :: p in adj ==> adj[p] == []
  {
    adj := map[];
    for i := 0 to |nodes|
      invariant forall name :: name in adj <==> exists k :: 0 <= k < i && nodes[k].name == name
      invariant forall p :: p in adj ==> adj[p] == []
    {
      adj := adj[nodes[i].name := []];
    }
  }

  /** Link one consumer behind the producers of its inputs, once each. */
  method LinkNode(made: map<string, string>, adj: Adjacency, name: string, inputs: seq<string>)
    returns (adj': Adjacency)
    requires forall t :: t in made ==> made[t] in adj
    requires forall p :: p in adj ==> NoRepeats(adj[p])
    ensures adj'.Keys == adj.Keys
    ensures forall p :: p in adj' ==> NoRepeats(adj'[p])
    ensures forall p, c :: p in adj' ==>
              (c in adj'[p] <==>
                 || c in adj[p]
                 || (c == name && exists k :: 0 <= k < |inputs| && inputs[k] in made && made[inputs[k]] == p))
  {
    adj' := adj;
    for k := 0 to |inputs|
      invariant adj'.Keys == adj.Keys
      invariant forall p :: p in adj' ==> NoRepeats(adj'[p])
      invariant forall p, c :: p in adj' ==>
        (c in adj'[p] <==>
           c in adj[p] || (c == name && exists m :: 0 <= m < k && inputs[m] in made && made[inputs[m]] == p))
    {
      var inp := inputs[k];
      if inp in made {
        var producer := made[inp];
        if name !in adj'[producer] {
          adj' := adj'[producer := adj'[producer] + [name]];
        }
      }
    }
  }

  method BuildAdjacency(nodes: seq<Node>) returns (adj: Adjacency)
    ensures forall name :: name in adj <==> exists i :: 0 <= i < |nodes| && nodes[i].name == name
    ensures forall p :: p in adj ==> NoRepeats(adj[p])
    ensures forall p, c :: p in adj ==> (c in adj[p] <==> FedBy(nodes, p, c, |nodes|))
  {
    var made := MapProducers(nodes);
    assert nodes[..|nodes|] == nodes;
    adj := EmptyLists(nodes);
    ghost var names := adj.Keys;
    forall t | t in made ensures made[t] in names {
      ProducerExists(nodes, t);
    }
    for i := 0 to |nodes|
      invariant adj.Keys == names
      invariant forall p :: p in adj ==> NoRepeats(adj[p])
      invariant forall p, c :: p in adj ==> (c in adj[p] <==> FedBy(nodes, p, c, i))
    {
      ghost var before := adj;
      adj := LinkNode(made, adj, nodes[i].name, nodes[i].inputs);
      forall p, c | p in adj ensures c in adj[p] <==> FedBy(nodes, p, c, i + 1) {
        FedBySnoc(nodes, made, p, c, i);
      }
    }
  }

  lemma FedBySnoc(nodes: seq<Node>, made: map<string, string>, p: string, c: string, i: nat)
    requires i < |nodes| && Producers(nodes, |nodes|, made)
    ensures FedBy(nodes, p, c, i + 1)
            <==> FedBy(nodes, p, c, i) || (c == nodes[i].name
                 && exists k :: 0 <= k < |nodes[i].inputs| && nodes[i].inputs[k] in made
                                && made[nodes[i].inputs[k]] == p)
  {
    assert nodes[..|nodes|] == nodes;
    var ins := nodes[i].inputs;
    assert Feeds(nodes, p, nodes[i], |ins|) <==> exists k :: 0 <= k < |ins| && ins[k] in made && made[ins[k]] == p by {
      if Feeds(nodes, p, nodes[i], |ins|) {
        var k :| 0 <= k < |ins| && Producer(nodes, ins[k]) == Some(p);
        assert ins[k] in made;
      }
      if exists k :: 0 <= k < |ins| && ins[k] in made && made[ins[k]] == p {
        var k :| 0 <= k < |ins| && ins[k] in made && made[ins[k]] == p;
        assert Producer(nodes, ins[k]) == Some(p);
      }
    }
  }

  // ── Kahn's algorithm ─────────────────────────────────────────────────────

  /** How many edge occurrences into `v` start at a node outside `done`. */
  ghost function Pending(names: seq<string>, adj: Adjacency, done: set<string>, v: string): nat
    requires forall u :: u in names ==> u in adj
  {
    if names == [] then 0
    else (if names[0] in done then 0 else multiset(adj[names[0]])[v]) + Pending(names[1..], adj, done, v)
  }

  /** Removing `u` from the waiting set removes exactly its occurrences. */
  lemma {:induction false} PendingDrops(names: seq<string>, adj: Adjacency, done: set<string>, u: string, v: string)
    requires NoRepeats(names) && (forall x :: x in names ==> x in adj) && u in names && u !in done
    ensures Pending(names, adj, done, v) == Pending(names, adj, done + {u}, v) + multiset(adj[u])[v]
  {
    if names[0] == u {
      assert u !in names[1..];
      PendingSame(names[1..], adj, done, u, v);
    } else {
      PendingDrops(names[1..], adj, done, u, v);
    }
  }

  lemma {:induction false} PendingSame(names: seq<string>, adj: Adjacency, done: set<string>, u: string, v: string)
    requires (forall x :: x in names ==> x in adj) && u !in names
    ensures Pending(names, adj, done, v) == Pending(names, adj, done + {u}, v)
  {
    if names != [] { PendingSame(names[1..], adj, done, u, v); }
  }

  lemma {:induction false} PendingZero(names: seq<string>, adj: Adjacency, done: set<string>, v: string)
    requires forall x :: x in names ==> x in adj
    ensures Pending(names, adj, done, v) == 0 <==> forall u :: u in names && v in adj[u] ==> u in done
  {
    if names != [] {
      PendingZero(names[1..], adj, done, v);
      assert names[0] in names;
      assert v in adj[names[0]] <==> multiset(adj[names[0]])[v] > 0;
      if Pending(names, adj, done, v) == 0 {
        forall u | u in names && v in adj[u] ensures u in done {
          if u != names[0] { assert u in names[1..]; }
        }
      } else {
        assert (names[0] !in done && v in adj[names[0]]) || Pending(names[1..], adj, done, v) > 0;
      }
    }
  }

  ghost predicate Graph(names: seq<string>, adj: Adjacency) {
    && NoRepeats(names) && (forall u :: u in names <==> u in adj)
    && (forall u, v :: u in adj && v in adj[u] ==> v in names)
  }

  method CountFrom(inDegree: map<string, int>, succs: seq<string>) returns (counted: map<string, int>)
    requires forall v :: v in succs ==> v in inDegree
    ensures counted.Keys == inDegree.Keys
    ensures forall v :: v in inDegree ==> counted[v] == inDegree[v] + multiset(succs)[v]
  {
    counted := inDegree;
    for k := 0 to |succs|
      invariant counted.Keys == inDegree.Keys
      invariant forall v :: v in inDegree ==> counted[v] == inDegree[v] + multiset(succs[..k])[v]
    {
      assert succs[..k + 1] == succs[..k] + [succs[k]];
      counted := counted[succs[k] := counted[succs[k]] + 1];
    }
    assert succs[..|succs|] == succs;
  }

  /** Edges out of the first `i` operators are counted. */
  ghost predicate Counted(names: seq<string>, adj: Adjacency, i: nat, inDegree: map<string, int>)
    requires Graph(names, adj) && i <= |names|
  {
    && inDegree.Keys == SetOf(names)
    && forall v :: v in names ==> inDegree[v] + Pending(names[i..], adj, {}, v) == Pending(names, adj, {}, v)
  }

  lemma CountedMore(names: seq<string>, adj: Adjacency, i: nat, was: map<string, int>, inDegree: map<string, int>)
    requires Graph(names, adj) && i < |names| && Counted(names, adj, i, was)
    requires inDegree.Keys == was.Keys
    requires forall v :: v in was ==> inDegree[v] == was[v] + multiset(adj[names[i]])[v]
    ensures Counted(names, adj, i + 1, inDegree)
  {
    assert names[i..][0] == names[i] && names[i..][1..] == names[i + 1..];
    forall v | v in names
      ensures inDegree[v] + Pending(names[i + 1..], adj, {}, v) == Pending(names, adj, {}, v)
    {
      assert Pending(names[i..], adj, {}, v) == multiset(adj[names[i]])[v] + Pending(names[i + 1..], adj, {}, v);
    }
  }

  method CountInDegrees(names: seq<string>, adj: Adjacency) returns (inDegree: map<string, int>)
    requires Graph(names, adj)
    ensures inDegree.Keys == SetOf(names)
    ensures forall v :: v in names ==> inDegree[v] == Pending(names, adj, {}, v)
  {
    inDegree := map v | v in names :: 0;
    assert names[0..] == names;
    for i := 0 to |names|
      invariant Counted(names, adj, i, inDegree)
    {
      ghost var was := inDegree;
      inDegree := CountFrom(inDegree, adj[names[i]]);
      CountedMore(names, adj, i, was, inDegree);
    }
  }

  /** State between two rounds of the main loop. */
  ghost predicate Round(names: seq<string>, adj: Adjacency, inDegree: map<string, int>, queue: seq<string>,
                        result: seq<string>)
    requires Graph(names, adj)
  {
    && inDegree.Keys == SetOf(names)
    && NoRepeats(result + queue) && (forall v :: v in result + queue ==> v in names)
    && (forall v :: v in names ==> inDegree[v] == Pending(names, adj, SetOf(result), v))
    && (forall v :: v in names ==> (inDegree[v] == 0 <==> v in result + queue))
    && Settled(adj, result)
  }

  /** Nothing is emitted before all its predecessors. */
  ghost predicate Settled(adj: Adjacency, result: seq<string>) {
    forall i, u :: 0 <= i < |result| && u in adj && result[i] in adj[u] ==> u in result[..i]
  }

  lemma SettledSnoc(names: seq<string>, adj: Adjacency, result: seq<string>, v: string)
    requires Graph(names, adj) && Settled(adj, result) && v in names && Pending(names, adj, SetOf(result), v) == 0
    ensures Settled(adj, result + [v])
  {
    PendingZero(names, adj, SetOf(result), v);
    var r := result + [v];
    forall i, u | 0 <= i < |r| && u in adj && r[i] in adj[u] ensures u in r[..i] {
      if i < |result| {
        assert r[..i] == result[..i];
      } else {
        assert u in names && u in SetOf(result);
        assert r[..i] == result;
      }
    }
  }

  /** How often `v` is among the first `k`. */
  ghost function Seen(succs: seq<string>, k: nat, v: string): nat
    requires k <= |succs|
  {
    if k == 0 then 0 else Seen(succs, k - 1, v) + if succs[k - 1] == v then 1 else 0
  }

  lemma {:induction false} SeenIsCount(succs: seq<string>, k: nat, v: string)
    requires k <= |succs|
    ensures Seen(succs, k, v) == multiset(succs[..k])[v]
  {
    if k > 0 {
      SeenIsCount(succs, k - 1, v);
      assert succs[..k] == succs[..k - 1] + [succs[k - 1]];
    }
  }

  lemma SeenAll(succs: seq<string>)
    ensures forall v :: Seen(succs, |succs|, v) == multiset(succs)[v]
  {
    forall v ensures Seen(succs, |succs|, v) == multiset(succs)[v] {
      SeenIsCount(succs, |succs|, v);
      assert succs[..|succs|] == succs;
    }
  }

  lemma {:induction false} SeenGrows(succs: seq<string>, j: nat, k: nat, v: string)
    requires j <= k <= |succs|
    ensures Seen(succs, j, v) <= Seen(succs, k, v)
  {
    if j < k { SeenGrows(succs, j, k - 1, v); }
  }

  /** The first `k` successors have been decremented. */
  ghost predicate Lowered(inDegree: map<string, int>, succs: seq<string>, k: nat, inDegree': map<string, int>)
    requires k <= |succs|
  {
    && inDegree'.Keys == inDegree.Keys
    && forall v :: v in inDegree ==> inDegree'[v] == inDegree[v] - Seen(succs, k, v)
  }

  lemma LoweredMore(inDegree: map<string, int>, succs: seq<string>, k: nat, was: map<string, int>)
    requires k < |succs| && Lowered(inDegree, succs, k, was) && succs[k] in inDegree
    requires inDegree[succs[k]] >= Seen(succs, |succs|, succs[k])
    ensures Lowered(inDegree, succs, k + 1, was[succs[k] := was[succs[k]] - 1])
    ensures 0 < was[succs[k]] <= inDegree[succs[k]]
  {
    var succ := succs[k];
    SeenGrows(succs, k + 1, |succs|, succ);
    assert was[succ] == inDegree[succ] - Seen(succs, k, succ);
    var now := was[succ := was[succ] - 1];
    forall v | v in inDegree ensures now[v] == inDegree[v] - Seen(succs, k + 1, v) {
      assert was[v] == inDegree[v] - Seen(succs, k, v);
    }
  }

  /** The queue has gained the nodes whose degree has dropped to 0. */
  ghost predicate Queued(inDegree: map<string, int>, queue: seq<string>, inDegree': map<string, int>,
                         queue': seq<string>)
  {
    && NoRepeats(queue')
    && forall v :: v in queue' <==> v in queue || (v in inDegree && v in inDegree' && inDegree[v] > 0 == inDegree'[v])
  }

  lemma QueuedMore(inDegree: map<string, int>, queue: seq<string>, was: map<string, int>, had: seq<string>,
                   succ: string)
    requires Queued(inDegree, queue, was, had) && succ in inDegree && succ in was && 0 < was[succ] <= inDegree[succ]
    requires succ !in queue
    ensures var now := was[succ := was[succ] - 1];
            Queued(inDegree, queue, now, if now[succ] == 0 then had + [succ] else had)
  {
    assert succ !in had;
  }

  ghost predicate Working(inDegree: map<string, int>, succs: seq<string>, k: nat, queue: seq<string>,
                          inDegree': map<string, int>, queue': seq<string>)
    requires k <= |succs|
  {
    Lowered(inDegree, succs, k, inDegree') && Queued(inDegree, queue, inDegree', queue')
  }

  lemma WorkOne(inDegree: map<string, int>, succs: seq<string>, k: nat, queue: seq<string>, was: map<string, int>,
                had: seq<string>)
    requires k < |succs| && Working(inDegree, succs, k, queue, was, had) && succs[k] in inDegree
    requires inDegree[succs[k]] >= Seen(succs, |succs|, succs[k])
    requires forall v :: v in queue ==> v in inDegree && inDegree[v] == 0
    ensures succs[k] in was
    ensures var now := was[succs[k] := was[succs[k]] - 1];
            Working(inDegree, succs, k + 1, queue, now, if now[succs[k]] == 0 then had + [succs[k]] else had)
  {
    LoweredMore(inDegree, succs, k, was);
    QueuedMore(inDegree, queue, was, had, succs[k]);
  }

  /** Decrement the successors of a popped node, queueing those that reach 0. */
  method Decrement(inDegree: map<string, int>, succs: seq<string>, queue: seq<string>)
    returns (inDegree': map<string, int>, queue': seq<string>)
    requires NoRepeats(queue) && forall v :: v in queue ==> v in inDegree && inDegree[v] == 0
    requires forall v :: v in succs ==> v in inDegree
    requires forall v :: v in inDegree ==> inDegree[v] >= multiset(succs)[v]
    ensures inDegree'.Keys == inDegree.Keys
    ensures forall v :: v in inDegree ==> inDegree'[v] == inDegree[v] - multiset(succs)[v]
    ensures NoRepeats(queue')
    ensures forall v :: v in queue' <==> v in queue || (v in inDegree && inDegree[v] > 0 && inDegree'[v] == 0)
  {
    inDegree', queue' := inDegree, queue;
    SeenAll(succs);
    for k := 0 to |succs|
      invariant Working(inDegree, succs, k, queue, inDegree', queue')
    {
      var succ := succs[k];
      WorkOne(inDegree, succs, k, queue, inDegree', queue');
      inDegree' := inDegree'[succ := inDegree'[succ] - 1];
      if inDegree'[succ] == 0 {
        queue' := queue' + [succ];
      }
    }
  }

  lemma RoundParts(result: seq<string>, queue: seq<string>)
    ensures NoRepeats(result + queue)
            <==> NoRepeats(result) && NoRepeats(queue) && forall v :: v in result ==> v !in queue
  {
    var all := result + queue;
    if NoRepeats(all) {
      forall i, j | 0 <= i < j < |result| ensures result[i] != result[j] { assert all[i] != all[j]; }
      forall i, j | 0 <= i < j < |queue| ensures queue[i] != queue[j] {
        assert all[|result| + i] != all[|result| + j];
      }
      forall v | v in result ensures v !in queue {
        var i :| 0 <= i < |result| && result[i] == v;
        forall j | 0 <= j < |queue| ensures queue[j] != v { assert all[i] != all[|result| + j]; }
      }
    } else {
      var i, j :| 0 <= i < j < |all| && all[i] == all[j];
      if i < |result| <= j {
        assert all[i] in result && all[j] in queue;
      } else if j < |result| {
        assert result[i] == result[j];
      } else {
        assert queue[i - |result|] == queue[j - |result|];
      }
    }
  }

  /** One round of the main loop. */
  method Relax(names: seq<string>, adj: Adjacency, inDegree: map<string, int>, node: string, queue: seq<string>,
               ghost result: seq<string>)
    returns (inDegree': map<string, int>, queue': seq<string>)
    requires Graph(names, adj) && Round(names, adj, inDegree, [node] + queue, result)
    ensures Round(names, adj, inDegree', queue', result + [node])
  {
    RoundParts(result, [node] + queue);
    RoundParts([node], queue);
    assert node in [node] + queue;
    forall v | v in names
      ensures inDegree[v] == Pending(names, adj, SetOf(result) + {node}, v) + multiset(adj[node])[v]
    {
      PendingDrops(names, adj, SetOf(result), node, v);
    }
    forall v | v in queue ensures v in inDegree && inDegree[v] == 0 { assert v in result + ([node] + queue); }
    inDegree', queue' := Decrement(inDegree, adj[node], queue);
    assert SetOf(result + [node]) == SetOf(result) + {node};
    assert node in result + ([node] + queue);
    SettledSnoc(names, adj, result, node);
    RelaxedRound(names, adj, inDegree, inDegree', node, queue, queue', result);
  }

  lemma RelaxedRound(names: seq<string>, adj: Adjacency, inDegree: map<string, int>, inDegree': map<string, int>,
                     node: string, queue: seq<string>, queue': seq<string>, result: seq<string>)
    requires Graph(names, adj) && Round(names, adj, inDegree, [node] + queue, result)
    requires NoRepeats(queue') && inDegree'.Keys == inDegree.Keys
    requires forall v :: v in inDegree ==> inDegree'[v] == inDegree[v] - multiset(adj[node])[v]
    requires forall v :: v in names ==> inDegree'[v] == Pending(names, adj, SetOf(result + [node]), v)
    requires forall v :: v in queue' <==> v in queue || (v in inDegree && inDegree[v] > 0 && inDegree'[v] == 0)
    requires Settled(adj, result + [node])
    ensures Round(names, adj, inDegree', queue', result + [node])
  {
    RoundParts(result, [node] + queue);
    RoundParts([node], queue);
    RoundParts(result, [node]);
    forall v | v in result + [node] ensures v !in queue' && inDegree[v] == 0 && v in names {
      assert v in result + ([node] + queue);
      if v in result { assert v !in [node] + queue; }
    }
    RoundParts(result + [node], queue');
    forall v | v in result + [node] + queue' ensures v in names {
      if v in queue { assert v in result + ([node] + queue); }
    }
    forall v | v in names ensures inDegree'[v] == 0 <==> v in result + [node] + queue' {
      if inDegree[v] == 0 { assert v in result + ([node] + queue); }
    }
  }

  method TopologicalSort(names: seq<string>, adj: Adjacency) returns (result: seq<string>)
    requires Graph(names, adj)
    ensures Sorted(names, adj, result)
  {
    var inDegree := CountInDegrees(names, adj);
    var queue := [];
    result := [];
    for i := 0 to |names|
      invariant NoRepeats(queue) && forall v :: v in queue <==> v in names[..i] && inDegree[v] == 0
    {
      if inDegree[names[i]] == 0 {
        assert names[i] !in names[..i];
        queue := queue + [names[i]];
      }
    }
    assert names[..|names|] == names;
    assert result + queue == queue && SetOf(result) == {};
    while queue != []
      invariant Round(names, adj, inDegree, queue, result)
      decreases |names| - |result|
    {
      var node := queue[0];
      assert [node] + queue[1..] == queue;
      ghost var before := result;
      inDegree, queue := Relax(names, adj, inDegree, node, queue[1..], result);
      result := result + [node];
      Bounded(names, result, queue);
    }
    forall v | v in names && v !in result ensures Blocked(names, adj, result, v) {
      assert result + queue == result;
      PendingZero(names, adj, SetOf(result), v);
    }
    assert result + queue == result;
  }

  lemma Bounded(names: seq<string>, result: seq<string>, queue: seq<string>)
    requires NoRepeats(result + queue) && forall v :: v in result + queue ==> v in names
    ensures |result| <= |names|
  {
    forall i, j | 0 <= i < j < |result| ensures result[i] != result[j] {
      assert (result + queue)[i] == result[i] && (result + queue)[j] == result[j];
    }
    forall v | v in result ensures v in SetOf(names) { assert v in result + queue; }
    DistinctFits(result, SetOf(names));
    SetOfSeq(names);
  }

  // ── what the order is good for ───────────────────────────────────────────

  /** What the sort promises of its result. */
  ghost predicate Sorted(names: seq<string>, adj: Adjacency, result: seq<string>) {
    && Graph(names, adj) && NoRepeats(result) && (forall v :: v in result ==> v in names) && Settled(adj, result)
    && (forall v {:trigger Blocked(names, adj, result, v)} :: v in names && v !in result ==>
        Blocked(names, adj, result, v))
  }

  /** `v` waits for a predecessor that was never emitted. */
  ghost predicate Blocked(names: seq<string>, adj: Adjacency, result: seq<string>, v: string)
    requires Graph(names, adj)
  {
    exists u :: u in names && u !in result && v in adj[u]
  }

  lemma SortedForward(names: seq<string>, adj: Adjacency, result: seq<string>)
    requires Sorted(names, adj, result)
    ensures Forward(EdgesOf(adj), result)
  {
    forall i, j | 0 <= i < |result| && 0 <= j < |result| && (result[i], result[j]) in EdgesOf(adj) ensures i < j {
      assert result[i] in result[..j];
      var k :| 0 <= k < j && result[k] == result[i];
    }
  }

  lemma MissingMeansCycle(names: seq<string>, adj: Adjacency, result: seq<string>, v: string)
    requires Sorted(names, adj, result) && v in names && v !in result
    ensures !Acyclic(EdgesOf(adj))
  {
    var rest := set x | x in names && x !in result;
    forall x | x in rest ensures HasPredecessor(EdgesOf(adj), rest, x) {
      assert Blocked(names, adj, result, x);
      var u :| u in names && u !in result && x in adj[u];
      assert u in rest && (u, x) in EdgesOf(adj);
    }
    assert v in rest;
    PredecessorClosedHasCycle(EdgesOf(adj), rest);
  }

  lemma PathNodes(names: seq<string>, adj: Adjacency, p: seq<string>, x: string)
    requires Graph(names, adj) && IsPath(EdgesOf(adj), p) && |p| >= 2 && x in p
    ensures x in names
  {
    var k :| 0 <= k < |p| && p[k] == x;
    if k == 0 { assert (p[0], p[1]) in EdgesOf(adj); } else { assert (p[k - 1], p[k]) in EdgesOf(adj); }
  }

  lemma CompleteMeansAcyclic(names: seq<string>, adj: Adjacency, result: seq<string>, p: seq<string>)
    requires Sorted(names, adj, result) && forall v :: v in names ==> v in result
    requires IsPath(EdgesOf(adj), p) && |p| >= 2
    ensures p[0] != p[|p| - 1]
  {
    SortedForward(names, adj, result);
    forall x | x in p ensures x in result { PathNodes(names, adj, p, x); }
    if p[0] == p[|p| - 1] {
      assert p[0] in p;
      var i :| 0 <= i < |result| && result[i] == p[0];
      PathAdvances(EdgesOf(adj), result, p, i, i);
    }
  }

  /** The result orders every edge forward and is complete exactly when the graph
      has no cycle; on a cyclic graph it still ends, with the cycles left out. */
  lemma CompleteIffAcyclic(names: seq<string>, adj: Adjacency, result: seq<string>)
    requires Sorted(names, adj, result)
    ensures Forward(EdgesOf(adj), result)
    ensures (forall v :: v in names ==> v in result) <==> Acyclic(EdgesOf(adj))
  {
    SortedForward(names, adj, result);
    if forall v :: v in names ==> v in result {
      forall p | IsPath(EdgesOf(adj), p) && |p| >= 2 ensures p[0] != p[|p| - 1] {
        CompleteMeansAcyclic(names, adj, result, p);
      }
    } else {
      var v :| v in names && v !in result;
      MissingMeansCycle(names, adj, result, v);
    }
  }
}
