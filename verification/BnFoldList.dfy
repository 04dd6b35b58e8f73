/** A list of BatchNormalization folds, as one compression run applies them
    (astra/graph/onnx_transformer.py, `apply` and `_apply_bn_fusion`), with a
    condition on the graph it starts from. */
module BnFoldList {
  import opened BnFusion
  import opened Collections
  import opened OnnxGraph
  import opened Options

  /** Operators have the inputs and outputs their kind demands. */
  ghost predicate Formed(g: Graph) {
    && (forall n :: n in g.nodes && n.op.BatchNorm? ==> |n.inputs| >= 5 && |n.outputs| >= 1)
    && (forall n :: n in g.nodes && (n.op.Conv? || n.op.Gemm?) ==> |n.inputs| >= 2 && |n.outputs| >= 1)
  }

  // ── one fold of the list ─────────────────────────────────────────────────

  function BnAt(g: Graph, name: string): nat { IndexOfName(g.nodes, name) }

  function ProducerAt(g: Graph, name: string): nat {
    var b := BnAt(g, name);
    if b < |g.nodes| && |g.nodes[b].inputs| > 0 then IndexOfProducer(g.nodes, g.nodes[b].inputs[0]) else |g.nodes|
  }

  /** The node called `name` and its producer form a site where the fold is exact. */
  ghost predicate Foldable(g: Graph, name: string) {
    var p, b := ProducerAt(g, name), BnAt(g, name);
    Site(g, p, b) && Private(g, p, b) && (WeightOf(g, p).rank == 2 || WeightOf(g, p).rank == 4)
  }

  ghost function Fold(k: Kernels, g: Graph, name: string): Graph
    requires Foldable(g, name)
  {
    Folded(k, g, ProducerAt(g, name), BnAt(g, name))
  }

  lemma FusedIsFold(k: Kernels, g: Graph, name: string)
    requires Formed(g) && Foldable(g, name)
    ensures Fused(k, g, name) == Done(Fold(k, g, name))
  {
  }

  // ── where the nodes go ───────────────────────────────────────────────────

  function After(b: nat, i: nat): nat { if i <= b then i else i - 1 }

  function Before(b: nat, j: nat): nat { if j < b then j else j + 1 }

  lemma Moved(k: Kernels, g: Graph, p: nat, b: nat)
    requires Site(g, p, b)
    ensures var h := Folded(k, g, p, b);
            && |h.nodes| == |g.nodes| - 1
            && forall j :: 0 <= j < |h.nodes| ==>
                 h.nodes[j] == if j == p then FusedNode(g, p, b) else g.nodes[Before(b, j)]
  {
    FoldedNodes(k, g, p, b);
  }

  lemma MovedTo(k: Kernels, g: Graph, p: nat, b: nat, i: nat)
    requires Site(g, p, b) && i < |g.nodes| && i != b && i != p
    ensures After(b, i) < |Folded(k, g, p, b).nodes| && Folded(k, g, p, b).nodes[After(b, i)] == g.nodes[i]
  {
    Moved(k, g, p, b);
  }

  // ── single assignment survives ───────────────────────────────────────────

  lemma {:induction false} OutputsSplit(a: seq<Node>, b: seq<Node>)
    ensures Outputs(a + b) == Outputs(a) + Outputs(b)
  {
    if a == [] {
      assert a + b == b;
    } else {
      assert (a + b)[0] == a[0] && (a + b)[1..] == a[1..] + b;
      OutputsSplit(a[1..], b);
    }
  }

  lemma OutputsAround(a: seq<Node>, n: Node, b: seq<Node>)
    ensures Outputs(a + ([n] + b)) == Outputs(a) + (n.outputs + Outputs(b))
  {
    OutputsSplit(a, [n] + b);
    assert ([n] + b)[1..] == b;
  }

  lemma DropName(a: seq<string>, y: string, m: seq<string>, z: string, c: seq<string>)
    requires NoRepeats(a + ([y] + (m + ([z] + c))))
    ensures NoRepeats(a + ([z] + (m + c)))
  {
    var s, t := a + ([y] + (m + ([z] + c))), a + ([z] + (m + c));
    forall i, j | 0 <= i < j < |t| ensures t[i] != t[j] {
      var i', j' := OldPlace(|a|, |m|, i), OldPlace(|a|, |m|, j);
      assert s[i'] == t[i] && s[j'] == t[j];
    }
  }

  /** Where an output of the folded graph stood before. */
  function OldPlace(a: nat, m: nat, i: nat): nat {
    if i < a then i else if i == a then a + 1 + m else if i < a + 1 + m then i else i + 1
  }

  lemma FoldOutputs(k: Kernels, g: Graph, p: nat, b: nat)
    requires SingleAssignment(g) && Site(g, p, b)
    ensures NoRepeats(Outputs(Folded(k, g, p, b).nodes))
    ensures forall x :: x in Outputs(Folded(k, g, p, b).nodes) ==> x in Outputs(g.nodes)
  {
    var pre, mid, post := g.nodes[..p], g.nodes[p + 1..b], g.nodes[b + 1..];
    var y, z := g.nodes[p].outputs[0], g.nodes[b].outputs[0];
    OutputShapes(g, p, b);
    SplitTwice(g.nodes, p, b);
    FoldedNodes(k, g, p, b);
    OutputsAround(pre, g.nodes[p], mid + ([g.nodes[b]] + post));
    OutputsAround(mid, g.nodes[b], post);
    OutputsAround(pre, FusedNode(g, p, b), mid + post);
    OutputsSplit(mid, post);
    DropName(Outputs(pre), y, Outputs(mid), z, Outputs(post));
  }

  lemma FoldKeepsSingleAssignment(k: Kernels, g: Graph, p: nat, b: nat)
    requires SingleAssignment(g) && Site(g, p, b)
    ensures SingleAssignment(Folded(k, g, p, b)) && FreeInputs(Folded(k, g, p, b)) == FreeInputs(g)
    ensures Folded(k, g, p, b).inputs == g.inputs && Folded(k, g, p, b).outputs == g.outputs
  {
    var h := Folded(k, g, p, b);
    FoldOutputs(k, g, p, b);
    forall x | x in Outputs(h.nodes) ensures x !in h.inits && x !in h.inputs {
      OutputsMembers(g.nodes, x);
    }
  }

  lemma FoldKeepsFormed(k: Kernels, g: Graph, p: nat, b: nat)
    requires Formed(g) && Site(g, p, b)
    ensures Formed(Folded(k, g, p, b))
  {
    var h := Folded(k, g, p, b);
    Moved(k, g, p, b);
    OutputShapes(g, p, b);
    forall n | n in h.nodes
      ensures n.op.BatchNorm? ==> |n.inputs| >= 5 && |n.outputs| >= 1
      ensures n.op.Conv? || n.op.Gemm? ==> |n.inputs| >= 2 && |n.outputs| >= 1
    {
      var j :| 0 <= j < |h.nodes| && h.nodes[j] == n;
      if j != p { assert g.nodes[Before(b, j)] in g.nodes; }
    }
  }

  // ── another site after a fold ────────────────────────────────────────────

  lemma {:induction false} NamedFirst(nodes: seq<Node>, name: string)
    ensures forall j :: 0 <= j < IndexOfName(nodes, name) ==> nodes[j].name != name
  {
    if nodes != [] && nodes[0].name != name { NamedFirst(nodes[1..], name); }
  }

  lemma {:induction false} NameIs(nodes: seq<Node>, i: nat, name: string)
    requires i < |nodes| && nodes[i].name == name && forall j :: 0 <= j < i ==> nodes[j].name != name
    ensures IndexOfName(nodes, name) == i
  {
    if i > 0 { NameIs(nodes[1..], i - 1, name); }
  }

  /** The first node of the name is a normalization, and the first node that makes
      its input is a Conv or Gemm whose weight is an initializer. */
  ghost predicate Found(g: Graph, name: string, p: nat, b: nat) {
    && b < |g.nodes| && g.nodes[b].name == name && (forall i :: 0 <= i < b ==> g.nodes[i].name != name)
    && g.nodes[b].op.BatchNorm? && |g.nodes[b].inputs| >= 5 && |g.nodes[b].outputs| >= 1
    && p < |g.nodes| && p != b && g.nodes[b].inputs[0] in g.nodes[p].outputs
    && (forall i :: 0 <= i < p ==> g.nodes[b].inputs[0] !in g.nodes[i].outputs)
    && (g.nodes[p].op.Conv? || g.nodes[p].op.Gemm?) && |g.nodes[p].inputs| >= 2 && g.nodes[p].inputs[1] in g.inits
  }

  lemma FoundAt(g: Graph, name: string, p: nat, b: nat)
    requires Found(g, name, p, b)
    ensures b == BnAt(g, name) && p == ProducerAt(g, name)
  {
    NameIs(g.nodes, b, name);
    ProducerIs(g.nodes, p, g.nodes[b].inputs[0]);
  }

  lemma {:induction false} ProducedFirst(nodes: seq<Node>, x: string)
    ensures forall j :: 0 <= j < IndexOfProducer(nodes, x) ==> x !in nodes[j].outputs
  {
    if nodes != [] && x !in nodes[0].outputs { ProducedFirst(nodes[1..], x); }
  }

  /** What the pass does with any graph: it leaves it alone unless it finds such a
      pair, raises if a statistic is no initializer, leaves a weight of another
      rank alone, and otherwise folds. */
  lemma FusedCases(k: Kernels, g: Graph, name: string)
    requires Formed(g)
    ensures (forall p: nat, b: nat :: !Found(g, name, p, b)) ==> Fused(k, g, name) == Done(g)
    ensures forall p: nat, b: nat :: Found(g, name, p, b) ==>
              Fused(k, g, name)
              == if exists i :: 1 <= i < 5 && g.nodes[b].inputs[i] !in g.inits then Raised
                 else if g.inits[g.nodes[p].inputs[1]].rank in {2, 4} then Done(Folded(k, g, p, b))
                 else Done(g)
  {
    var b := BnAt(g, name);
    NamedFirst(g.nodes, name);
    if b < |g.nodes| && g.nodes[b].op.BatchNorm? {
      assert g.nodes[b] in g.nodes;
      var p := ProducerAt(g, name);
      ProducedFirst(g.nodes, g.nodes[b].inputs[0]);
      if p < |g.nodes| {
        assert g.nodes[p] in g.nodes;
        assert Fused(k, g, name) != Done(g) ==> Found(g, name, p, b);
      }
    }
    forall p: nat, b: nat | Found(g, name, p, b)
      ensures Fused(k, g, name)
              == if exists i :: 1 <= i < 5 && g.nodes[b].inputs[i] !in g.inits then Raised
                 else if g.inits[g.nodes[p].inputs[1]].rank in {2, 4} then Done(Folded(k, g, p, b))
                 else Done(g)
    {
      FoundAt(g, name, p, b);
      assert g.nodes[p] in g.nodes && g.nodes[b] in g.nodes;
    }
  }

  /** The named normalization and its producer are there. */
  ghost predicate Located(g: Graph, name: string) {
    var p, b := ProducerAt(g, name), BnAt(g, name);
    && b < |g.nodes| && g.nodes[b].op.BatchNorm? && |g.nodes[b].inputs| > 0
    && p < |g.nodes| && (g.nodes[p].op.Conv? || g.nodes[p].op.Gemm?) && |g.nodes[p].inputs| >= 2
  }

  lemma SitesApart(g: Graph, x: string, y: string)
    requires Foldable(g, x) && Located(g, y) && x != y
    ensures BnAt(g, y) != BnAt(g, x) && ProducerAt(g, y) != ProducerAt(g, x)
    ensures BnAt(g, y) != ProducerAt(g, x) && ProducerAt(g, y) != BnAt(g, x)
  {
    var p, b, q, c := ProducerAt(g, x), BnAt(g, x), ProducerAt(g, y), BnAt(g, y);
    assert g.nodes[c].inputs[0] in g.nodes[q].outputs && g.nodes[c].inputs[0] in g.nodes[c].inputs;
    assert forall t :: t in g.nodes[p].outputs ==> t == g.nodes[p].outputs[0];
  }

  lemma BnMoves(k: Kernels, g: Graph, x: string, y: string)
    requires Foldable(g, x) && Located(g, y) && x != y
    ensures BnAt(Fold(k, g, x), y) == After(BnAt(g, x), BnAt(g, y))
  {
    var h, p, b, c := Fold(k, g, x), ProducerAt(g, x), BnAt(g, x), BnAt(g, y);
    SitesApart(g, x, y);
    Moved(k, g, p, b);
    MovedTo(k, g, p, b, c);
    NamedFirst(g.nodes, y);
    NameIs(h.nodes, After(b, c), y);
  }

  lemma ProducerMoves(k: Kernels, g: Graph, x: string, y: string)
    requires SingleAssignment(g) && Foldable(g, x) && Located(g, y) && x != y
    ensures ProducerAt(Fold(k, g, x), y) == After(BnAt(g, x), ProducerAt(g, y))
  {
    var h, p, b, q, c := Fold(k, g, x), ProducerAt(g, x), BnAt(g, x), ProducerAt(g, y), BnAt(g, y);
    SitesApart(g, x, y);
    BnMoves(k, g, x, y);
    MovedTo(k, g, p, b, c);
    MovedTo(k, g, p, b, q);
    FoldKeepsSingleAssignment(k, g, p, b);
    var t := g.nodes[c].inputs[0];
    forall i | 0 <= i < After(b, q) ensures t !in h.nodes[i].outputs { OutputsApart(h.nodes, After(b, q), i, t); }
    ProducerIs(h.nodes, After(b, q), t);
  }

  lemma FoldableIsLocated(g: Graph, x: string)
    requires Foldable(g, x)
    ensures Located(g, x)
  {
  }

  lemma LocatedStays(k: Kernels, g: Graph, x: string, y: string)
    requires SingleAssignment(g) && Foldable(g, x) && Located(g, y) && x != y
    ensures var h := Fold(k, g, x);
            && Located(h, y)
            && h.nodes[ProducerAt(h, y)] == g.nodes[ProducerAt(g, y)] && h.nodes[BnAt(h, y)] == g.nodes[BnAt(g, y)]
  {
    SitesApart(g, x, y);
    BnMoves(k, g, x, y);
    ProducerMoves(k, g, x, y);
    MovedTo(k, g, ProducerAt(g, x), BnAt(g, x), BnAt(g, y));
    MovedTo(k, g, ProducerAt(g, x), BnAt(g, x), ProducerAt(g, y));
  }

  // ── clashes of new bias names ────────────────────────────────────────────

  ghost predicate NoBias(g: Graph, x: string)
    requires Located(g, x)
  {
    |g.nodes[ProducerAt(g, x)].inputs| == 2
  }

  ghost function NewBias(g: Graph, x: string): string
    requires Located(g, x)
  {
    BiasName(g.nodes[ProducerAt(g, x)])
  }

  /** Two operators without a bias whose new biases would have one name: for
      example two operators without a name. */
  ghost predicate Clash(g: Graph, x: string, y: string) {
    Located(g, x) && Located(g, y) && NoBias(g, x) && NoBias(g, y) && NewBias(g, x) == NewBias(g, y)
  }

  /** The name of the bias to add is an initializer already, so there would be two. */
  ghost predicate Taken(g: Graph, y: string) {
    Located(g, y) && NoBias(g, y) && NewBias(g, y) in g.inits
  }

  lemma TakenIsNotFoldable(g: Graph, y: string)
    requires Taken(g, y)
    ensures !Foldable(g, y)
  {
  }

  lemma InitsStay(k: Kernels, g: Graph, x: string)
    requires Foldable(g, x)
    ensures g.inits.Keys <= Fold(k, g, x).inits.Keys
    ensures NoBias(g, x) ==> NewBias(g, x) in Fold(k, g, x).inits
  {
  }

  lemma ClashTakes(k: Kernels, g: Graph, x: string, y: string)
    requires SingleAssignment(g) && Foldable(g, x) && x != y && Clash(g, x, y)
    ensures Taken(Fold(k, g, x), y)
  {
    LocatedStays(k, g, x, y);
    InitsStay(k, g, x);
  }

  lemma TakenStays(k: Kernels, g: Graph, x: string, y: string)
    requires SingleAssignment(g) && Foldable(g, x) && x != y && Taken(g, y)
    ensures Taken(Fold(k, g, x), y)
  {
    LocatedStays(k, g, x, y);
    InitsStay(k, g, x);
  }

  /** The second site's statistics and weight are as before the first fold. */
  lemma ParametersStay(k: Kernels, g: Graph, x: string, y: string)
    requires SingleAssignment(g) && Foldable(g, x) && Foldable(g, y) && x != y
    ensures var h, q, c := Fold(k, g, x), ProducerAt(g, y), BnAt(g, y);
            && (forall i :: 1 <= i < 5 ==>
                  g.nodes[c].inputs[i] in h.inits && h.inits[g.nodes[c].inputs[i]] == g.inits[g.nodes[c].inputs[i]])
            && Lookup(h.inits, g.nodes[q].inputs[1]) == Some(WeightOf(g, q))
  {
    ReadsUntouched(g, x, y);
    forall t | t in g.inits && (t in g.nodes[ProducerAt(g, y)].inputs || t in g.nodes[BnAt(g, y)].inputs)
      ensures t in Fold(k, g, x).inits && Fold(k, g, x).inits[t] == g.inits[t]
    {
      InitStays(k, g, ProducerAt(g, x), BnAt(g, x), t);
    }
  }

  /** A fold without a bias to start from, whether or not the name it adds is new. */
  lemma BiasAdded(k: Kernels, h: Graph, y: string, s: Stats, w: Tensor, i: nat)
    requires Formed(h) && Located(h, y) && NoBias(h, y) && i < |h.nodes| && i != ProducerAt(h, y) && i != BnAt(h, y)
    requires var bn := h.nodes[BnAt(h, y)];
             |bn.inputs| >= 5 && (forall j :: 1 <= j < 5 ==> bn.inputs[j] in h.inits) && StatsOf(h, bn) == s
    requires Lookup(h.inits, h.nodes[ProducerAt(h, y)].inputs[1]) == Some(w) && (w.rank == 2 || w.rank == 4)
    ensures var r := Fused(k, h, y);
            && r.Done? && Lookup(r.graph.inits, NewBias(h, y)) == Some(FusedBias(k, s, |w.rows|, None))
            && h.nodes[i] in r.graph.nodes
  {
    var p, b := ProducerAt(h, y), BnAt(h, y);
    assert h.nodes[p] in h.nodes && h.nodes[b] in h.nodes;
    assert Fused(k, h, y) == Done(Folded(k, h, p, b));
    assert Folded(k, h, p, b).nodes[After(b, i)] == h.nodes[i];
  }

  /** What a clash does: the second fold brings a second bias of that name, and the
      first operator reads it too. */
  lemma ClashOverwrites(k: Kernels, g: Graph, x: string, y: string)
    requires SingleAssignment(g) && Formed(g) && Foldable(g, x) && Foldable(g, y) && x != y && Clash(g, x, y)
    ensures Formed(Fold(k, g, x)) && NewBias(g, x) in Fold(k, g, x).inits
    ensures var r := Fused(k, Fold(k, g, x), y);
            var first := FusedNode(g, ProducerAt(g, x), BnAt(g, x));
            && r.Done? && first in r.graph.nodes && NewBias(g, x) in first.inputs
            && Lookup(r.graph.inits, NewBias(g, x))
               == Some(FusedBias(k, StatsOf(g, g.nodes[BnAt(g, y)]), |WeightOf(g, ProducerAt(g, y)).rows|, None))
  {
    var h, p, b := Fold(k, g, x), ProducerAt(g, x), BnAt(g, x);
    InitsStay(k, g, x);
    FoldKeepsFormed(k, g, p, b);
    LocatedStays(k, g, x, y);
    ParametersStay(k, g, x, y);
    Moved(k, g, p, b);
    assert h.nodes[p] == FusedNode(g, p, b);
    FirstApart(k, g, x, y);
    BiasAdded(k, h, y, StatsOf(g, g.nodes[BnAt(g, y)]), WeightOf(g, ProducerAt(g, y)), p);
  }

  lemma FirstApart(k: Kernels, g: Graph, x: string, y: string)
    requires SingleAssignment(g) && Foldable(g, x) && Located(g, y) && x != y
    ensures ProducerAt(Fold(k, g, x), y) != ProducerAt(g, x) && BnAt(Fold(k, g, x), y) != ProducerAt(g, x)
  {
    SitesApart(g, x, y);
    BnMoves(k, g, x, y);
    ProducerMoves(k, g, x, y);
  }

  lemma ClashStays(k: Kernels, g: Graph, x: string, y: string, z: string)
    requires SingleAssignment(g) && Foldable(g, x) && x != y && x != z && Located(g, y) && Located(g, z)
    ensures Clash(Fold(k, g, x), y, z) <==> Clash(g, y, z)
  {
    LocatedStays(k, g, x, y);
    LocatedStays(k, g, x, z);
  }

  // ── a site stays one ─────────────────────────────────────────────────────

  lemma TouchedStays(k: Kernels, g: Graph, x: string, y: string)
    requires SingleAssignment(g) && Foldable(g, x) && Foldable(g, y) && x != y
    ensures Located(Fold(k, g, x), y)
    ensures Touched(Fold(k, g, x), ProducerAt(Fold(k, g, x), y)) == Touched(g, ProducerAt(g, y))
  {
    LocatedStays(k, g, x, y);
  }

  lemma NewNameStays(k: Kernels, g: Graph, p: nat, b: nat, x: string)
    requires Site(g, p, b) && NewName(g, x) && (|g.nodes[p].inputs| == 2 ==> BiasName(g.nodes[p]) != x)
    ensures NewName(Folded(k, g, p, b), x)
  {
    var h := Folded(k, g, p, b);
    Moved(k, g, p, b);
    OutputShapes(g, p, b);
    forall i, j | 0 <= i < |h.nodes| && 0 <= j < |h.nodes[i].outputs| ensures h.nodes[i].outputs[j] !in {x} {
      if i == p {
        assert g.nodes[b].outputs[0] !in {x};
      } else {
        assert h.nodes[i] == g.nodes[Before(b, i)];
      }
    }
    forall i, j | 0 <= i < |h.nodes| && 0 <= j < |h.nodes[i].inputs| ensures h.nodes[i].inputs[j] !in {x} {
      if i == p {
        assert j < |g.nodes[p].inputs| ==> g.nodes[p].inputs[j] !in {x};
      } else {
        assert h.nodes[i] == g.nodes[Before(b, i)];
      }
    }
  }

  /** Every input of the folded graph was one before, or is the new bias. */
  lemma InputsAfter(k: Kernels, g: Graph, p: nat, b: nat, j: nat, t: string)
    requires Site(g, p, b) && j < |Folded(k, g, p, b).nodes| && t in Folded(k, g, p, b).nodes[j].inputs
    ensures t in g.nodes[Before(b, j)].inputs || (j == p && |g.nodes[p].inputs| == 2 && t == BiasName(g.nodes[p]))
  {
    Moved(k, g, p, b);
  }

  lemma InitStays(k: Kernels, g: Graph, p: nat, b: nat, x: string)
    requires Site(g, p, b) && x in g.inits && x !in Touched(g, p)
    ensures x in Folded(k, g, p, b).inits && Folded(k, g, p, b).inits[x] == g.inits[x]
  {
  }

  /** What the second site reads is not touched by the first fold. */
  lemma ReadsUntouched(g: Graph, x: string, y: string)
    requires SingleAssignment(g) && Foldable(g, x) && Foldable(g, y) && x != y
    ensures forall t :: t in g.nodes[ProducerAt(g, y)].inputs ==> t !in Touched(g, ProducerAt(g, x))
    ensures forall t :: t in g.nodes[BnAt(g, y)].inputs ==> t !in Touched(g, ProducerAt(g, x))
  {
    SitesApart(g, x, y);
  }

  lemma SiteStays(k: Kernels, g: Graph, x: string, y: string)
    requires SingleAssignment(g) && Foldable(g, x) && Foldable(g, y) && x != y && !Clash(g, x, y)
    ensures var h := Fold(k, g, x);
            Site(h, ProducerAt(h, y), BnAt(h, y)) && WeightOf(h, ProducerAt(h, y)) == WeightOf(g, ProducerAt(g, y))
  {
    var h, p, b, q, c := Fold(k, g, x), ProducerAt(g, x), BnAt(g, x), ProducerAt(g, y), BnAt(g, y);
    FoldableIsLocated(g, x);
    FoldableIsLocated(g, y);
    LocatedStays(k, g, x, y);
    BnMoves(k, g, x, y);
    ProducerMoves(k, g, x, y);
    SitesApart(g, x, y);
    ReadsUntouched(g, x, y);
    forall t | t in g.inits && (t in g.nodes[q].inputs || t in g.nodes[c].inputs)
      ensures t in h.inits && h.inits[t] == g.inits[t]
    {
      InitStays(k, g, p, b, t);
    }
    if |g.nodes[q].inputs| == 2 { NewNameStays(k, g, p, b, BiasName(g.nodes[q])); }
    TouchedStays(k, g, x, y);
  }

  lemma PrivateStays(k: Kernels, g: Graph, x: string, y: string)
    requires SingleAssignment(g) && Foldable(g, x) && Foldable(g, y) && x != y && !Clash(g, x, y)
    requires Site(Fold(k, g, x), ProducerAt(Fold(k, g, x), y), BnAt(Fold(k, g, x), y))
    ensures Private(Fold(k, g, x), ProducerAt(Fold(k, g, x), y), BnAt(Fold(k, g, x), y))
  {
    var h, p, b, q, c := Fold(k, g, x), ProducerAt(g, x), BnAt(g, x), ProducerAt(g, y), BnAt(g, y);
    FoldableIsLocated(g, x);
    FoldableIsLocated(g, y);
    LocatedStays(k, g, x, y);
    BnMoves(k, g, x, y);
    ProducerMoves(k, g, x, y);
    SitesApart(g, x, y);
    TouchedStays(k, g, x, y);
    forall j, t | 0 <= j < |h.nodes| && t in h.nodes[j].inputs
      ensures j != After(b, q) ==> t !in Touched(g, q)
      ensures j != After(b, c) ==> t != g.nodes[q].outputs[0]
      ensures j <= After(b, c) ==> t != g.nodes[c].outputs[0]
    {
      ReadersAfter(k, g, x, y, j, t);
    }
  }

  /** Who reads what of the second site after the first fold. */
  lemma ReadersAfter(k: Kernels, g: Graph, x: string, y: string, j: nat, t: string)
    requires SingleAssignment(g) && Foldable(g, x) && Foldable(g, y) && x != y && !Clash(g, x, y)
    requires j < |Fold(k, g, x).nodes| && t in Fold(k, g, x).nodes[j].inputs
    ensures j != After(BnAt(g, x), ProducerAt(g, y)) ==> t !in Touched(g, ProducerAt(g, y))
    ensures j != After(BnAt(g, x), BnAt(g, y)) ==> t != g.nodes[ProducerAt(g, y)].outputs[0]
    ensures j <= After(BnAt(g, x), BnAt(g, y)) ==> t != g.nodes[BnAt(g, y)].outputs[0]
  {
    FoldableIsLocated(g, y);
    SitesApart(g, x, y);
    InputsAfter(k, g, ProducerAt(g, x), BnAt(g, x), j, t);
    NewBiasIsNobodys(g, x, y);
  }

  /** The first site's new bias is no name of the second. */
  lemma NewBiasIsNobodys(g: Graph, x: string, y: string)
    requires SingleAssignment(g) && Foldable(g, x) && Foldable(g, y) && x != y && !Clash(g, x, y)
    ensures var t := BiasName(g.nodes[ProducerAt(g, x)]);
            |g.nodes[ProducerAt(g, x)].inputs| == 2 ==>
              t !in Touched(g, ProducerAt(g, y)) && t != g.nodes[ProducerAt(g, y)].outputs[0]
              && t != g.nodes[BnAt(g, y)].outputs[0]
  {
    FoldableIsLocated(g, x);
    FoldableIsLocated(g, y);
    if |g.nodes[ProducerAt(g, x)].inputs| == 2 {
      var t := BiasName(g.nodes[ProducerAt(g, x)]);
      assert NewName(g, t);
      assert g.nodes[ProducerAt(g, y)].outputs[0] !in {t} && g.nodes[BnAt(g, y)].outputs[0] !in {t};
    }
  }

  lemma FoldableStays(k: Kernels, g: Graph, x: string, y: string)
    requires SingleAssignment(g) && Foldable(g, x) && Foldable(g, y) && x != y && !Clash(g, x, y)
    ensures Foldable(Fold(k, g, x), y)
  {
    SiteStays(k, g, x, y);
    PrivateStays(k, g, x, y);
  }

  // ── the whole list ───────────────────────────────────────────────────────

  ghost predicate AllFoldable(g: Graph, names: seq<string>) {
    NoRepeats(names) && forall x :: x in names ==> Foldable(g, x)
  }

  ghost predicate Apart(g: Graph, names: seq<string>) {
    forall i, j :: 0 <= i < j < |names| ==> !Clash(g, names[i], names[j])
  }

  /** Each fold finds an exact site when its turn comes. */
  ghost predicate FoldsAtTurn(k: Kernels, g: Graph, names: seq<string>)
    decreases |names|
  {
    names == [] || (Foldable(g, names[0]) && FoldsAtTurn(k, Fold(k, g, names[0]), names[1..]))
  }

  lemma {:induction false} TakenFails(k: Kernels, g: Graph, names: seq<string>, y: string)
    requires SingleAssignment(g) && Taken(g, y) && y in names
    ensures !FoldsAtTurn(k, g, names)
    decreases |names|
  {
    if names[0] == y {
      TakenIsNotFoldable(g, y);
    } else if Foldable(g, names[0]) {
      TakenStays(k, g, names[0], y);
      FoldKeepsSingleAssignment(k, g, ProducerAt(g, names[0]), BnAt(g, names[0]));
      TakenFails(k, Fold(k, g, names[0]), names[1..], y);
    }
  }

  /** The rest of the list after a fold that clashes with none of it. */
  lemma RestStays(k: Kernels, g: Graph, names: seq<string>)
    requires SingleAssignment(g) && AllFoldable(g, names) && names != []
    requires forall y :: y in names[1..] ==> !Clash(g, names[0], y)
    ensures AllFoldable(Fold(k, g, names[0]), names[1..])
    ensures Apart(Fold(k, g, names[0]), names[1..]) <==> Apart(g, names)
  {
    var h, rest := Fold(k, g, names[0]), names[1..];
    forall y | y in rest ensures Foldable(h, y) { FoldableStays(k, g, names[0], y); }
    forall i, j | 0 <= i < j < |rest| ensures Clash(h, rest[i], rest[j]) <==> Clash(g, names[i + 1], names[j + 1]) {
      assert rest[i] == names[i + 1] && rest[j] == names[j + 1];
      FoldableIsLocated(g, rest[i]);
      FoldableIsLocated(g, rest[j]);
      ClashStays(k, g, names[0], rest[i], rest[j]);
    }
    if Apart(h, rest) {
      forall i, j | 0 <= i < j < |names| ensures !Clash(g, names[i], names[j]) {
        if i == 0 { assert names[j] == rest[j - 1]; } else { assert !Clash(h, rest[i - 1], rest[j - 1]); }
      }
    }
  }

  /** For operators that are exact sites on their own: all folds of the list find
      theirs when their turn comes, if and only if no two of the operators without
      a bias would get one bias name. */
  lemma {:induction false} FoldsAtTurnIff(k: Kernels, g: Graph, names: seq<string>)
    requires SingleAssignment(g) && AllFoldable(g, names)
    ensures FoldsAtTurn(k, g, names) <==> Apart(g, names)
    decreases |names|
  {
    if names != [] {
      var x, rest := names[0], names[1..];
      assert Foldable(g, x);
      FoldKeepsSingleAssignment(k, g, ProducerAt(g, x), BnAt(g, x));
      if j :| 1 <= j < |names| && Clash(g, x, names[j]) {
        assert names[j] == rest[j - 1];
        ClashTakes(k, g, x, names[j]);
        TakenFails(k, Fold(k, g, x), rest, names[j]);
      } else {
        forall y | y in rest ensures !Clash(g, x, y) {
          var j :| 0 <= j < |rest| && rest[j] == y;
          assert y == names[j + 1];
        }
        RestStays(k, g, names);
        FoldsAtTurnIff(k, Fold(k, g, x), rest);
      }
    }
  }

  // ── its meaning ──────────────────────────────────────────────────────────

  /** Names the fold of `x` changes or drops. */
  ghost function Lost(g: Graph, x: string): set<string>
    requires Foldable(g, x)
  {
    Touched(g, ProducerAt(g, x)) + {g.nodes[ProducerAt(g, x)].outputs[0]}
  }

  ghost function AllLost(g: Graph, names: seq<string>): set<string>
    requires forall x :: x in names ==> Foldable(g, x)
    decreases |names|
  {
    if names == [] then {} else Lost(g, names[0]) + AllLost(g, names[1..])
  }

  lemma FusedFormed(k: Kernels, g: Graph, name: string)
    requires Formed(g)
    ensures Fused(k, g, name).Done? ==> Formed(Fused(k, g, name).graph)
  {
    var r := Fused(k, g, name);
    if r.Done? && r.graph != g {
      forall n | n in r.graph.nodes
        ensures n.op.BatchNorm? ==> |n.inputs| >= 5 && |n.outputs| >= 1
        ensures n.op.Conv? || n.op.Gemm? ==> |n.inputs| >= 2 && |n.outputs| >= 1
      {
        var p := ProducerAt(g, name);
        assert g.nodes[p] in g.nodes;
        assert n in g.nodes || (n.op == g.nodes[p].op && |n.inputs| >= |g.nodes[p].inputs|
                                && |n.outputs| == |g.nodes[p].outputs|);
      }
    }
  }

  /** The folds in order; one that raises ends the run. */
  ghost function FusedAll(k: Kernels, g: Graph, names: seq<string>): Outcome
    requires Formed(g)
    decreases |names|
  {
    if names == [] then Done(g)
    else
      FusedFormed(k, g, names[0]);
      match Fused(k, g, names[0])
      case Raised => Raised
      case Done(h) => FusedAll(k, h, names[1..])
  }

  method ApplyAll(k: Kernels, g: Graph, names: seq<string>) returns (r: Outcome)
    requires Formed(g)
    ensures r == FusedAll(k, g, names)
  {
    var h := g;
    for i := 0 to |names|
      invariant Formed(h) && FusedAll(k, g, names) == FusedAll(k, h, names[i..])
    {
      assert names[i..][0] == names[i] && names[i..][1..] == names[i + 1..];
      FusedFormed(k, h, names[i]);
      var o := ApplyBnFusion(k, h, names[i]);
      if o.Raised? {
        return Raised;
      }
      h := o.graph;
    }
    return Done(h);
  }

  lemma {:induction false} AllLostStays(k: Kernels, g: Graph, x: string, names: seq<string>)
    requires SingleAssignment(g) && Foldable(g, x) && x !in names
    requires forall y :: y in names ==> Foldable(g, y) && Foldable(Fold(k, g, x), y)
    ensures AllLost(Fold(k, g, x), names) == AllLost(g, names)
    decreases |names|
  {
    if names != [] {
      assert names[0] in names;
      FoldableIsLocated(g, names[0]);
      LocatedStays(k, g, x, names[0]);
      TouchedStays(k, g, x, names[0]);
      AllLostStays(k, g, x, names[1..]);
    }
  }

  lemma AgreeMore(a: Env, b: Env, c: Env, s: set<string>, t: set<string>)
    requires Agree(a, b, s) && Agree(b, c, t)
    ensures Agree(a, c, s + t)
  {
    forall x | x !in s + t ensures Lookup(a, x) == Lookup(c, x) { assert Lookup(a, x) == Lookup(b, x); }
  }

  /** A list of folds on exact sites whose new bias names differ succeeds and
      preserves every tensor of the graph on every input, but the operators' raw
      outputs and their own parameters. */
  lemma {:induction false} FoldListPreservesMeaning(k: Kernels, g: Graph, names: seq<string>, feed: Env)
    requires SingleAssignment(g) && Formed(g) && AllFoldable(g, names) && Apart(g, names)
    requires feed.Keys <= FreeInputs(g)
    ensures var r := FusedAll(k, g, names);
            r.Done? && SingleAssignment(r.graph) && FreeInputs(r.graph) == FreeInputs(g)
            && Agree(Evaluate(k, g, feed), Evaluate(k, r.graph, feed), AllLost(g, names))
    decreases |names|
  {
    if names != [] {
      var x, rest := names[0], names[1..];
      var h := Fold(k, g, x);
      FusedIsFold(k, g, x);
      FoldKeepsSingleAssignment(k, g, ProducerAt(g, x), BnAt(g, x));
      FoldKeepsFormed(k, g, ProducerAt(g, x), BnAt(g, x));
      forall y | y in rest ensures !Clash(g, x, y) {
        var j :| 0 <= j < |rest| && rest[j] == y;
        assert y == names[j + 1];
      }
      RestStays(k, g, names);
      FusionPreservesMeaning(k, g, ProducerAt(g, x), BnAt(g, x), feed);
      FoldListPreservesMeaning(k, h, rest, feed);
      AllLostStays(k, g, x, rest);
      AgreeMore(Evaluate(k, g, feed), Evaluate(k, h, feed), Evaluate(k, FusedAll(k, h, rest).graph, feed), Lost(g, x),
                AllLost(h, rest));
    }
  }
}
