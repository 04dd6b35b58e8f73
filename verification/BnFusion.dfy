/** BatchNormalization fusion into the preceding Conv or Gemm
    (astra/graph/onnx_transformer.py, `_apply_bn_fusion`), over the reals. */
module BnFusion {
  import opened Options
  import opened OnnxGraph
  import opened Reals

  // ── the rewrite ──────────────────────────────────────────────────────────

  function IndexOfName(nodes: seq<Node>, name: string): (i: nat)
    ensures i <= |nodes| && (i < |nodes| ==> nodes[i].name == name)
  {
    if nodes == [] || nodes[0].name == name then 0 else 1 + IndexOfName(nodes[1..], name)
  }

  function IndexOfProducer(nodes: seq<Node>, x: string): (i: nat)
    ensures i <= |nodes| && (i < |nodes| ==> x in nodes[i].outputs)
  {
    if nodes == [] || x in nodes[0].outputs then 0 else 1 + IndexOfProducer(nodes[1..], x)
  }

  /** The four statistics a BatchNormalization reads. */
  datatype Stats = Stats(gamma: Tensor, beta: Tensor, mean: Tensor, variance: Tensor, epsilon: real)

  function ScaleAt(k: Kernels, s: Stats, c: int): real { BnScale(k, s.gamma, s.variance, s.epsilon, c) }

  function Shift(mean: real, scale: real, offset: real): real { offset - mean * scale }

  function ShiftAt(k: Kernels, s: Stats, c: int): real {
    Shift(Channel(s.mean, c), ScaleAt(k, s, c), Channel(s.beta, c))
  }

  function FoldBias(bias: real, scale: real, shift: real): real { bias * scale + shift }

  function ScaleRow(row: seq<real>, f: real): seq<real> { seq(|row|, j requires 0 <= j < |row| => row[j] * f) }

  function FusedWeight(k: Kernels, s: Stats, w: Tensor): Tensor {
    Tensor(Float32, w.rank, seq(|w.rows|, c requires 0 <= c < |w.rows| => ScaleRow(w.rows[c], ScaleAt(k, s, c))))
  }

  function FusedBias(k: Kernels, s: Stats, channels: nat, previous: Option<Tensor>): Tensor {
    Tensor(Float32, 1, seq(channels, c requires 0 <= c < channels =>
      [FoldBias(BiasAt(previous, c), ScaleAt(k, s, c), ShiftAt(k, s, c))]))
  }

  function StatsOf(g: Graph, bn: Node): Stats
    requires bn.op.BatchNorm? && |bn.inputs| >= 5 && forall i :: 1 <= i < 5 ==> bn.inputs[i] in g.inits
  {
    Stats(g.inits[bn.inputs[1]], g.inits[bn.inputs[2]], g.inits[bn.inputs[3]], g.inits[bn.inputs[4]], bn.op.epsilon)
  }

  function BiasName(prev: Node): string { prev.name + "_fused_bias" }

  /** Fold `nodes[b]` into `nodes[p]`. */
  function Folded(k: Kernels, g: Graph, p: nat, b: nat): Graph
    requires p < |g.nodes| && b < |g.nodes| && p != b
    requires g.nodes[b].op.BatchNorm? && |g.nodes[b].inputs| >= 5 && |g.nodes[b].outputs| >= 1
    requires forall i :: 1 <= i < 5 ==> g.nodes[b].inputs[i] in g.inits
    requires |g.nodes[p].inputs| >= 2 && g.nodes[p].inputs[1] in g.inits && |g.nodes[p].outputs| >= 1
  {
    var prev, bn := g.nodes[p], g.nodes[b];
    var s := StatsOf(g, bn);
    var w := g.inits[prev.inputs[1]];
    var inits := g.inits[prev.inputs[1] := FusedWeight(k, s, w)];
    var fused := prev.(outputs := prev.outputs[0 := bn.outputs[0]]);
    if |prev.inputs| > 2 then
      var bias := prev.inputs[2];
      var inits' := if bias in inits then inits[bias := FusedBias(k, s, |w.rows|, Some(inits[bias]))] else inits;
      g.(inits := inits', nodes := Without(g.nodes[p := fused], b))
    else
      g.(inits := inits[BiasName(prev) := FusedBias(k, s, |w.rows|, None)],
         nodes := Without(g.nodes[p := fused.(inputs := prev.inputs + [BiasName(prev)])], b))
  }

  function Without(nodes: seq<Node>, b: nat): seq<Node>
    requires b < |nodes|
  {
    nodes[..b] + nodes[b + 1..]
  }

  datatype Outcome = Raised | Done(graph: Graph)

  /** `_apply_bn_fusion` for the node called `name`. */
  method ApplyBnFusion(k: Kernels, g: Graph, name: string) returns (r: Outcome)
    requires forall n :: n in g.nodes && n.op.BatchNorm? ==> |n.inputs| >= 5 && |n.outputs| >= 1
    requires forall n :: n in g.nodes && (n.op.Conv? || n.op.Gemm?) ==> |n.inputs| >= 2 && |n.outputs| >= 1
    ensures r == Fused(k, g, name)
  {
    var b := IndexOfName(g.nodes, name);
    if b == |g.nodes| || !g.nodes[b].op.BatchNorm? {
      return Done(g);
    }
    var bn := g.nodes[b];
    assert bn in g.nodes;
    var p := 0;
    while p < |g.nodes| && bn.inputs[0] !in g.nodes[p].outputs
      invariant p <= |g.nodes|
      invariant IndexOfProducer(g.nodes, bn.inputs[0]) == p + IndexOfProducer(g.nodes[p..], bn.inputs[0])
    {
      assert g.nodes[p..][1..] == g.nodes[p + 1..];
      p := p + 1;
    }
    if p == |g.nodes| || !(g.nodes[p].op.Conv? || g.nodes[p].op.Gemm?) {
      return Done(g);
    }
    var prev := g.nodes[p];
    assert prev in g.nodes;
    if prev.inputs[1] !in g.inits {
      return Done(g);
    }
    if !(forall i :: 1 <= i < 5 ==> bn.inputs[i] in g.inits) {
      return Raised;
    }
    var w := g.inits[prev.inputs[1]];
    if w.rank != 4 && w.rank != 2 {
      return Done(g);
    }
    return Done(Folded(k, g, p, b));
  }

  ghost function Fused(k: Kernels, g: Graph, name: string): Outcome
    requires forall n :: n in g.nodes && n.op.BatchNorm? ==> |n.inputs| >= 5 && |n.outputs| >= 1
    requires forall n :: n in g.nodes && (n.op.Conv? || n.op.Gemm?) ==> |n.inputs| >= 2 && |n.outputs| >= 1
  {
    var b := IndexOfName(g.nodes, name);
    if b == |g.nodes| || !g.nodes[b].op.BatchNorm? then Done(g)
    else
      assert g.nodes[b] in g.nodes;
      var bn := g.nodes[b];
      var p := IndexOfProducer(g.nodes, bn.inputs[0]);
      if p == |g.nodes| || !(g.nodes[p].op.Conv? || g.nodes[p].op.Gemm?) then Done(g)
      else
        assert g.nodes[p] in g.nodes;
        var prev := g.nodes[p];
        if prev.inputs[1] !in g.inits then Done(g)
        else if !(forall i :: 1 <= i < 5 ==> bn.inputs[i] in g.inits) then Raised
        else if g.inits[prev.inputs[1]].rank != 4 && g.inits[prev.inputs[1]].rank != 2 then Done(g)
        else Done(Folded(k, g, p, b))
  }

  // ── when it preserves meaning ────────────────────────────────────────────

  /** Names whose value the fold changes or drops. */
  function Touched(g: Graph, p: nat): set<string>
    requires p < |g.nodes| && |g.nodes[p].inputs| >= 2
  {
    var prev := g.nodes[p];
    {prev.inputs[1], if |prev.inputs| > 2 then prev.inputs[2] else BiasName(prev)}
  }

  /** The operator computes one weighted sum per output channel, weights along
      axis 0, and adds the bias unscaled. */
  predicate PerChannel(op: Op) { op.Conv? || (op.Gemm? && op.transB && op.beta == 1.0) }

  ghost predicate Site(g: Graph, p: nat, b: nat) {
    && p < b < |g.nodes|
    && var prev, bn := g.nodes[p], g.nodes[b];
    && PerChannel(prev.op) && bn.op.BatchNorm?
    && 2 <= |prev.inputs| <= 3 && |prev.outputs| == 1 && |bn.inputs| == 5 && |bn.outputs| == 1
    && bn.inputs[0] == prev.outputs[0]
    && prev.inputs[1] in g.inits && (forall i :: 1 <= i < 5 ==> bn.inputs[i] in g.inits)
    && (if |prev.inputs| == 3 then prev.inputs[2] in g.inits && prev.inputs[2] != prev.inputs[1]
        else NewName(g, BiasName(prev)))
    && prev.inputs[0] !in Touched(g, p)
  }

  ghost predicate NewName(g: Graph, x: string) {
    x !in g.inits && x !in g.inputs && WritesNone(g.nodes, {x}) && ReadsNone(g.nodes, {x})
  }

  /** Weight and bias are this operator's own, and its raw output feeds only the
      normalization. */
  ghost predicate Private(g: Graph, p: nat, b: nat)
    requires Site(g, p, b)
  {
    && (forall i :: 0 <= i < |g.nodes| && i != p ==> forall x :: x in g.nodes[i].inputs ==> x !in Touched(g, p))
    && (forall i :: 0 <= i < |g.nodes| && i != b ==> g.nodes[p].outputs[0] !in g.nodes[i].inputs)
    && (forall i :: 0 <= i <= b ==> g.nodes[b].outputs[0] !in g.nodes[i].inputs)
  }

  // arithmetic of one output

  lemma {:induction false} DotScaled(row: seq<real>, v: seq<real>, f: real)
    ensures Dot(ScaleRow(row, f), v) == Dot(row, v) * f
    decreases |row|
  {
    if row != [] && v != [] {
      DotScaled(row[1..], v[1..], f);
      assert ScaleRow(row, f)[1..] == ScaleRow(row[1..], f) by {
        forall j | 0 <= j < |row| - 1 ensures ScaleRow(row, f)[1..][j] == ScaleRow(row[1..], f)[j] {}
      }
      assert row[0] * f * v[0] == row[0] * v[0] * f;
    }
  }

  lemma ZeroProduct(a: real, b: real)
    ensures a * b == 0.0 <==> a == 0.0 || b == 0.0
  {
  }

  /** With a bias coefficient `beta` the fold is exact on a channel if and only if
      the coefficient is 1 or the channel's shift vanishes. */
  lemma ChannelExactIff(alpha: real, beta: real, dot: real, bias: real, mean: real, scale: real, offset: real)
    ensures Affine(alpha, dot * scale, beta, FoldBias(bias, scale, Shift(mean, scale, offset)))
            == Normalized(Affine(alpha, dot, beta, bias), mean, scale, offset)
            <==> beta == 1.0 || Shift(mean, scale, offset) == 0.0
  {
    var shift := Shift(mean, scale, offset);
    Distribute(beta, bias * scale, shift);
    assert alpha * (dot * scale) == alpha * dot * scale;
    assert beta * (bias * scale) == beta * bias * scale;
    Distribute(scale, alpha * dot + beta * bias, mean);
    Distribute(scale, alpha * dot, beta * bias);
    Distribute(shift, beta, 1.0);
    ZeroProduct(beta - 1.0, shift);
  }

  /** A bias that is not an initializer stays as it is while the weight is scaled:
      one output of a channel is then right exactly where the scaled bias absorbs
      the shift. */
  lemma UnfoldedEntry(alpha: real, beta: real, dot: real, bias: real, mean: real, scale: real, offset: real)
    ensures Affine(alpha, dot * scale, beta, bias) == Normalized(Affine(alpha, dot, beta, bias), mean, scale, offset)
            <==> beta * bias == beta * bias * scale + Shift(mean, scale, offset)
  {
    assert alpha * (dot * scale) == alpha * dot * scale;
    Distribute(scale, alpha * dot + beta * bias, mean);
    Distribute(scale, alpha * dot, beta * bias);
  }

  /** Leaving the bias unfolded is exact on a channel, for every input and every
      bias that may arrive, if and only if the channel's shift vanishes and either
      its scale is 1 or the bias does not count. */
  lemma DynamicBiasIff(alpha: real, beta: real, mean: real, scale: real, offset: real)
    ensures Shift(mean, scale, offset) == 0.0 && (beta == 0.0 || scale == 1.0)
            <==> forall dot, bias ::
                   Affine(alpha, dot * scale, beta, bias)
                   == Normalized(Affine(alpha, dot, beta, bias), mean, scale, offset)
  {
    if Shift(mean, scale, offset) == 0.0 && (beta == 0.0 || scale == 1.0) {
      forall dot, bias
        ensures Affine(alpha, dot * scale, beta, bias)
                == Normalized(Affine(alpha, dot, beta, bias), mean, scale, offset)
      {
        UnfoldedEntry(alpha, beta, dot, bias, mean, scale, offset);
      }
    } else {
      var bias := if Shift(mean, scale, offset) == 0.0 then 1.0 else 0.0;
      var dot := 0.0;
      UnfoldedEntry(alpha, beta, dot, bias, mean, scale, offset);
      Distribute(beta, 1.0, scale);
      ZeroProduct(beta, 1.0 - scale);
      assert Affine(alpha, dot * scale, beta, bias) != Normalized(Affine(alpha, dot, beta, bias), mean, scale, offset);
    }
  }

  lemma LinearEntry(alpha: real, beta: real, w: seq<seq<real>>, bias: Option<Tensor>, patches: seq<seq<real>>, c: nat,
                    p: nat)
    requires c < |w| && p < |patches|
    ensures Linear(alpha, beta, w, bias, patches).rows[c][p]
            == Affine(alpha, Dot(w[c], patches[p]), beta, BiasAt(bias, c))
  {
  }

  /** One output of the folded operator against the normalized original. */
  lemma FusedEntry(k: Kernels, s: Stats, alpha: real, beta: real, w: Tensor, bias: Option<Tensor>,
                   patches: seq<seq<real>>, c: nat, p: nat)
    requires c < |w.rows| && p < |patches|
    ensures Linear(alpha, beta, FusedWeight(k, s, w).rows, Some(FusedBias(k, s, |w.rows|, bias)), patches).rows[c][p]
         == Normalized(Linear(alpha, beta, w.rows, bias, patches).rows[c][p],
                       Channel(s.mean, c), ScaleAt(k, s, c), Channel(s.beta, c))
         <==> beta == 1.0 || ShiftAt(k, s, c) == 0.0
  {
    LinearEntry(alpha, beta, FusedWeight(k, s, w).rows, Some(FusedBias(k, s, |w.rows|, bias)), patches, c, p);
    LinearEntry(alpha, beta, w.rows, bias, patches, c, p);
    DotScaled(w.rows[c], patches[p], ScaleAt(k, s, c));
    assert BiasAt(Some(FusedBias(k, s, |w.rows|, bias)), c)
        == FoldBias(BiasAt(bias, c), ScaleAt(k, s, c), ShiftAt(k, s, c));
    ChannelExactIff(alpha, beta, Dot(w.rows[c], patches[p]), BiasAt(bias, c), Channel(s.mean, c), ScaleAt(k, s, c),
                    Channel(s.beta, c));
  }

  /** Normalizing the operator's output is the operator with fused parameters. */
  lemma FusedOutput(k: Kernels, s: Stats, alpha: real, w: Tensor, bias: Option<Tensor>, patches: seq<seq<real>>)
    ensures Linear(alpha, 1.0, FusedWeight(k, s, w).rows, Some(FusedBias(k, s, |w.rows|, bias)), patches)
         == Normalize(k, s.epsilon, Linear(alpha, 1.0, w.rows, bias, patches), s.gamma, s.beta, s.mean, s.variance)
  {
    var a := Linear(alpha, 1.0, FusedWeight(k, s, w).rows, Some(FusedBias(k, s, |w.rows|, bias)), patches);
    var raw := Linear(alpha, 1.0, w.rows, bias, patches);
    var b := Normalize(k, s.epsilon, raw, s.gamma, s.beta, s.mean, s.variance);
    forall c | 0 <= c < |w.rows| ensures a.rows[c] == b.rows[c] {
      forall p | 0 <= p < |patches| ensures a.rows[c][p] == b.rows[c][p] {
        FusedEntry(k, s, alpha, 1.0, w, bias, patches, c, p);
      }
      assert |a.rows[c]| == |b.rows[c]| == |patches|;
    }
    assert a.rows == b.rows;
  }

  // ── single assignment, node by node ──────────────────────────────────────

  /** A node's output is written by no other node. */
  lemma NobodyElseWrites(g: Graph, i: nat, x: string, lo: nat, hi: nat)
    requires SingleAssignment(g) && i < |g.nodes| && x in g.nodes[i].outputs && lo <= hi <= |g.nodes|
    requires !(lo <= i < hi)
    ensures WritesNone(g.nodes[lo..hi], {x})
  {
    forall m, j | 0 <= m < |g.nodes[lo..hi]| && 0 <= j < |g.nodes[lo..hi][m].outputs|
      ensures g.nodes[lo..hi][m].outputs[j] !in {x}
    {
      OutputsApart(g.nodes, i, lo + m, x);
      assert g.nodes[lo..hi][m] == g.nodes[lo + m];
    }
  }

  lemma InitsUnwritten(g: Graph, x: string, lo: nat, hi: nat)
    requires SingleAssignment(g) && x in g.inits && lo <= hi <= |g.nodes|
    ensures WritesNone(g.nodes[lo..hi], {x})
  {
    forall m, j | 0 <= m < |g.nodes[lo..hi]| && 0 <= j < |g.nodes[lo..hi][m].outputs|
      ensures g.nodes[lo..hi][m].outputs[j] !in {x}
    {
      assert g.nodes[lo..hi][m] == g.nodes[lo + m];
      assert g.nodes[lo + m].outputs[j] in g.nodes[lo + m].outputs;
      OutputsMembers(g.nodes, g.nodes[lo + m].outputs[j]);
    }
  }

  lemma OutputUndefinedAtFirst(g: Graph, i: nat, x: string, feed: Env)
    requires SingleAssignment(g) && i < |g.nodes| && x in g.nodes[i].outputs && feed.Keys <= FreeInputs(g)
    ensures x !in feed && x !in g.inits
  {
    OutputsMembers(g.nodes, x);
  }

  // ── the whole graph ──────────────────────────────────────────────────────

  /** Everything before the operator runs alike in both graphs. */
  lemma BeforeSite(k: Kernels, g: Graph, p: nat, b: nat, feed: Env)
    requires Site(g, p, b) && Private(g, p, b)
    ensures Agree(Run(k, feed + g.inits, g.nodes[..p]), Run(k, feed + Folded(k, g, p, b).inits, g.nodes[..p]),
                  Touched(g, p))
  {
    forall i, j | 0 <= i < |g.nodes[..p]| && 0 <= j < |g.nodes[..p][i].inputs|
      ensures g.nodes[..p][i].inputs[j] !in Touched(g, p)
    {
      assert g.nodes[i].inputs[j] in g.nodes[i].inputs;
    }
    RunAgree(k, feed + g.inits, feed + Folded(k, g, p, b).inits, g.nodes[..p], Touched(g, p));
  }

  /** Values of an initializer survive up to node `hi`. */
  lemma InitValue(k: Kernels, g: Graph, inits: map<string, Tensor>, x: string, hi: nat, feed: Env)
    requires hi <= |g.nodes| && x in inits && WritesNone(g.nodes[..hi], {x})
    ensures Lookup(Run(k, feed + inits, g.nodes[..hi]), x) == Some(inits[x])
  {
    RunKeeps(k, feed + inits, g.nodes[..hi], x);
  }

  lemma TouchedUnwritten(g: Graph, p: nat, b: nat, x: string, hi: nat)
    requires SingleAssignment(g) && Site(g, p, b) && x in Touched(g, p) && hi <= |g.nodes|
    ensures WritesNone(g.nodes[..hi], {x})
  {
    assert g.nodes[0..hi] == g.nodes[..hi];
    if x in g.inits { InitsUnwritten(g, x, 0, hi); }
  }

  function FusedNode(g: Graph, p: nat, b: nat): Node
    requires p < |g.nodes| && b < |g.nodes| && |g.nodes[p].outputs| >= 1 && |g.nodes[b].outputs| >= 1
  {
    var prev := g.nodes[p];
    var fused := prev.(outputs := prev.outputs[0 := g.nodes[b].outputs[0]]);
    if |prev.inputs| > 2 then fused else fused.(inputs := prev.inputs + [BiasName(prev)])
  }

  lemma FoldedNodes(k: Kernels, g: Graph, p: nat, b: nat)
    requires Site(g, p, b)
    ensures Folded(k, g, p, b).nodes == g.nodes[..p] + ([FusedNode(g, p, b)] + (g.nodes[p + 1..b] + g.nodes[b + 1..]))
  {
  }

  function AlphaOf(op: Op): real { if op.Gemm? then op.alpha else 1.0 }

  function PatchesOf(k: Kernels, op: Op, x: Tensor): seq<seq<real>> {
    if op.Conv? then k.patches(op.attrs, x) else Columns(x.rows)
  }

  function WeightOf(g: Graph, p: nat): Tensor
    requires p < |g.nodes| && |g.nodes[p].inputs| >= 2 && g.nodes[p].inputs[1] in g.inits
  {
    g.inits[g.nodes[p].inputs[1]]
  }

  function BiasOf(g: Graph, p: nat): Option<Tensor>
    requires p < |g.nodes|
  {
    if |g.nodes[p].inputs| > 2 then Lookup(g.inits, g.nodes[p].inputs[2]) else None
  }

  /** The raw output in the original and the fused output in the rewritten graph,
      given the operator's activation input. */
  lemma SiteOutputs(k: Kernels, g: Graph, p: nat, b: nat, before: Env, before': Env, x: Tensor)
    requires Site(g, p, b)
    requires Lookup(before, g.nodes[p].inputs[0]) == Some(x) && Lookup(before', g.nodes[p].inputs[0]) == Some(x)
    requires Lookup(before, g.nodes[p].inputs[1]) == Some(WeightOf(g, p))
    requires |g.nodes[p].inputs| == 3 ==> Lookup(before, g.nodes[p].inputs[2]) == BiasOf(g, p)
    requires var s := StatsOf(g, g.nodes[b]);
             Lookup(before', g.nodes[p].inputs[1]) == Some(FusedWeight(k, s, WeightOf(g, p)))
             && Lookup(before', FusedNode(g, p, b).inputs[2])
                 == Some(FusedBias(k, s, |WeightOf(g, p).rows|, BiasOf(g, p)))
    ensures var s := StatsOf(g, g.nodes[b]);
            var op := g.nodes[p].op;
            var raw := Linear(AlphaOf(op), 1.0, WeightOf(g, p).rows, BiasOf(g, p), PatchesOf(k, op, x));
            && Apply(k, op, Read(before, g.nodes[p].inputs)) == [raw]
            && Apply(k, op, Read(before', FusedNode(g, p, b).inputs))
               == [Normalize(k, s.epsilon, raw, s.gamma, s.beta, s.mean, s.variance)]
  {
    var s := StatsOf(g, g.nodes[b]);
    var op := g.nodes[p].op;
    var ins, ins' := Read(before, g.nodes[p].inputs), Read(before', FusedNode(g, p, b).inputs);
    assert ins[0] == Some(x) && ins[1] == Some(WeightOf(g, p)) && Bias(ins) == BiasOf(g, p);
    assert ins'[0] == Some(x) && ins'[1] == Some(FusedWeight(k, s, WeightOf(g, p)));
    assert Bias(ins') == Some(FusedBias(k, s, |WeightOf(g, p).rows|, BiasOf(g, p)));
    FusedOutput(k, s, AlphaOf(op), WeightOf(g, p), BiasOf(g, p), PatchesOf(k, op, x));
  }

  /** What the operator and the normalization leave behind: the same `z`. */
  ghost predicate Hands(y: string, z: string, after: Env, after': Env, raw: Option<Tensor>, out: Option<Tensor>,
                        touched: set<string>)
  {
    && Agree(after, after', touched + {y, z})
    && Lookup(after, y) == raw && Lookup(after', z) == out
    && (raw.None? ==> Lookup(after, z) == None && out == None)
  }

  /** What the operator reads in the two graphs. */
  lemma SiteReads(k: Kernels, g: Graph, p: nat, b: nat, feed: Env, before: Env, before': Env)
    requires SingleAssignment(g) && Site(g, p, b) && Private(g, p, b) && feed.Keys <= FreeInputs(g)
    requires before == Run(k, feed + g.inits, g.nodes[..p])
    requires before' == Run(k, feed + Folded(k, g, p, b).inits, g.nodes[..p])
    ensures Agree(before, before', Touched(g, p))
    ensures Lookup(before, g.nodes[p].inputs[0]) == Lookup(before', g.nodes[p].inputs[0])
    ensures Lookup(before, g.nodes[p].inputs[1]) == Some(WeightOf(g, p))
    ensures |g.nodes[p].inputs| == 3 ==> Lookup(before, g.nodes[p].inputs[2]) == BiasOf(g, p)
    ensures var s := StatsOf(g, g.nodes[b]);
            Lookup(before', g.nodes[p].inputs[1]) == Some(FusedWeight(k, s, WeightOf(g, p)))
            && Lookup(before', FusedNode(g, p, b).inputs[2])
                == Some(FusedBias(k, s, |WeightOf(g, p).rows|, BiasOf(g, p)))
  {
    var inits' := Folded(k, g, p, b).inits;
    BeforeSite(k, g, p, b, feed);
    forall t | t in Touched(g, p) ensures WritesNone(g.nodes[..p], {t}) { TouchedUnwritten(g, p, b, t, p); }
    InitValue(k, g, g.inits, g.nodes[p].inputs[1], p, feed);
    InitValue(k, g, inits', g.nodes[p].inputs[1], p, feed);
    InitValue(k, g, inits', FusedNode(g, p, b).inputs[2], p, feed);
    if |g.nodes[p].inputs| == 3 { InitValue(k, g, g.inits, g.nodes[p].inputs[2], p, feed); }
  }

  lemma OutputShapes(g: Graph, p: nat, b: nat)
    requires Site(g, p, b)
    ensures g.nodes[p].outputs == [g.nodes[p].outputs[0]] && g.nodes[b].outputs == [g.nodes[b].outputs[0]]
    ensures FusedNode(g, p, b).outputs == [g.nodes[b].outputs[0]] && FusedNode(g, p, b).op == g.nodes[p].op
  {
  }

  /** The operator with its activation present, and without. */
  lemma SitePresent(k: Kernels, g: Graph, p: nat, b: nat, feed: Env, before: Env, before': Env, x: Tensor)
    returns (raw: Option<Tensor>, out: Option<Tensor>)
    requires SingleAssignment(g) && Site(g, p, b) && Private(g, p, b) && feed.Keys <= FreeInputs(g)
    requires before == Run(k, feed + g.inits, g.nodes[..p])
    requires before' == Run(k, feed + Folded(k, g, p, b).inits, g.nodes[..p])
    requires Lookup(before, g.nodes[p].inputs[0]) == Some(x)
    ensures var s := StatsOf(g, g.nodes[b]);
            && Hands(g.nodes[p].outputs[0], g.nodes[b].outputs[0], Exec(k, before, g.nodes[p]),
                     Exec(k, before', FusedNode(g, p, b)),
                     raw, out, Touched(g, p))
            && raw.Some? && out == Some(Normalize(k, s.epsilon, raw.value, s.gamma, s.beta, s.mean, s.variance))
  {
    var s := StatsOf(g, g.nodes[b]);
    var op := g.nodes[p].op;
    SiteReads(k, g, p, b, feed, before, before');
    SiteOutputs(k, g, p, b, before, before', x);
    OutputShapes(g, p, b);
    var rawT := Linear(AlphaOf(op), 1.0, WeightOf(g, p).rows, BiasOf(g, p), PatchesOf(k, op, x));
    var outT := Normalize(k, s.epsilon, rawT, s.gamma, s.beta, s.mean, s.variance);
    BindOne(before, g.nodes[p].outputs[0], rawT);
    BindOne(before', g.nodes[b].outputs[0], outT);
    raw, out := Some(rawT), Some(outT);
  }

  lemma SiteAbsent(k: Kernels, g: Graph, p: nat, b: nat, feed: Env, before: Env, before': Env)
    requires SingleAssignment(g) && Site(g, p, b) && Private(g, p, b) && feed.Keys <= FreeInputs(g)
    requires before == Run(k, feed + g.inits, g.nodes[..p])
    requires before' == Run(k, feed + Folded(k, g, p, b).inits, g.nodes[..p])
    requires Lookup(before, g.nodes[p].inputs[0]) == None
    ensures Hands(g.nodes[p].outputs[0], g.nodes[b].outputs[0], Exec(k, before, g.nodes[p]),
                  Exec(k, before', FusedNode(g, p, b)),
                  None, None, Touched(g, p))
  {
    var y, z := g.nodes[p].outputs[0], g.nodes[b].outputs[0];
    SiteReads(k, g, p, b, feed, before, before');
    OutputShapes(g, p, b);
    Unset(k, g, p, y, p, feed);
    Unset(k, g, b, z, p, feed);
    NamesApart(g, p, b, y, z);
    NothingRead(k, g, p, b, before, before');
    assert Lookup(before', z) == Lookup(before, z);
  }

  /** Without its first input the operator defines nothing. */
  lemma NothingRead(k: Kernels, g: Graph, p: nat, b: nat, before: Env, before': Env)
    requires Site(g, p, b)
    requires Lookup(before, g.nodes[p].inputs[0]) == None && Lookup(before', g.nodes[p].inputs[0]) == None
    ensures Exec(k, before, g.nodes[p]) == before && Exec(k, before', FusedNode(g, p, b)) == before'
  {
    OutputShapes(g, p, b);
    assert Read(before, g.nodes[p].inputs)[0].None? && Read(before', FusedNode(g, p, b).inputs)[0].None?;
    BindOne(before, g.nodes[p].outputs[0], WeightOf(g, p));
    BindOne(before', g.nodes[b].outputs[0], WeightOf(g, p));
  }

  /** The operator itself. */
  lemma AtSite(k: Kernels, g: Graph, p: nat, b: nat, feed: Env, before: Env, before': Env)
    returns (raw: Option<Tensor>, out: Option<Tensor>)
    requires SingleAssignment(g) && Site(g, p, b) && Private(g, p, b) && feed.Keys <= FreeInputs(g)
    requires before == Run(k, feed + g.inits, g.nodes[..p])
    requires before' == Run(k, feed + Folded(k, g, p, b).inits, g.nodes[..p])
    ensures Hands(g.nodes[p].outputs[0], g.nodes[b].outputs[0], Exec(k, before, g.nodes[p]),
                  Exec(k, before', FusedNode(g, p, b)),
                  raw, out, Touched(g, p))
    ensures var s := StatsOf(g, g.nodes[b]);
            raw.Some? ==> out == Some(Normalize(k, s.epsilon, raw.value, s.gamma, s.beta, s.mean, s.variance))
  {
    var x := Lookup(before, g.nodes[p].inputs[0]);
    if x.Some? {
      raw, out := SitePresent(k, g, p, b, feed, before, before', x.value);
    } else {
      raw, out := None, None;
      SiteAbsent(k, g, p, b, feed, before, before');
    }
  }

  lemma NamesApart(g: Graph, p: nat, b: nat, y: string, z: string)
    requires SingleAssignment(g) && Site(g, p, b) && y == g.nodes[p].outputs[0] && z == g.nodes[b].outputs[0]
    ensures y != z && y !in Touched(g, p) && z !in Touched(g, p)
  {
    assert y in g.nodes[p].outputs && z in g.nodes[b].outputs;
    OutputsApart(g.nodes, p, b, y);
    OutputsMembers(g.nodes, y);
    OutputsMembers(g.nodes, z);
    if |g.nodes[p].inputs| == 2 {
      assert NewName(g, BiasName(g.nodes[p]));
      assert g.nodes[p].outputs[0] !in {BiasName(g.nodes[p])};
      assert g.nodes[b].outputs[0] !in {BiasName(g.nodes[p])};
    }
  }

  /** Before its own node has run, an output name is undefined. */
  lemma Unset(k: Kernels, g: Graph, i: nat, x: string, hi: nat, feed: Env)
    requires SingleAssignment(g) && i < |g.nodes| && x in g.nodes[i].outputs && hi <= i && feed.Keys <= FreeInputs(g)
    ensures Lookup(Run(k, feed + g.inits, g.nodes[..hi]), x) == None
  {
    OutputUndefinedAtFirst(g, i, x, feed);
    assert g.nodes[0..hi] == g.nodes[..hi];
    NobodyElseWrites(g, i, x, 0, hi);
    RunKeeps(k, feed + g.inits, g.nodes[..hi], x);
  }

  /** From the operator to the normalization. */
  lemma Between(k: Kernels, g: Graph, p: nat, b: nat, after: Env, after': Env, raw: Option<Tensor>, out: Option<Tensor>)
    requires SingleAssignment(g) && Site(g, p, b) && Private(g, p, b)
    requires Hands(g.nodes[p].outputs[0], g.nodes[b].outputs[0], after, after', raw, out, Touched(g, p))
    ensures Hands(g.nodes[p].outputs[0], g.nodes[b].outputs[0],
                  Run(k, after, g.nodes[p + 1..b]), Run(k, after', g.nodes[p + 1..b]), raw, out, Touched(g, p))
  {
    var y, z := g.nodes[p].outputs[0], g.nodes[b].outputs[0];
    var mid := g.nodes[p + 1..b];
    RunAgree(k, after, after', mid, Touched(g, p) + {y, z});
    assert y in g.nodes[p].outputs && z in g.nodes[b].outputs;
    NobodyElseWrites(g, p, y, p + 1, b);
    NobodyElseWrites(g, b, z, p + 1, b);
    RunKeeps(k, after, mid, y);
    RunKeeps(k, after, mid, z);
    RunKeeps(k, after', mid, z);
  }

  /** The normalization, against nothing. */
  lemma AtNormalization(k: Kernels, g: Graph, p: nat, b: nat, env: Env, env': Env, raw: Option<Tensor>,
                        out: Option<Tensor>)
    requires Site(g, p, b)
    requires Hands(g.nodes[p].outputs[0], g.nodes[b].outputs[0], env, env', raw, out, Touched(g, p))
    requires forall i :: 1 <= i < 5 ==> Lookup(env, g.nodes[b].inputs[i]) == Some(g.inits[g.nodes[b].inputs[i]])
    requires var s := StatsOf(g, g.nodes[b]);
             raw.Some? ==> out == Some(Normalize(k, s.epsilon, raw.value, s.gamma, s.beta, s.mean, s.variance))
    requires g.nodes[p].outputs[0] != g.nodes[b].outputs[0]
    ensures Agree(Exec(k, env, g.nodes[b]), env', Touched(g, p) + {g.nodes[p].outputs[0]})
  {
    var y, z := g.nodes[p].outputs[0], g.nodes[b].outputs[0];
    var ins := Read(env, g.nodes[b].inputs);
    assert ins[0] == raw;
    assert ins[1] == Some(g.inits[g.nodes[b].inputs[1]]);
    assert ins[2] == Some(g.inits[g.nodes[b].inputs[2]]);
    assert ins[3] == Some(g.inits[g.nodes[b].inputs[3]]);
    assert ins[4] == Some(g.inits[g.nodes[b].inputs[4]]);
    OutputShapes(g, p, b);
    if raw.Some? {
      assert Apply(k, g.nodes[b].op, ins) == [out.value];
      BindOne(env, z, out.value);
    } else {
      assert Apply(k, g.nodes[b].op, ins) == [];
      BindOne(env, z, WeightOf(g, p));
    }
  }

  lemma Assemble(k: Kernels, env: Env, a: seq<Node>, n: Node, m: seq<Node>)
    ensures Run(k, env, a + ([n] + m)) == Run(k, Exec(k, Run(k, env, a), n), m)
  {
    RunConcat(k, env, a, [n] + m);
    assert ([n] + m)[0] == n && ([n] + m)[1..] == m;
  }

  /** The original up to the normalization, as one operator and what follows it. */
  lemma OriginalUpTo(k: Kernels, g: Graph, p: nat, b: nat, feed: Env)
    requires SingleAssignment(g) && Site(g, p, b)
    ensures var env := Run(k, Exec(k, Run(k, feed + g.inits, g.nodes[..p]), g.nodes[p]), g.nodes[p + 1..b]);
            forall i :: 1 <= i < 5 ==> Lookup(env, g.nodes[b].inputs[i]) == Some(g.inits[g.nodes[b].inputs[i]])
  {
    var mid := g.nodes[p + 1..b];
    assert g.nodes[..b] == g.nodes[..p] + ([g.nodes[p]] + mid);
    Assemble(k, feed + g.inits, g.nodes[..p], g.nodes[p], mid);
    forall i | 1 <= i < 5
      ensures Lookup(Run(k, feed + g.inits, g.nodes[..b]), g.nodes[b].inputs[i]) == Some(g.inits[g.nodes[b].inputs[i]])
    {
      StatsStay(k, g, p, b, feed, i);
    }
  }

  lemma StatsStay(k: Kernels, g: Graph, p: nat, b: nat, feed: Env, i: nat)
    requires SingleAssignment(g) && Site(g, p, b) && 1 <= i < 5
    ensures Lookup(Run(k, feed + g.inits, g.nodes[..b]), g.nodes[b].inputs[i]) == Some(g.inits[g.nodes[b].inputs[i]])
  {
    assert g.nodes[0..b] == g.nodes[..b];
    InitsUnwritten(g, g.nodes[b].inputs[i], 0, b);
    InitValue(k, g, g.inits, g.nodes[b].inputs[i], b, feed);
  }

  /** Both graphs up to and including the normalization. */
  lemma ThroughNormalization(k: Kernels, g: Graph, p: nat, b: nat, feed: Env, before: Env, before': Env)
    requires SingleAssignment(g) && Site(g, p, b) && Private(g, p, b) && feed.Keys <= FreeInputs(g)
    requires before == Run(k, feed + g.inits, g.nodes[..p])
    requires before' == Run(k, feed + Folded(k, g, p, b).inits, g.nodes[..p])
    ensures Agree(Exec(k, Run(k, Exec(k, before, g.nodes[p]), g.nodes[p + 1..b]), g.nodes[b]),
                  Run(k, Exec(k, before', FusedNode(g, p, b)), g.nodes[p + 1..b]),
                  Touched(g, p) + {g.nodes[p].outputs[0]})
  {
    var mid := g.nodes[p + 1..b];
    var raw, out := AtSite(k, g, p, b, feed, before, before');
    var after, after' := Exec(k, before, g.nodes[p]), Exec(k, before', FusedNode(g, p, b));
    Between(k, g, p, b, after, after', raw, out);
    OriginalUpTo(k, g, p, b, feed);
    NamesApart(g, p, b, g.nodes[p].outputs[0], g.nodes[b].outputs[0]);
    AtNormalization(k, g, p, b, Run(k, after, mid), Run(k, after', mid), raw, out);
  }

  lemma SplitTwice<T>(s: seq<T>, p: nat, b: nat)
    requires p < b < |s|
    ensures s == s[..p] + ([s[p]] + (s[p + 1..b] + ([s[b]] + s[b + 1..])))
  {
  }

  /** Two runs that agree before a common rest agree after it. */
  lemma Finish(k: Kernels, a: Env, b: Env, pre: seq<Node>, n: Node, m: Node, mid: seq<Node>, last: Node,
               post: seq<Node>,
               except: set<string>)
    requires Agree(Exec(k, Run(k, Exec(k, Run(k, a, pre), n), mid), last), Run(k, Exec(k, Run(k, b, pre), m), mid),
                   except)
    requires ReadsNone(post, except)
    ensures Agree(Run(k, a, pre + ([n] + (mid + ([last] + post)))), Run(k, b, pre + ([m] + (mid + post))), except)
  {
    Assemble(k, a, pre, n, mid + ([last] + post));
    Assemble(k, Exec(k, Run(k, a, pre), n), mid, last, post);
    Assemble(k, b, pre, m, mid + post);
    RunConcat(k, Exec(k, Run(k, b, pre), m), mid, post);
    RunAgree(k, Exec(k, Run(k, Exec(k, Run(k, a, pre), n), mid), last), Run(k, Exec(k, Run(k, b, pre), m), mid), post,
             except);
  }

  /** BatchNormalization fusion preserves the meaning of the whole graph: on every
      input, every tensor but the operator's raw output and its own parameters
      evaluates to the same, for any weights, statistics and other operators. */
  lemma FusionPreservesMeaning(k: Kernels, g: Graph, p: nat, b: nat, feed: Env)
    requires SingleAssignment(g) && Site(g, p, b) && Private(g, p, b) && feed.Keys <= FreeInputs(g)
    ensures Agree(Evaluate(k, g, feed), Evaluate(k, Folded(k, g, p, b), feed), Touched(g, p) + {g.nodes[p].outputs[0]})
  {
    var env, env' := feed + g.inits, feed + Folded(k, g, p, b).inits;
    var pre, mid, post := g.nodes[..p], g.nodes[p + 1..b], g.nodes[b + 1..];
    ThroughNormalization(k, g, p, b, feed, Run(k, env, pre), Run(k, env', pre));
    Finish(k, env, env', pre, g.nodes[p], FusedNode(g, p, b), mid, g.nodes[b], post,
           Touched(g, p) + {g.nodes[p].outputs[0]});
    SplitTwice(g.nodes, p, b);
    FoldedNodes(k, g, p, b);
  }

  lemma {:induction false} ProducerIs(nodes: seq<Node>, p: nat, x: string)
    requires p < |nodes| && x in nodes[p].outputs && forall i :: 0 <= i < p ==> x !in nodes[i].outputs
    ensures IndexOfProducer(nodes, x) == p
  {
    if p > 0 {
      ProducerIs(nodes[1..], p - 1, x);
    }
  }

  /** `_apply_bn_fusion` itself, on the sites where it is exact. */
  lemma ApplyPreservesMeaning(k: Kernels, g: Graph, name: string, p: nat, feed: Env)
    requires forall n :: n in g.nodes && n.op.BatchNorm? ==> |n.inputs| >= 5 && |n.outputs| >= 1
    requires forall n :: n in g.nodes && (n.op.Conv? || n.op.Gemm?) ==> |n.inputs| >= 2 && |n.outputs| >= 1
    requires var b := IndexOfName(g.nodes, name);
             SingleAssignment(g) && Site(g, p, b) && Private(g, p, b) && feed.Keys <= FreeInputs(g)
             && (WeightOf(g, p).rank == 2 || WeightOf(g, p).rank == 4)
    ensures var r := Fused(k, g, name);
            r.Done? && Agree(Evaluate(k, g, feed), Evaluate(k, r.graph, feed), Touched(g, p) + {g.nodes[p].outputs[0]})
  {
    var b := IndexOfName(g.nodes, name);
    var y := g.nodes[p].outputs[0];
    assert y in g.nodes[p].outputs;
    forall i | 0 <= i < p ensures y !in g.nodes[i].outputs { OutputsApart(g.nodes, p, i, y); }
    ProducerIs(g.nodes, p, y);
    FusionPreservesMeaning(k, g, p, b, feed);
  }

  /** Why the normalization must be the only reader: after the fold nothing
      defines the operator's raw output any more. */
  lemma RawOutputGone(k: Kernels, g: Graph, p: nat, b: nat, feed: Env)
    requires SingleAssignment(g) && Site(g, p, b) && feed.Keys <= FreeInputs(g)
    ensures Lookup(Evaluate(k, Folded(k, g, p, b), feed), g.nodes[p].outputs[0]) == None
  {
    var y, z := g.nodes[p].outputs[0], g.nodes[b].outputs[0];
    var h := Folded(k, g, p, b);
    assert y in g.nodes[p].outputs;
    NamesApart(g, p, b, y, z);
    OutputUndefinedAtFirst(g, p, y, feed);
    RawUnwritten(k, g, p, b);
    assert y !in h.inits;
    RunKeeps(k, feed + h.inits, h.nodes, y);
  }

  lemma RawUnwritten(k: Kernels, g: Graph, p: nat, b: nat)
    requires SingleAssignment(g) && Site(g, p, b)
    ensures WritesNone(Folded(k, g, p, b).nodes, {g.nodes[p].outputs[0]})
  {
    var y, z := g.nodes[p].outputs[0], g.nodes[b].outputs[0];
    var h := Folded(k, g, p, b);
    assert y in g.nodes[p].outputs;
    NamesApart(g, p, b, y, z);
    OutputShapes(g, p, b);
    FoldedNodes(k, g, p, b);
    forall i, j | 0 <= i < |h.nodes| && 0 <= j < |h.nodes[i].outputs| ensures h.nodes[i].outputs[j] !in {y} {
      if i != p {
        var m := if i < b then i else i + 1;
        assert h.nodes[i] == g.nodes[m];
        OutputsApart(g.nodes, p, m, y);
      } else {
        assert h.nodes[i] == FusedNode(g, p, b);
      }
    }
  }
}
