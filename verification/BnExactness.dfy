/** Where BatchNormalization fusion stops being exact, on whole graphs: a Gemm with
    a bias coefficient, a bias that only arrives at run time, and a Gemm whose
    weight is not transposed.  The rewrite looks at none of the three. */
module BnExactness {
  import opened BnFusion
  import opened OnnxGraph
  import opened Options
  import opened Reals

  // ── output tensors ───────────────────────────────────────────────────────

  ghost predicate ShiftsVanish(k: Kernels, s: Stats, n: nat) {
    forall c :: 0 <= c < n ==> ShiftAt(k, s, c) == 0.0
  }

  function Normed(k: Kernels, s: Stats, t: Tensor): Tensor {
    Normalize(k, s.epsilon, t, s.gamma, s.beta, s.mean, s.variance)
  }

  /** The folded operator's output. */
  function FoldedOutput(k: Kernels, s: Stats, alpha: real, beta: real, w: Tensor, bias: Option<Tensor>,
                        patches: seq<seq<real>>): Tensor
  {
    Linear(alpha, beta, FusedWeight(k, s, w).rows, Some(FusedBias(k, s, |w.rows|, bias)), patches)
  }

  function RawOutput(alpha: real, beta: real, w: Tensor, bias: Option<Tensor>, patches: seq<seq<real>>): Tensor {
    Linear(alpha, beta, w.rows, bias, patches)
  }

  /** Rows of `n` entries, as many as a weight row has. */
  ghost predicate Wide(rows: seq<seq<real>>, n: nat) { forall r :: r in rows ==> |r| == n }

  function Zero(n: nat): seq<real> { seq(n, m => 0.0) }

  /** A fixed or absent bias under a coefficient: exact on all inputs of the weight's
      width if and only if the coefficient is 1 or no channel is shifted. */
  lemma CoefficientIff(k: Kernels, s: Stats, alpha: real, beta: real, w: Tensor, bias: Option<Tensor>, n: nat)
    requires Wide(w.rows, n)
    ensures beta == 1.0 || ShiftsVanish(k, s, |w.rows|)
            <==> forall patches | Wide(patches, n) ::
                   FoldedOutput(k, s, alpha, beta, w, bias, patches)
                   == Normed(k, s, RawOutput(alpha, beta, w, bias, patches))
  {
    if beta == 1.0 || ShiftsVanish(k, s, |w.rows|) {
      forall patches | Wide(patches, n)
        ensures FoldedOutput(k, s, alpha, beta, w, bias, patches)
                == Normed(k, s, RawOutput(alpha, beta, w, bias, patches))
      {
        CoefficientSame(k, s, alpha, beta, w, bias, patches);
      }
    } else {
      var c :| 0 <= c < |w.rows| && ShiftAt(k, s, c) != 0.0;
      CoefficientDiffers(k, s, alpha, beta, w, bias, [Zero(n)], c);
      assert Wide([Zero(n)], n);
    }
  }

  lemma CoefficientDiffers(k: Kernels, s: Stats, alpha: real, beta: real, w: Tensor, bias: Option<Tensor>,
                           patches: seq<seq<real>>, c: nat)
    requires c < |w.rows| && patches != [] && beta != 1.0 && ShiftAt(k, s, c) != 0.0
    ensures FoldedOutput(k, s, alpha, beta, w, bias, patches) != Normed(k, s, RawOutput(alpha, beta, w, bias, patches))
  {
    FusedEntry(k, s, alpha, beta, w, bias, patches, c, 0);
    assert FoldedOutput(k, s, alpha, beta, w, bias, patches).rows[c][0]
        != Normed(k, s, RawOutput(alpha, beta, w, bias, patches)).rows[c][0];
  }

  lemma CoefficientSame(k: Kernels, s: Stats, alpha: real, beta: real, w: Tensor, bias: Option<Tensor>,
                        patches: seq<seq<real>>)
    requires beta == 1.0 || ShiftsVanish(k, s, |w.rows|)
    ensures FoldedOutput(k, s, alpha, beta, w, bias, patches) == Normed(k, s, RawOutput(alpha, beta, w, bias, patches))
  {
    var a := FoldedOutput(k, s, alpha, beta, w, bias, patches);
    var b := Normed(k, s, RawOutput(alpha, beta, w, bias, patches));
    forall c | 0 <= c < |w.rows| ensures a.rows[c] == b.rows[c] {
      forall p | 0 <= p < |patches|
        ensures a.rows[c][p] == b.rows[c][p]
      {
        FusedEntry(k, s, alpha, beta, w, bias, patches, c, p);
      }
      assert |a.rows[c]| == |b.rows[c]| == |patches|;
    }
    assert a.rows == b.rows;
  }

  /** The output when the weight is scaled and the bias left alone. */
  function UnfoldedOutput(k: Kernels, s: Stats, alpha: real, beta: real, w: Tensor, bias: Option<Tensor>,
                          patches: seq<seq<real>>): Tensor
  {
    Linear(alpha, beta, FusedWeight(k, s, w).rows, bias, patches)
  }

  lemma UnfoldedAt(k: Kernels, s: Stats, alpha: real, beta: real, w: Tensor, bias: Option<Tensor>,
                   patches: seq<seq<real>>, c: nat, p: nat)
    requires c < |w.rows| && p < |patches|
    ensures UnfoldedOutput(k, s, alpha, beta, w, bias, patches).rows[c][p]
            == Normed(k, s, RawOutput(alpha, beta, w, bias, patches)).rows[c][p]
            <==> beta * BiasAt(bias, c) == beta * BiasAt(bias, c) * ScaleAt(k, s, c) + ShiftAt(k, s, c)
  {
    LinearEntry(alpha, beta, FusedWeight(k, s, w).rows, bias, patches, c, p);
    LinearEntry(alpha, beta, w.rows, bias, patches, c, p);
    DotScaled(w.rows[c], patches[p], ScaleAt(k, s, c));
    UnfoldedWith(alpha, beta, Dot(w.rows[c], patches[p]), Dot(FusedWeight(k, s, w).rows[c], patches[p]),
                 BiasAt(bias, c), Channel(s.mean, c), ScaleAt(k, s, c), Channel(s.beta, c), ShiftAt(k, s, c));
  }

  lemma UnfoldedWith(alpha: real, beta: real, dot: real, scaled: real, bias: real, mean: real, scale: real,
                     offset: real, shift: real)
    requires scaled == dot * scale && shift == Shift(mean, scale, offset)
    ensures Affine(alpha, scaled, beta, bias) == Normalized(Affine(alpha, dot, beta, bias), mean, scale, offset)
            <==> beta * bias == beta * bias * scale + shift
  {
    UnfoldedEntry(alpha, beta, dot, bias, mean, scale, offset);
  }

  /** Every channel passes a bias through unchanged and adds nothing. */
  ghost predicate BiasPasses(k: Kernels, s: Stats, beta: real, n: nat) {
    forall c :: 0 <= c < n ==> ShiftAt(k, s, c) == 0.0 && (beta == 0.0 || ScaleAt(k, s, c) == 1.0)
  }

  lemma UnfoldedSame(k: Kernels, s: Stats, alpha: real, beta: real, w: Tensor, bias: Option<Tensor>,
                     patches: seq<seq<real>>)
    requires BiasPasses(k, s, beta, |w.rows|)
    ensures UnfoldedOutput(k, s, alpha, beta, w, bias, patches)
            == Normed(k, s, RawOutput(alpha, beta, w, bias, patches))
  {
    var a := UnfoldedOutput(k, s, alpha, beta, w, bias, patches);
    var b := Normed(k, s, RawOutput(alpha, beta, w, bias, patches));
    forall c | 0 <= c < |w.rows| ensures a.rows[c] == b.rows[c] {
      forall p | 0 <= p < |patches|
        ensures a.rows[c][p] == b.rows[c][p]
      {
        UnfoldedAt(k, s, alpha, beta, w, bias, patches, c, p);
      }
      assert |a.rows[c]| == |b.rows[c]| == |patches|;
    }
    assert a.rows == b.rows;
  }

  /** The bias of zeros, or of ones, for `n` channels. */
  function Flat(n: nat, x: real): Tensor { Tensor(Float32, 1, seq(n, c => [x])) }

  lemma UnfoldedDiffers(k: Kernels, s: Stats, alpha: real, beta: real, w: Tensor, patches: seq<seq<real>>)
    returns (x: real)
    requires !BiasPasses(k, s, beta, |w.rows|) && patches != []
    ensures var bias := Some(Flat(|w.rows|, x));
            UnfoldedOutput(k, s, alpha, beta, w, bias, patches)
            != Normed(k, s, RawOutput(alpha, beta, w, bias, patches))
  {
    var c :| 0 <= c < |w.rows| && !(ShiftAt(k, s, c) == 0.0 && (beta == 0.0 || ScaleAt(k, s, c) == 1.0));
    x := if ShiftAt(k, s, c) == 0.0 then 1.0 else 0.0;
    var bias := Some(Flat(|w.rows|, x));
    assert BiasAt(bias, c) == x;
    UnfoldedAt(k, s, alpha, beta, w, bias, patches, c, 0);
    NotPassed(beta, ScaleAt(k, s, c), ShiftAt(k, s, c), x);
    assert UnfoldedOutput(k, s, alpha, beta, w, bias, patches).rows[c][0]
        != Normed(k, s, RawOutput(alpha, beta, w, bias, patches)).rows[c][0];
  }

  lemma NotPassed(beta: real, scale: real, shift: real, x: real)
    requires !(shift == 0.0 && (beta == 0.0 || scale == 1.0)) && x == if shift == 0.0 then 1.0 else 0.0
    ensures beta * x != beta * x * scale + shift
  {
    Distribute(beta, 1.0, scale);
    ZeroProduct(beta, 1.0 - scale);
  }

  // ── two-node graphs ──────────────────────────────────────────────────────

  datatype ChainBias = NoBias | Fixed(bias: Tensor) | Fed

  function GemmInputs(bias: ChainBias): seq<string> {
    if bias.NoBias? then ["x", "w"] else ["x", "w", "b"]
  }

  function StatsInits(s: Stats): map<string, Tensor> {
    map["gamma" := s.gamma, "beta" := s.beta, "mean" := s.mean, "variance" := s.variance]
  }

  /** A Gemm and the BatchNormalization behind it; `x`, and the bias if it is fed,
      come from the caller. */
  function Chain(alpha: real, beta: real, transB: bool, w: Tensor, bias: ChainBias, s: Stats): Graph {
    Graph(StatsInits(s)["w" := w] + (if bias.Fixed? then map["b" := bias.bias] else map[]),
          {"x"} + (if bias.Fed? then {"b"} else {}),
          [GemmNode(alpha, beta, transB, GemmInputs(bias), "y"),
           NormNode(s)],
          {"z"})
  }

  function NormNode(s: Stats): Node {
    Node("n", BatchNorm(s.epsilon), ["y", "gamma", "beta", "mean", "variance"], ["z"])
  }

  function GemmNode(alpha: real, beta: real, transB: bool, inputs: seq<string>, output: string): Node {
    Node("g", Gemm(alpha, beta, transB), inputs, [output])
  }

  const NEW_BIAS := "g_fused_bias"

  /** The folded node: it makes the normalization's output, and reads a new bias if
      it had none. */
  function FoldedNode(alpha: real, beta: real, transB: bool, bias: ChainBias): Node {
    GemmNode(alpha, beta, transB, if bias.NoBias? then ["x", "w", NEW_BIAS] else ["x", "w", "b"], "z")
  }

  lemma RunOne(k: Kernels, env: Env, a: Node)
    ensures Run(k, env, [a]) == Exec(k, env, a)
  {
    assert [a][1..] == [];
  }

  lemma RunTwo(k: Kernels, env: Env, a: Node, b: Node)
    ensures Run(k, env, [a, b]) == Exec(k, Exec(k, env, a), b)
  {
    assert [a, b][1..] == [b];
    RunOne(k, Exec(k, env, a), b);
  }

  lemma FoldedNodes(k: Kernels, alpha: real, beta: real, transB: bool, w: Tensor, bias: ChainBias, s: Stats)
    ensures Folded(k, Chain(alpha, beta, transB, w, bias, s), 0, 1).nodes == [FoldedNode(alpha, beta, transB, bias)]
  {
    var g := Chain(alpha, beta, transB, w, bias, s);
    assert BiasName(g.nodes[0]) == NEW_BIAS;
    assert ["x", "w"] + [NEW_BIAS] == ["x", "w", NEW_BIAS];
    assert ["y"][0 := "z"] == ["z"];
    var fused := FoldedNode(alpha, beta, transB, bias);
    assert Without(g.nodes[0 := fused], 1) == [fused];
  }

  lemma ChainStats(alpha: real, beta: real, transB: bool, w: Tensor, bias: ChainBias, s: Stats)
    ensures var g := Chain(alpha, beta, transB, w, bias, s);
            StatsOf(g, g.nodes[1]) == s && g.inits["w"] == w && "x" !in g.inits && "z" !in g.inits
            && ("b" in g.inits <==> bias.Fixed?) && (bias.Fixed? ==> g.inits["b"] == bias.bias)
  {
  }

  lemma FoldedChain(k: Kernels, alpha: real, beta: real, transB: bool, w: Tensor, bias: ChainBias, s: Stats)
    ensures var h := Folded(k, Chain(alpha, beta, transB, w, bias, s), 0, 1);
            && h.nodes == [FoldedNode(alpha, beta, transB, bias)]
            && "w" in h.inits && h.inits["w"] == FusedWeight(k, s, w)
            && "x" !in h.inits && "z" !in h.inits
            && (bias.NoBias? ==> NEW_BIAS in h.inits && h.inits[NEW_BIAS] == FusedBias(k, s, |w.rows|, None))
            && (bias.Fixed? ==> "b" in h.inits && h.inits["b"] == FusedBias(k, s, |w.rows|, Some(bias.bias)))
            && (bias.Fed? ==> "b" !in h.inits)
  {
    var g := Chain(alpha, beta, transB, w, bias, s);
    FoldedNodes(k, alpha, beta, transB, w, bias, s);
    ChainStats(alpha, beta, transB, w, bias, s);
    assert BiasName(g.nodes[0]) == NEW_BIAS;
    assert |NEW_BIAS| == 12 && NEW_BIAS != "w" && NEW_BIAS != "x" && NEW_BIAS != "z";
  }

  /** What a caller may feed a graph with `n` input features and `m` output
      channels: an activation of `n` channels, and a bias of `m` entries. */
  ghost predicate Feeds(g: Graph, n: nat, m: nat, feed: Env) {
    && feed.Keys <= FreeInputs(g)
    && ("x" in feed ==> |feed["x"].rows| == n && exists batch :: Wide(feed["x"].rows, batch))
    && ("b" in feed ==> |feed["b"].rows| == m && Wide(feed["b"].rows, 1))
  }

  /** The same output on everything a caller may feed. */
  ghost predicate SameOutput(k: Kernels, g: Graph, h: Graph, n: nat, m: nat) {
    forall feed: Env :: Feeds(g, n, m, feed) ==> SameAt(k, g, h, feed)
  }

  ghost predicate SameAt(k: Kernels, g: Graph, h: Graph, feed: Env) {
    Lookup(Evaluate(k, g, feed), "z") == Lookup(Evaluate(k, h, feed), "z")
  }

  /** A batch of one entry, channel by channel. */
  function Batch(v: seq<real>): Tensor {
    Tensor(Float32, 2, seq(|v|, i requires 0 <= i < |v| => [v[i]]))
  }

  lemma OneEntry(v: seq<real>)
    requires v != []
    ensures Columns(Batch(v).rows) == [v] && |Batch(v).rows| == |v| && Wide(Batch(v).rows, 1)
  {
    assert |Batch(v).rows[0]| == 1;
    assert Columns(Batch(v).rows)[0] == v;
  }

  function Oriented(transB: bool, rows: seq<seq<real>>): seq<seq<real>> { if transB then rows else Columns(rows) }

  function BiasRead(bias: ChainBias, feed: Env): Option<Tensor> {
    match bias
    case NoBias => None
    case Fixed(t) => Some(t)
    case Fed => Lookup(feed, "b")
  }

  lemma GemmStep(k: Kernels, env: Env, alpha: real, beta: real, transB: bool, inputs: seq<string>, output: string,
                 x: Option<Tensor>, w: Tensor, bias: Option<Tensor>)
    requires |inputs| == 2 || |inputs| == 3
    requires Lookup(env, inputs[0]) == x && Lookup(env, inputs[1]) == Some(w)
    requires bias == if |inputs| == 3 then Lookup(env, inputs[2]) else None
    ensures Exec(k, env, GemmNode(alpha, beta, transB, inputs, output))
         == if x.Some?
            then env[output := Linear(alpha, beta, Oriented(transB, w.rows), bias, Columns(x.value.rows))]
            else env
  {
    var node := GemmNode(alpha, beta, transB, inputs, output);
    if x.Some? {
      var out := Linear(alpha, beta, Oriented(transB, w.rows), bias, Columns(x.value.rows));
      assert Apply(k, node.op, Read(env, inputs)) == [out];
      BindOne(env, output, out);
    } else {
      assert Apply(k, node.op, Read(env, inputs)) == [];
      BindOne(env, output, w);
    }
  }

  /** What the chain's nodes find before the first of them runs. */
  lemma ChainStart(alpha: real, beta: real, transB: bool, w: Tensor, bias: ChainBias, s: Stats, feed: Env)
    requires feed.Keys <= FreeInputs(Chain(alpha, beta, transB, w, bias, s))
    ensures var env := feed + Chain(alpha, beta, transB, w, bias, s).inits;
            && Lookup(env, "x") == Lookup(feed, "x") && Lookup(env, "w") == Some(w)
            && (!bias.NoBias? ==> Lookup(env, "b") == BiasRead(bias, feed))
            && Lookup(env, "y") == None && Lookup(env, "z") == None
            && Lookup(env, "gamma") == Some(s.gamma) && Lookup(env, "beta") == Some(s.beta)
            && Lookup(env, "mean") == Some(s.mean) && Lookup(env, "variance") == Some(s.variance)
  {
  }

  lemma ChainValue(k: Kernels, alpha: real, beta: real, transB: bool, w: Tensor, bias: ChainBias, s: Stats, feed: Env)
    requires feed.Keys <= FreeInputs(Chain(alpha, beta, transB, w, bias, s))
    ensures Lookup(Evaluate(k, Chain(alpha, beta, transB, w, bias, s), feed), "z")
         == if "x" in feed
            then Some(Normed(k, s, Linear(alpha, beta, Oriented(transB, w.rows), BiasRead(bias, feed),
                                          Columns(feed["x"].rows))))
            else None
  {
    var env := feed + Chain(alpha, beta, transB, w, bias, s).inits;
    var gemm := GemmNode(alpha, beta, transB, GemmInputs(bias), "y");
    RunTwo(k, env, gemm, NormNode(s));
    ChainStart(alpha, beta, transB, w, bias, s, feed);
    GemmStep(k, env, alpha, beta, transB, GemmInputs(bias), "y", Lookup(feed, "x"), w, BiasRead(bias, feed));
  }

  function FoldedBias(k: Kernels, s: Stats, n: nat, bias: ChainBias, feed: Env): Option<Tensor> {
    match bias
    case NoBias => Some(FusedBias(k, s, n, None))
    case Fixed(t) => Some(FusedBias(k, s, n, Some(t)))
    case Fed => Lookup(feed, "b")
  }

  lemma FoldedStart(k: Kernels, alpha: real, beta: real, transB: bool, w: Tensor, bias: ChainBias, s: Stats, feed: Env)
    requires feed.Keys <= FreeInputs(Chain(alpha, beta, transB, w, bias, s))
    ensures var env := feed + Folded(k, Chain(alpha, beta, transB, w, bias, s), 0, 1).inits;
            && Lookup(env, "x") == Lookup(feed, "x") && Lookup(env, "w") == Some(FusedWeight(k, s, w))
            && Lookup(env, if bias.NoBias? then NEW_BIAS else "b") == FoldedBias(k, s, |w.rows|, bias, feed)
            && Lookup(env, "z") == None
  {
    FoldedChain(k, alpha, beta, transB, w, bias, s);
    assert |NEW_BIAS| == 12 && NEW_BIAS != "w" && NEW_BIAS != "x";
  }

  lemma FoldedValue(k: Kernels, alpha: real, beta: real, transB: bool, w: Tensor, bias: ChainBias, s: Stats, feed: Env)
    requires feed.Keys <= FreeInputs(Chain(alpha, beta, transB, w, bias, s))
    ensures Lookup(Evaluate(k, Folded(k, Chain(alpha, beta, transB, w, bias, s), 0, 1), feed), "z")
         == if "x" in feed
            then Some(Linear(alpha, beta, Oriented(transB, FusedWeight(k, s, w).rows),
                             FoldedBias(k, s, |w.rows|, bias, feed), Columns(feed["x"].rows)))
            else None
  {
    var env := feed + Folded(k, Chain(alpha, beta, transB, w, bias, s), 0, 1).inits;
    FoldedChain(k, alpha, beta, transB, w, bias, s);
    FoldedStart(k, alpha, beta, transB, w, bias, s, feed);
    RunOne(k, env, FoldedNode(alpha, beta, transB, bias));
    GemmStep(k, env, alpha, beta, transB, FoldedNode(alpha, beta, transB, bias).inputs, "z",
             Lookup(feed, "x"), FusedWeight(k, s, w), FoldedBias(k, s, |w.rows|, bias, feed));
  }

  /** The two graphs agree on a feed where normalizing the raw output gives the
      folded one. */
  lemma SameAtIff(k: Kernels, alpha: real, beta: real, transB: bool, w: Tensor, bias: ChainBias, s: Stats, feed: Env)
    requires feed.Keys <= FreeInputs(Chain(alpha, beta, transB, w, bias, s))
    ensures var g := Chain(alpha, beta, transB, w, bias, s);
            SameAt(k, g, Folded(k, g, 0, 1), feed)
            <==> ("x" in feed ==>
                    Normed(k, s, Linear(alpha, beta, Oriented(transB, w.rows), BiasRead(bias, feed),
                                        Columns(feed["x"].rows)))
                    == Linear(alpha, beta, Oriented(transB, FusedWeight(k, s, w).rows),
                              FoldedBias(k, s, |w.rows|, bias, feed), Columns(feed["x"].rows)))
  {
    ChainValue(k, alpha, beta, transB, w, bias, s, feed);
    FoldedValue(k, alpha, beta, transB, w, bias, s, feed);
  }

  /** The chain's caller feeds the activation, and the bias if nothing fixes it. */
  lemma ChainFree(alpha: real, beta: real, transB: bool, w: Tensor, bias: ChainBias, s: Stats)
    ensures FreeInputs(Chain(alpha, beta, transB, w, bias, s)) == {"x"} + (if bias.Fed? then {"b"} else {})
  {
  }

  lemma CoefficientSameAt(k: Kernels, alpha: real, beta: real, w: Tensor, bias: ChainBias, s: Stats, feed: Env)
    requires !bias.Fed? && (beta == 1.0 || ShiftsVanish(k, s, |w.rows|))
    requires feed.Keys <= FreeInputs(Chain(alpha, beta, true, w, bias, s))
    ensures var g := Chain(alpha, beta, true, w, bias, s); SameAt(k, g, Folded(k, g, 0, 1), feed)
  {
    SameAtIff(k, alpha, beta, true, w, bias, s, feed);
    if "x" in feed {
      CoefficientSame(k, s, alpha, beta, w, BiasRead(bias, map[]), Columns(feed["x"].rows));
    }
  }

  lemma CoefficientDiffersAt(k: Kernels, alpha: real, beta: real, w: Tensor, bias: ChainBias, s: Stats, n: nat)
    requires !bias.Fed? && beta != 1.0 && !ShiftsVanish(k, s, |w.rows|) && n > 0
    ensures var g := Chain(alpha, beta, true, w, bias, s);
            var feed: Env := map["x" := Batch(Zero(n))];
            Feeds(g, n, |w.rows|, feed) && !SameAt(k, g, Folded(k, g, 0, 1), feed)
  {
    var feed: Env := map["x" := Batch(Zero(n))];
    ChainFree(alpha, beta, true, w, bias, s);
    OneEntry(Zero(n));
    SameAtIff(k, alpha, beta, true, w, bias, s, feed);
    var c :| 0 <= c < |w.rows| && ShiftAt(k, s, c) != 0.0;
    CoefficientDiffers(k, s, alpha, beta, w, BiasRead(bias, map[]), [Zero(n)], c);
  }

  /** A fixed or absent bias: the pass preserves the graph's output on every input,
      if and only if the bias coefficient is 1 or no channel is shifted. */
  lemma GemmCoefficientIff(k: Kernels, alpha: real, beta: real, w: Tensor, bias: ChainBias, s: Stats, n: nat)
    requires !bias.Fed? && n > 0 && Wide(w.rows, n)
    ensures var g := Chain(alpha, beta, true, w, bias, s);
            beta == 1.0 || ShiftsVanish(k, s, |w.rows|) <==> SameOutput(k, g, Folded(k, g, 0, 1), n, |w.rows|)
  {
    var g := Chain(alpha, beta, true, w, bias, s);
    if beta == 1.0 || ShiftsVanish(k, s, |w.rows|) {
      forall feed: Env | Feeds(g, n, |w.rows|, feed) ensures SameAt(k, g, Folded(k, g, 0, 1), feed) {
        CoefficientSameAt(k, alpha, beta, w, bias, s, feed);
      }
    } else {
      CoefficientDiffersAt(k, alpha, beta, w, bias, s, n);
    }
  }

  lemma FedBiasSameAt(k: Kernels, alpha: real, beta: real, w: Tensor, s: Stats, feed: Env)
    requires BiasPasses(k, s, beta, |w.rows|) && feed.Keys <= FreeInputs(Chain(alpha, beta, true, w, Fed, s))
    ensures var g := Chain(alpha, beta, true, w, Fed, s); SameAt(k, g, Folded(k, g, 0, 1), feed)
  {
    SameAtIff(k, alpha, beta, true, w, Fed, s, feed);
    if "x" in feed { UnfoldedSame(k, s, alpha, beta, w, Lookup(feed, "b"), Columns(feed["x"].rows)); }
  }

  /** A zero input of `n` features and a flat bias of `m` entries. */
  function FlatFeed(n: nat, m: nat, x: real): Env { map["x" := Batch(Zero(n)), "b" := Flat(m, x)] }

  lemma FlatFeeds(alpha: real, beta: real, w: Tensor, s: Stats, n: nat, x: real)
    requires n > 0
    ensures Feeds(Chain(alpha, beta, true, w, Fed, s), n, |w.rows|, FlatFeed(n, |w.rows|, x))
    ensures Columns(Batch(Zero(n)).rows) == [Zero(n)]
  {
    ChainFree(alpha, beta, true, w, Fed, s);
    OneEntry(Zero(n));
    assert FlatFeed(n, |w.rows|, x).Keys == {"x", "b"};
    assert Wide(Flat(|w.rows|, x).rows, 1);
  }

  lemma FedBiasDiffersAt(k: Kernels, alpha: real, beta: real, w: Tensor, s: Stats, n: nat) returns (feed: Env)
    requires !BiasPasses(k, s, beta, |w.rows|) && n > 0
    ensures var g := Chain(alpha, beta, true, w, Fed, s);
            Feeds(g, n, |w.rows|, feed) && !SameAt(k, g, Folded(k, g, 0, 1), feed)
  {
    var x := UnfoldedDiffers(k, s, alpha, beta, w, [Zero(n)]);
    feed := FlatFeed(n, |w.rows|, x);
    FlatFeeds(alpha, beta, w, s, n, x);
    SameAtIff(k, alpha, beta, true, w, Fed, s, feed);
    assert Lookup(feed, "b") == Some(Flat(|w.rows|, x));
  }

  /** A bias the caller feeds: the pass preserves the graph's output on every input,
      if and only if every channel has shift 0 and scale 1 (or the bias does not
      count). */
  lemma GemmFedBiasIff(k: Kernels, alpha: real, beta: real, w: Tensor, s: Stats, n: nat)
    requires n > 0 && Wide(w.rows, n)
    ensures var g := Chain(alpha, beta, true, w, Fed, s);
            BiasPasses(k, s, beta, |w.rows|) <==> SameOutput(k, g, Folded(k, g, 0, 1), n, |w.rows|)
  {
    var g := Chain(alpha, beta, true, w, Fed, s);
    if BiasPasses(k, s, beta, |w.rows|) {
      forall feed: Env | Feeds(g, n, |w.rows|, feed) ensures SameAt(k, g, Folded(k, g, 0, 1), feed) {
        FedBiasSameAt(k, alpha, beta, w, s, feed);
      }
    } else {
      var feed := FedBiasDiffersAt(k, alpha, beta, w, s, n);
    }
  }

  /** On these graphs the pass folds, whatever the coefficient, the bias and transB:
      it looks at none of them. */
  lemma PassFoldsChain(k: Kernels, alpha: real, beta: real, transB: bool, w: Tensor, bias: ChainBias, s: Stats)
    requires w.rank == 2
    ensures var g := Chain(alpha, beta, transB, w, bias, s);
            && (forall n :: n in g.nodes && n.op.BatchNorm? ==> |n.inputs| >= 5 && |n.outputs| >= 1)
            && (forall n :: n in g.nodes && (n.op.Conv? || n.op.Gemm?) ==> |n.inputs| >= 2 && |n.outputs| >= 1)
            && Fused(k, g, "n") == Done(Folded(k, g, 0, 1))
  {
    var g := Chain(alpha, beta, transB, w, bias, s);
    ChainStats(alpha, beta, transB, w, bias, s);
    assert g.nodes[0].name == "g" && g.nodes[1].name == "n" && g.nodes[1..][0] == g.nodes[1];
    assert IndexOfName(g.nodes, "n") == 1;
    assert g.nodes[0].outputs == ["y"] && g.nodes[1].inputs[0] == "y";
    assert IndexOfProducer(g.nodes, "y") == 0;
  }

  // ── a weight that is not transposed ──────────────────────────────────────

  ghost predicate Square(w: Tensor) { forall i :: 0 <= i < |w.rows| ==> |w.rows[i]| == |w.rows| }

  /** Row `i` is scaled where column `j` should be: harmless for that entry if it
      is 0 or the two channels have one scale. */
  ghost predicate EntryFits(k: Kernels, s: Stats, w: Tensor, i: nat, j: nat)
    requires Square(w) && i < |w.rows| && j < |w.rows|
  {
    w.rows[i][j] == 0.0 || ScaleAt(k, s, i) == ScaleAt(k, s, j)
  }

  ghost predicate ScalesFit(k: Kernels, s: Stats, alpha: real, w: Tensor)
    requires Square(w)
  {
    alpha == 0.0 || forall i, j :: 0 <= i < |w.rows| && 0 <= j < |w.rows| ==> EntryFits(k, s, w, i, j)
  }

  lemma ColumnsSquare(w: Tensor, j: nat)
    requires Square(w) && j < |w.rows|
    ensures |Columns(w.rows)| == |w.rows| && |Columns(w.rows)[j]| == |w.rows|
    ensures forall i :: 0 <= i < |w.rows| ==> Columns(w.rows)[j][i] == w.rows[i][j]
  {
    assert |w.rows[0]| == |w.rows|;
  }

  lemma FusedSquare(k: Kernels, s: Stats, w: Tensor)
    requires Square(w)
    ensures Square(FusedWeight(k, s, w)) && |FusedWeight(k, s, w).rows| == |w.rows|
  {
  }

  lemma ColumnScaled(k: Kernels, s: Stats, w: Tensor, j: nat)
    requires Square(w) && j < |w.rows| && forall i :: 0 <= i < |w.rows| ==> EntryFits(k, s, w, i, j)
    ensures |Columns(FusedWeight(k, s, w).rows)| == |Columns(w.rows)| == |w.rows|
    ensures Columns(FusedWeight(k, s, w).rows)[j] == ScaleRow(Columns(w.rows)[j], ScaleAt(k, s, j))
  {
    FusedSquare(k, s, w);
    ColumnsSquare(w, j);
    ColumnsSquare(FusedWeight(k, s, w), j);
    forall i | 0 <= i < |w.rows|
      ensures Columns(FusedWeight(k, s, w).rows)[j][i] == ScaleRow(Columns(w.rows)[j], ScaleAt(k, s, j))[i]
    {
      assert EntryFits(k, s, w, i, j);
    }
  }

  function Unit(n: nat, i: nat): seq<real> { seq(n, m => if m == i then 1.0 else 0.0) }

  lemma {:induction false} DotUnit(row: seq<real>, i: nat)
    requires i < |row|
    ensures Dot(row, Unit(|row|, i)) == row[i]
    decreases |row|
  {
    var u := Unit(|row|, i);
    if i == 0 {
      forall m | 0 <= m < |u[1..]| ensures u[1..][m] == 0.0 {}
      DotZeros(row[1..], u[1..]);
    } else {
      assert u[1..] == Unit(|row| - 1, i - 1);
      DotUnit(row[1..], i - 1);
    }
  }

  lemma {:induction false} DotZeros(row: seq<real>, v: seq<real>)
    requires forall m :: 0 <= m < |v| ==> v[m] == 0.0
    ensures Dot(row, v) == 0.0
    decreases |row|
  {
    if row != [] && v != [] { DotZeros(row[1..], v[1..]); }
  }

  /** Outputs of the untransposed Gemm, folded and normalized. */
  function FoldedColumns(k: Kernels, s: Stats, alpha: real, beta: real, w: Tensor, bias: Option<Tensor>,
                         patches: seq<seq<real>>): Tensor
  {
    Linear(alpha, beta, Columns(FusedWeight(k, s, w).rows), Some(FusedBias(k, s, |w.rows|, bias)), patches)
  }

  function NormedColumns(k: Kernels, s: Stats, alpha: real, beta: real, w: Tensor, bias: Option<Tensor>,
                         patches: seq<seq<real>>): Tensor
  {
    Normed(k, s, Linear(alpha, beta, Columns(w.rows), bias, patches))
  }

  /** One entry, when the scaled weight gives `dot'` where `dot` was. */
  lemma ColumnEntry(k: Kernels, s: Stats, alpha: real, beta: real, w: Tensor, bias: Option<Tensor>,
                    patches: seq<seq<real>>, c: nat, p: nat)
    requires Square(w) && c < |w.rows| && p < |patches|
    ensures |Columns(w.rows)| == |Columns(FusedWeight(k, s, w).rows)| == |w.rows|
    ensures FoldedColumns(k, s, alpha, beta, w, bias, patches).rows[c][p]
         == Affine(alpha, Dot(Columns(FusedWeight(k, s, w).rows)[c], patches[p]), beta,
                   FoldBias(BiasAt(bias, c), ScaleAt(k, s, c), ShiftAt(k, s, c)))
    ensures NormedColumns(k, s, alpha, beta, w, bias, patches).rows[c][p]
         == Normalized(Affine(alpha, Dot(Columns(w.rows)[c], patches[p]), beta, BiasAt(bias, c)),
                       Channel(s.mean, c), ScaleAt(k, s, c), Channel(s.beta, c))
  {
    FusedSquare(k, s, w);
    ColumnsSquare(w, c);
    ColumnsSquare(FusedWeight(k, s, w), c);
    LinearEntry(alpha, beta, Columns(FusedWeight(k, s, w).rows), Some(FusedBias(k, s, |w.rows|, bias)), patches, c, p);
    LinearEntry(alpha, beta, Columns(w.rows), bias, patches, c, p);
    assert BiasAt(Some(FusedBias(k, s, |w.rows|, bias)), c)
        == FoldBias(BiasAt(bias, c), ScaleAt(k, s, c), ShiftAt(k, s, c));
  }

  lemma ColumnDot(k: Kernels, s: Stats, alpha: real, w: Tensor, patch: seq<real>, c: nat)
    requires Square(w) && ScalesFit(k, s, alpha, w) && c < |w.rows|
    ensures |Columns(w.rows)| == |Columns(FusedWeight(k, s, w).rows)| == |w.rows|
    ensures alpha == 0.0
            || Dot(Columns(FusedWeight(k, s, w).rows)[c], patch) == Dot(Columns(w.rows)[c], patch) * ScaleAt(k, s, c)
  {
    FusedSquare(k, s, w);
    ColumnsSquare(w, c);
    ColumnsSquare(FusedWeight(k, s, w), c);
    if alpha != 0.0 {
      ColumnScaled(k, s, w, c);
      DotScaled(Columns(w.rows)[c], patch, ScaleAt(k, s, c));
    }
  }

  lemma ColumnSameAt(k: Kernels, s: Stats, alpha: real, beta: real, w: Tensor, bias: Option<Tensor>,
                     patches: seq<seq<real>>, c: nat, p: nat)
    requires Square(w) && ScalesFit(k, s, alpha, w) && (beta == 1.0 || ShiftsVanish(k, s, |w.rows|))
    requires c < |w.rows| && p < |patches|
    ensures |Columns(w.rows)| == |Columns(FusedWeight(k, s, w).rows)| == |w.rows|
    ensures FoldedColumns(k, s, alpha, beta, w, bias, patches).rows[c][p]
            == NormedColumns(k, s, alpha, beta, w, bias, patches).rows[c][p]
  {
    ColumnEntry(k, s, alpha, beta, w, bias, patches, c, p);
    ColumnRight(k, s, alpha, beta, w, BiasAt(bias, c), patches[p], c);
  }

  lemma ColumnRight(k: Kernels, s: Stats, alpha: real, beta: real, w: Tensor, bias: real, patch: seq<real>, c: nat)
    requires Square(w) && ScalesFit(k, s, alpha, w) && (beta == 1.0 || ShiftsVanish(k, s, |w.rows|)) && c < |w.rows|
    ensures |Columns(w.rows)| == |Columns(FusedWeight(k, s, w).rows)| == |w.rows|
    ensures Affine(alpha, Dot(Columns(FusedWeight(k, s, w).rows)[c], patch), beta,
                   FoldBias(bias, ScaleAt(k, s, c), ShiftAt(k, s, c)))
         == Normalized(Affine(alpha, Dot(Columns(w.rows)[c], patch), beta, bias),
                       Channel(s.mean, c), ScaleAt(k, s, c), Channel(s.beta, c))
  {
    ColumnDot(k, s, alpha, w, patch, c);
    EntryRight(k, s, alpha, beta, Dot(Columns(w.rows)[c], patch), Dot(Columns(FusedWeight(k, s, w).rows)[c], patch),
               bias, c);
  }

  lemma EntryRight(k: Kernels, s: Stats, alpha: real, beta: real, dot: real, scaled: real, bias: real, c: nat)
    requires (alpha == 0.0 || scaled == dot * ScaleAt(k, s, c)) && (beta == 1.0 || ShiftAt(k, s, c) == 0.0)
    ensures Affine(alpha, scaled, beta, FoldBias(bias, ScaleAt(k, s, c), ShiftAt(k, s, c)))
         == Normalized(Affine(alpha, dot, beta, bias), Channel(s.mean, c), ScaleAt(k, s, c), Channel(s.beta, c))
  {
    ScaledRight(alpha, beta, dot, scaled, bias, FoldBias(bias, ScaleAt(k, s, c), ShiftAt(k, s, c)),
                Channel(s.mean, c), ScaleAt(k, s, c), Channel(s.beta, c));
  }

  lemma ChannelWith(alpha: real, beta: real, dot: real, scaled: real, bias: real, folded: real, mean: real, scale: real,
                    offset: real)
    requires scaled == dot * scale && folded == FoldBias(bias, scale, Shift(mean, scale, offset))
    ensures Affine(alpha, scaled, beta, folded) == Normalized(Affine(alpha, dot, beta, bias), mean, scale, offset)
            <==> beta == 1.0 || Shift(mean, scale, offset) == 0.0
  {
    ChannelExactIff(alpha, beta, dot, bias, mean, scale, offset);
  }

  lemma ScaledRight(alpha: real, beta: real, dot: real, scaled: real, bias: real, folded: real, mean: real, scale: real,
                    offset: real)
    requires (alpha == 0.0 || scaled == dot * scale) && (beta == 1.0 || Shift(mean, scale, offset) == 0.0)
    requires folded == FoldBias(bias, scale, Shift(mean, scale, offset))
    ensures Affine(alpha, scaled, beta, folded) == Normalized(Affine(alpha, dot, beta, bias), mean, scale, offset)
  {
    var exact := dot * scale;
    ChannelWith(alpha, beta, dot, exact, bias, folded, mean, scale, offset);
  }

  lemma ScaledWrong(alpha: real, beta: real, entry: real, other: real, scaled: real, bias: real, folded: real,
                    mean: real, scale: real, offset: real)
    requires alpha != 0.0 && entry != 0.0 && other != scale && (beta == 1.0 || Shift(mean, scale, offset) == 0.0)
    requires scaled == entry * other && folded == FoldBias(bias, scale, Shift(mean, scale, offset))
    ensures Affine(alpha, scaled, beta, folded) != Normalized(Affine(alpha, entry, beta, bias), mean, scale, offset)
  {
    var exact := entry * scale;
    Unequal(entry, other, scale, scaled, exact);
    ChannelWith(alpha, beta, entry, exact, bias, folded, mean, scale, offset);
  }

  lemma Unequal(entry: real, a: real, b: real, x: real, y: real)
    requires entry != 0.0 && a != b && x == entry * a && y == entry * b
    ensures x != y
  {
    Distribute(entry, a, b);
    ZeroProduct(entry, a - b);
  }

  lemma ColumnsSame(k: Kernels, s: Stats, alpha: real, beta: real, w: Tensor, bias: Option<Tensor>,
                    patches: seq<seq<real>>)
    requires Square(w) && ScalesFit(k, s, alpha, w) && (beta == 1.0 || ShiftsVanish(k, s, |w.rows|))
    ensures FoldedColumns(k, s, alpha, beta, w, bias, patches) == NormedColumns(k, s, alpha, beta, w, bias, patches)
  {
    var a, b := FoldedColumns(k, s, alpha, beta, w, bias, patches), NormedColumns(k, s, alpha, beta, w, bias, patches);
    if w.rows != [] {
      FusedSquare(k, s, w);
      ColumnsSquare(w, 0);
      ColumnsSquare(FusedWeight(k, s, w), 0);
    }
    assert |a.rows| == |b.rows| == |w.rows|;
    forall c | 0 <= c < |w.rows| ensures a.rows[c] == b.rows[c] {
      forall p | 0 <= p < |patches|
        ensures a.rows[c][p] == b.rows[c][p]
      {
        ColumnSameAt(k, s, alpha, beta, w, bias, patches, c, p);
      }
      assert |a.rows[c]| == |b.rows[c]| == |patches|;
    }
    assert a.rows == b.rows;
  }

  /** An input that shows the difference: a zero row for an unscaled shift, a unit
      vector for a weight entry scaled by the wrong channel. */
  lemma ColumnsDiffer(k: Kernels, s: Stats, alpha: real, beta: real, w: Tensor, bias: Option<Tensor>)
    returns (v: seq<real>)
    requires Square(w) && !(ScalesFit(k, s, alpha, w) && (beta == 1.0 || ShiftsVanish(k, s, |w.rows|)))
    ensures |v| == |w.rows| > 0
    ensures FoldedColumns(k, s, alpha, beta, w, bias, [v]) != NormedColumns(k, s, alpha, beta, w, bias, [v])
  {
    if beta != 1.0 && !ShiftsVanish(k, s, |w.rows|) {
      v := Zero(|w.rows|);
      var c :| 0 <= c < |w.rows| && ShiftAt(k, s, c) != 0.0;
      WrongShift(k, s, alpha, beta, w, bias, c);
      assert FoldedColumns(k, s, alpha, beta, w, bias, [v]).rows[c][0]
          != NormedColumns(k, s, alpha, beta, w, bias, [v]).rows[c][0];
    } else {
      var i: nat, j: nat :| i < |w.rows| && j < |w.rows| && !EntryFits(k, s, w, i, j);
      v := Unit(|w.rows|, i);
      WrongScale(k, s, alpha, beta, w, bias, i, j);
      assert FoldedColumns(k, s, alpha, beta, w, bias, [v]).rows[j][0]
          != NormedColumns(k, s, alpha, beta, w, bias, [v]).rows[j][0];
    }
  }

  /** A unit vector picks out one entry, which the pass scaled by its row's channel. */
  lemma UnitDots(k: Kernels, s: Stats, w: Tensor, i: nat, j: nat)
    requires Square(w) && i < |w.rows| && j < |w.rows|
    ensures |Columns(w.rows)| == |Columns(FusedWeight(k, s, w).rows)| == |w.rows|
    ensures Dot(Columns(w.rows)[j], Unit(|w.rows|, i)) == w.rows[i][j]
    ensures Dot(Columns(FusedWeight(k, s, w).rows)[j], Unit(|w.rows|, i)) == w.rows[i][j] * ScaleAt(k, s, i)
  {
    FusedSquare(k, s, w);
    ColumnsSquare(w, j);
    ColumnsSquare(FusedWeight(k, s, w), j);
    DotUnit(Columns(w.rows)[j], i);
    DotUnit(Columns(FusedWeight(k, s, w).rows)[j], i);
  }

  /** Both outputs on a unit vector. */
  lemma UnitEntry(k: Kernels, s: Stats, alpha: real, beta: real, w: Tensor, bias: Option<Tensor>, i: nat, j: nat)
    requires Square(w) && i < |w.rows| && j < |w.rows|
    ensures |Columns(w.rows)| == |Columns(FusedWeight(k, s, w).rows)| == |w.rows|
    ensures FoldedColumns(k, s, alpha, beta, w, bias, [Unit(|w.rows|, i)]).rows[j][0]
         == Affine(alpha, w.rows[i][j] * ScaleAt(k, s, i), beta,
                   FoldBias(BiasAt(bias, j), ScaleAt(k, s, j), ShiftAt(k, s, j)))
    ensures NormedColumns(k, s, alpha, beta, w, bias, [Unit(|w.rows|, i)]).rows[j][0]
         == Normalized(Affine(alpha, w.rows[i][j], beta, BiasAt(bias, j)),
                       Channel(s.mean, j), ScaleAt(k, s, j), Channel(s.beta, j))
  {
    UnitDots(k, s, w, i, j);
    ColumnEntry(k, s, alpha, beta, w, bias, [Unit(|w.rows|, i)], j, 0);
  }

  lemma WrongShift(k: Kernels, s: Stats, alpha: real, beta: real, w: Tensor, bias: Option<Tensor>, c: nat)
    requires Square(w) && c < |w.rows| && beta != 1.0 && ShiftAt(k, s, c) != 0.0
    ensures |Columns(w.rows)| == |Columns(FusedWeight(k, s, w).rows)| == |w.rows|
    ensures FoldedColumns(k, s, alpha, beta, w, bias, [Zero(|w.rows|)]).rows[c][0]
         != NormedColumns(k, s, alpha, beta, w, bias, [Zero(|w.rows|)]).rows[c][0]
  {
    ColumnEntry(k, s, alpha, beta, w, bias, [Zero(|w.rows|)], c, 0);
    DotZeros(Columns(w.rows)[c], Zero(|w.rows|));
    DotZeros(Columns(FusedWeight(k, s, w).rows)[c], Zero(|w.rows|));
    ChannelExactIff(alpha, beta, 0.0, BiasAt(bias, c), Channel(s.mean, c), ScaleAt(k, s, c), Channel(s.beta, c));
  }

  lemma WrongScale(k: Kernels, s: Stats, alpha: real, beta: real, w: Tensor, bias: Option<Tensor>, i: nat, j: nat)
    requires Square(w) && i < |w.rows| && j < |w.rows| && alpha != 0.0 && !EntryFits(k, s, w, i, j)
    requires beta == 1.0 || ShiftAt(k, s, j) == 0.0
    ensures |Columns(w.rows)| == |Columns(FusedWeight(k, s, w).rows)| == |w.rows|
    ensures FoldedColumns(k, s, alpha, beta, w, bias, [Unit(|w.rows|, i)]).rows[j][0]
         != NormedColumns(k, s, alpha, beta, w, bias, [Unit(|w.rows|, i)]).rows[j][0]
  {
    UnitEntry(k, s, alpha, beta, w, bias, i, j);
    ScaledWrong(alpha, beta, w.rows[i][j], ScaleAt(k, s, i), w.rows[i][j] * ScaleAt(k, s, i), BiasAt(bias, j),
                FoldBias(BiasAt(bias, j), ScaleAt(k, s, j), ShiftAt(k, s, j)),
                Channel(s.mean, j), ScaleAt(k, s, j), Channel(s.beta, j));
  }

  ghost predicate ColumnsRight(k: Kernels, alpha: real, beta: real, w: Tensor, s: Stats)
    requires Square(w)
  {
    ScalesFit(k, s, alpha, w) && (beta == 1.0 || ShiftsVanish(k, s, |w.rows|))
  }

  lemma ColumnsSameAt(k: Kernels, alpha: real, beta: real, w: Tensor, bias: ChainBias, s: Stats, feed: Env)
    requires !bias.Fed? && Square(w) && ColumnsRight(k, alpha, beta, w, s)
    requires feed.Keys <= FreeInputs(Chain(alpha, beta, false, w, bias, s))
    ensures var g := Chain(alpha, beta, false, w, bias, s); SameAt(k, g, Folded(k, g, 0, 1), feed)
  {
    SameAtIff(k, alpha, beta, false, w, bias, s, feed);
    if "x" in feed { ColumnsSame(k, s, alpha, beta, w, BiasRead(bias, map[]), Columns(feed["x"].rows)); }
  }

  lemma ColumnsDifferAt(k: Kernels, alpha: real, beta: real, w: Tensor, bias: ChainBias, s: Stats) returns (feed: Env)
    requires !bias.Fed? && Square(w) && !ColumnsRight(k, alpha, beta, w, s)
    ensures var g := Chain(alpha, beta, false, w, bias, s);
            Feeds(g, |w.rows|, |w.rows|, feed) && !SameAt(k, g, Folded(k, g, 0, 1), feed)
  {
    var v := ColumnsDiffer(k, s, alpha, beta, w, BiasRead(bias, map[]));
    feed := map["x" := Batch(v)];
    ChainFree(alpha, beta, false, w, bias, s);
    OneEntry(v);
    SameAtIff(k, alpha, beta, false, w, bias, s, feed);
  }

  /** A Gemm without transB: the pass scales rows where it should scale columns.
      With as many rows as columns it preserves the graph's output on every input,
      if and only if every entry that counts is 0 or meets one scale both ways, and
      the bias coefficient is 1 or no channel is shifted. */
  lemma UntransposedIff(k: Kernels, alpha: real, beta: real, w: Tensor, bias: ChainBias, s: Stats)
    requires !bias.Fed? && Square(w)
    ensures var g := Chain(alpha, beta, false, w, bias, s);
            ColumnsRight(k, alpha, beta, w, s) <==> SameOutput(k, g, Folded(k, g, 0, 1), |w.rows|, |w.rows|)
  {
    var g := Chain(alpha, beta, false, w, bias, s);
    if ColumnsRight(k, alpha, beta, w, s) {
      forall feed: Env | Feeds(g, |w.rows|, |w.rows|, feed) ensures SameAt(k, g, Folded(k, g, 0, 1), feed) {
        ColumnsSameAt(k, alpha, beta, w, bias, s, feed);
      }
    } else {
      var feed := ColumnsDifferAt(k, alpha, beta, w, bias, s);
    }
  }
}
