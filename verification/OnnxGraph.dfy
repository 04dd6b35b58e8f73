/** A small ONNX graph with an evaluator: an environment from tensor names to
    values, filled node by node in graph order (ONNX IR specification, section
    "Graphs").  Weights are real numbers.

    A tensor is kept as its slices along axis 0, each flattened; activations of
    Conv, Gemm and BatchNormalization are kept channel by channel, so a Gemm reads
    the columns of its input, one for each entry of the batch.  Operators the
    rewrites do not touch are arbitrary functions of their inputs. */
module OnnxGraph {
  import opened Collections
  import opened Options

  datatype DType = Float32 | Float16 | Int8 | OtherType
  datatype Tensor = Tensor(dtype: DType, rank: nat, rows: seq<seq<real>>)

  datatype Op =
    | Cast
    | Dequantize(perAxis: bool)
    | Conv(attrs: nat)
    | Gemm(alpha: real, beta: real, transB: bool)
    | BatchNorm(epsilon: real)
    | Other(opType: string)

  datatype Node = Node(name: string, op: Op, inputs: seq<string>, outputs: seq<string>)

  /** `inputs` may also declare initializers, as older IR versions do. */
  datatype Graph = Graph(inits: map<string, Tensor>, inputs: set<string>, nodes: seq<Node>, outputs: set<string>)

  type Env = map<string, Tensor>

  /** What the model leaves open: the receptive field of every output position of
      a Conv, the reciprocal square root, and all other operators. */
  datatype Kernels = Kernels(
    patches: (nat, Tensor) -> seq<seq<real>>,
    rsqrt: real -> real,
    other: (Op, seq<Option<Tensor>>) -> seq<Tensor>)

  function Size(t: Tensor): nat { Total(t.rows) }

  function Total(rows: seq<seq<real>>): nat {
    if rows == [] then 0 else |rows[0]| + Total(rows[1..])
  }

  // ── operator semantics ───────────────────────────────────────────────────

  function Dot(a: seq<real>, b: seq<real>): real
    decreases |a|
  {
    if a == [] || b == [] then 0.0 else a[0] * b[0] + Dot(a[1..], b[1..])
  }

  /** Entry `c` of a per-channel vector, or of a scalar. */
  function Channel(t: Tensor, c: int): real {
    if 0 <= c < |t.rows| && |t.rows[c]| > 0 then t.rows[c][0] else 0.0
  }

  function Linear(alpha: real, beta: real, w: seq<seq<real>>, bias: Option<Tensor>, patches: seq<seq<real>>): Tensor {
    Tensor(Float32, 4,
      seq(|w|, c requires 0 <= c < |w| =>
        seq(|patches|, p requires 0 <= p < |patches| =>
          Affine(alpha, Dot(w[c], patches[p]), beta, BiasAt(bias, c)))))
  }

  function BiasAt(bias: Option<Tensor>, c: int): real { if bias.Some? then Channel(bias.value, c) else 0.0 }

  function Affine(alpha: real, dot: real, beta: real, bias: real): real { alpha * dot + beta * bias }

  function Normalized(x: real, mean: real, scale: real, offset: real): real { (x - mean) * scale + offset }

  function Columns(rows: seq<seq<real>>): seq<seq<real>> {
    var n := if rows == [] then 0 else |rows[0]|;
    seq(n, j requires 0 <= j < n =>
      seq(|rows|, i requires 0 <= i < |rows| => if j < |rows[i]| then rows[i][j] else 0.0))
  }

  function BnScale(k: Kernels, gamma: Tensor, variance: Tensor, eps: real, c: int): real {
    Channel(gamma, c) * k.rsqrt(Channel(variance, c) + eps)
  }

  function Normalize(k: Kernels, eps: real, x: Tensor, gamma: Tensor, beta: Tensor, mean: Tensor,
                     variance: Tensor): Tensor
  {
    Tensor(Float32, x.rank,
      seq(|x.rows|, c requires 0 <= c < |x.rows| =>
        seq(|x.rows[c]|, p requires 0 <= p < |x.rows[c]| =>
          Normalized(x.rows[c][p], Channel(mean, c), BnScale(k, gamma, variance, eps, c), Channel(beta, c)))))
  }

  /** DequantizeLinear: `(q - zeroPoint) * scale`, per axis-0 slice or throughout. */
  function DequantizeLinear(perAxis: bool, q: Tensor, scale: Tensor, zero: Tensor): Tensor {
    Tensor(Float32, q.rank,
      seq(|q.rows|, i requires 0 <= i < |q.rows| =>
        seq(|q.rows[i]|, j requires 0 <= j < |q.rows[i]| =>
          var c := if perAxis then i else 0;
          Dequantized(q.rows[i][j], Channel(zero, c), Channel(scale, c)))))
  }

  function Dequantized(q: real, zero: real, scale: real): real { (q - zero) * scale }

  predicate Present(ins: seq<Option<Tensor>>, n: nat) {
    |ins| >= n && forall i :: 0 <= i < n ==> ins[i].Some?
  }

  function Bias(ins: seq<Option<Tensor>>): Option<Tensor> {
    if |ins| > 2 then ins[2] else None
  }

  function Apply(k: Kernels, op: Op, ins: seq<Option<Tensor>>): seq<Tensor> {
    match op
    case Cast => if Present(ins, 1) then [Tensor(Float32, ins[0].value.rank, ins[0].value.rows)] else []
    case Dequantize(perAxis) =>
      if Present(ins, 3) then [DequantizeLinear(perAxis, ins[0].value, ins[1].value, ins[2].value)] else []
    case Conv(attrs) =>
      if Present(ins, 2) then [Linear(1.0, 1.0, ins[1].value.rows, Bias(ins), k.patches(attrs, ins[0].value))] else []
    case Gemm(alpha, beta, transB) =>
      if Present(ins, 2) then
        [Linear(alpha, beta, if transB then ins[1].value.rows else Columns(ins[1].value.rows), Bias(ins),
                Columns(ins[0].value.rows))]
      else []
    case BatchNorm(eps) =>
      if Present(ins, 5) then
        [Normalize(k, eps, ins[0].value, ins[1].value, ins[2].value, ins[3].value, ins[4].value)]
      else []
    case Other(_) => k.other(op, ins)
  }

  // ── evaluation ───────────────────────────────────────────────────────────

  function Lookup(env: Env, x: string): Option<Tensor> { if x in env then Some(env[x]) else None }

  function Read(env: Env, names: seq<string>): seq<Option<Tensor>> {
    seq(|names|, i requires 0 <= i < |names| => Lookup(env, names[i]))
  }

  function Bind(env: Env, names: seq<string>, values: seq<Tensor>): Env
    decreases |names|
  {
    if names == [] || values == [] then env
    else Bind(env[names[0] := values[0]], names[1..], values[1..])
  }

  function Exec(k: Kernels, env: Env, node: Node): Env {
    Bind(env, node.outputs, Apply(k, node.op, Read(env, node.inputs)))
  }

  function Run(k: Kernels, env: Env, nodes: seq<Node>): Env
    decreases |nodes|
  {
    if nodes == [] then env else Run(k, Exec(k, env, nodes[0]), nodes[1..])
  }

  /** Inputs the caller feeds: those that are not initializers. */
  function FreeInputs(g: Graph): set<string> { g.inputs - g.inits.Keys }

  function Evaluate(k: Kernels, g: Graph, feed: Env): Env {
    Run(k, feed + g.inits, g.nodes)
  }

  // ── agreement outside a set of names ─────────────────────────────────────

  ghost predicate Agree(a: Env, b: Env, except: set<string>) {
    forall x :: x !in except ==> Lookup(a, x) == Lookup(b, x)
  }

  ghost predicate ReadsNone(nodes: seq<Node>, names: set<string>) {
    forall i, j :: 0 <= i < |nodes| && 0 <= j < |nodes[i].inputs| ==> nodes[i].inputs[j] !in names
  }

  lemma {:induction false} BindAgree(a: Env, b: Env, names: seq<string>, values: seq<Tensor>, except: set<string>)
    requires Agree(a, b, except)
    ensures Agree(Bind(a, names, values), Bind(b, names, values), except)
    decreases |names|
  {
    if names != [] && values != [] {
      forall x | x !in except ensures Lookup(a[names[0] := values[0]], x) == Lookup(b[names[0] := values[0]], x) {
        assert Lookup(a, x) == Lookup(b, x);
      }
      BindAgree(a[names[0] := values[0]], b[names[0] := values[0]], names[1..], values[1..], except);
    }
  }

  lemma ReadAgree(a: Env, b: Env, names: seq<string>, except: set<string>)
    requires Agree(a, b, except) && forall j :: 0 <= j < |names| ==> names[j] !in except
    ensures Read(a, names) == Read(b, names)
  {
  }

  /** Nodes that read none of the excepted names compute the same in both. */
  lemma {:induction false} RunAgree(k: Kernels, a: Env, b: Env, nodes: seq<Node>, except: set<string>)
    requires Agree(a, b, except) && ReadsNone(nodes, except)
    ensures Agree(Run(k, a, nodes), Run(k, b, nodes), except)
    decreases |nodes|
  {
    if nodes != [] {
      ReadAgree(a, b, nodes[0].inputs, except);
      BindAgree(a, b, nodes[0].outputs, Apply(k, nodes[0].op, Read(a, nodes[0].inputs)), except);
      RunAgree(k, Exec(k, a, nodes[0]), Exec(k, b, nodes[0]), nodes[1..], except);
    }
  }

  lemma {:induction false} BindKeeps(env: Env, names: seq<string>, values: seq<Tensor>, x: string)
    requires x !in names
    ensures Lookup(Bind(env, names, values), x) == Lookup(env, x)
    decreases |names|
  {
    if names != [] && values != [] { BindKeeps(env[names[0] := values[0]], names[1..], values[1..], x); }
  }

  ghost predicate WritesNone(nodes: seq<Node>, names: set<string>) {
    forall i, j :: 0 <= i < |nodes| && 0 <= j < |nodes[i].outputs| ==> nodes[i].outputs[j] !in names
  }

  /** A name no node writes keeps its value. */
  lemma {:induction false} RunKeeps(k: Kernels, env: Env, nodes: seq<Node>, x: string)
    requires WritesNone(nodes, {x})
    ensures Lookup(Run(k, env, nodes), x) == Lookup(env, x)
    decreases |nodes|
  {
    if nodes != [] {
      BindKeeps(env, nodes[0].outputs, Apply(k, nodes[0].op, Read(env, nodes[0].inputs)), x);
      RunKeeps(k, Exec(k, env, nodes[0]), nodes[1..], x);
    }
  }

  lemma {:induction false} RunConcat(k: Kernels, env: Env, a: seq<Node>, b: seq<Node>)
    ensures Run(k, env, a + b) == Run(k, Run(k, env, a), b)
    decreases |a|
  {
    if a == [] {
      assert a + b == b;
    } else {
      assert (a + b)[0] == a[0] && (a + b)[1..] == a[1..] + b;
      RunConcat(k, Exec(k, env, a[0]), a[1..], b);
    }
  }

  lemma BindOne(env: Env, n: string, t: Tensor)
    ensures Bind(env, [n], [t]) == env[n := t] && Bind(env, [n], []) == env
  {
    assert [n][1..] == [] && [t][1..] == [];
  }

  // ── single assignment ────────────────────────────────────────────────────

  function Outputs(nodes: seq<Node>): seq<string> {
    if nodes == [] then [] else nodes[0].outputs + Outputs(nodes[1..])
  }

  /** Every tensor name is defined once: fed, initialised, or one node output. */
  ghost predicate SingleAssignment(g: Graph) {
    && NoRepeats(Outputs(g.nodes))
    && forall x :: x in Outputs(g.nodes) ==> x !in g.inits && x !in g.inputs
  }

  lemma {:induction false} OutputsMembers(nodes: seq<Node>, x: string)
    ensures x in Outputs(nodes) <==> exists i :: 0 <= i < |nodes| && x in nodes[i].outputs
  {
    if nodes != [] {
      OutputsMembers(nodes[1..], x);
      if i :| 0 <= i < |nodes| && x in nodes[i].outputs {
        if i > 0 { assert x in nodes[1..][i - 1].outputs; }
      }
      if i :| 0 <= i < |nodes[1..]| && x in nodes[1..][i].outputs { assert x in nodes[i + 1].outputs; }
    }
  }

  /** With single assignment no two nodes share an output. */
  lemma {:induction false} OutputsApart(nodes: seq<Node>, i: nat, j: nat, x: string)
    requires NoRepeats(Outputs(nodes)) && i < |nodes| && j < |nodes| && i != j && x in nodes[i].outputs
    ensures x !in nodes[j].outputs
  {
    var head, rest := nodes[0].outputs, Outputs(nodes[1..]);
    assert Outputs(nodes) == head + rest;
    if i > 0 && j > 0 {
      forall a, b | 0 <= a < b < |rest| ensures rest[a] != rest[b] {
        assert (head + rest)[|head| + a] == rest[a] && (head + rest)[|head| + b] == rest[b];
      }
      OutputsApart(nodes[1..], i - 1, j - 1, x);
    } else {
      var other := if i == 0 then j else i;
      OutputsMembers(nodes[1..], x);
      assert nodes[1..][other - 1] == nodes[other];
      forall a, b | 0 <= a < |head| && 0 <= b < |rest| ensures head[a] != rest[b] {
        assert (head + rest)[a] == head[a] && (head + rest)[|head| + b] == rest[b];
      }
    }
  }
}
