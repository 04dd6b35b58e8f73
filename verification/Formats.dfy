/** In which format a quantization pass stores an initializer, and which ones it
    stores at all (astra/graph/onnx_transformer.py, `_apply_weight_quantization`,
    `_store_fp16`, `_store_int8`), read off the rewritten graph. */
module Formats {
  import opened Collections
  import opened OnnxGraph
  import opened Options
  import opened Quantization
  import opened QuantizationPass
  import opened Reals

  // ── what is asked for ────────────────────────────────────────────────────

  /** The action names an operator that reads `x`, a float32 initializer of at least
      1024 bytes; integer formats also want a second dimension. */
  ghost predicate Asks(g: Graph, a: Action, x: string) {
    var node := FindNode(g.nodes, a.operatorName);
    && node.Some? && x in node.value.inputs && x in g.inits
    && g.inits[x].dtype == Float32 && 4 * Size(g.inits[x]) >= 1024
    && (a.target == FP16 || ((a.target == INT8 || a.target == INT4) && g.inits[x].rank >= 2))
  }

  ghost predicate FirstAsks(g: Graph, actions: seq<Action>, a: nat, x: string) {
    a < |actions| && Asks(g, actions[a], x) && forall b :: 0 <= b < a ==> !Asks(g, actions[b], x)
  }

  /** Of several operators of one name the first is meant. */
  lemma {:induction false} FirstOfName(nodes: seq<Node>, name: string) returns (i: nat)
    ensures i <= |nodes| && forall k :: 0 <= k < i ==> nodes[k].name != name
    ensures FindNode(nodes, name) == if i < |nodes| then Some(nodes[i]) else None
    ensures i < |nodes| ==> nodes[i].name == name
  {
    i := 0;
    if nodes != [] && nodes[0].name != name {
      i := FirstOfName(nodes[1..], name);
      i := i + 1;
    }
  }

  // ── what is found in the graph ───────────────────────────────────────────

  ghost predicate SameShape<A, B>(a: seq<seq<A>>, b: seq<seq<B>>) {
    |a| == |b| && forall i :: 0 <= i < |a| ==> |a[i]| == |b[i]|
  }

  /** A float16 copy. */
  ghost predicate HalfOf(t: Tensor, w: Tensor, half: real -> real) {
    && t.dtype == Float16 && t.rank == w.rank && SameShape(t.rows, w.rows)
    && forall i, j :: 0 <= i < |w.rows| && 0 <= j < |w.rows[i]| ==> t.rows[i][j] == half(w.rows[i][j])
  }

  /** `bound` bounds the weights that share the scale of slice `i`. */
  ghost predicate Bounds(w: Tensor, perAxis: bool, i: nat, bound: real)
    requires i < |w.rows|
  {
    if perAxis then forall j :: 0 <= j < |w.rows[i]| ==> Abs(w.rows[i][j]) <= bound
    else forall m, j :: 0 <= m < |w.rows| && 0 <= j < |w.rows[m]| ==> Abs(w.rows[m][j]) <= bound
  }

  /** One entry: an integer code in range that restores the weight within half a
      step of any bound on its slice. */
  ghost predicate CodeOf(code: real, scale: real, w: Tensor, qmax: int, perAxis: bool, i: nat, j: nat)
    requires i < |w.rows| && j < |w.rows[i]| && qmax > 0
  {
    && IsCode(code, qmax)
    && forall bound {:trigger Bounds(w, perAxis, i, bound)} :: bound >= 0.0 && Bounds(w, perAxis, i, bound) ==>
         Near(code, scale, w.rows[i][j], bound, qmax)
  }

  ghost predicate IsCode(code: real, qmax: int) {
    code == code.Floor as real && -qmax <= code.Floor <= qmax
  }

  ghost predicate Near(code: real, scale: real, x: real, bound: real, qmax: int)
    requires qmax > 0
  {
    Abs(code * scale - x) <= (bound / qmax as real + 0.000000000001) / 2.0
  }

  ghost predicate EntryOf(q: Tensor, scale: Tensor, zero: Tensor, w: Tensor, qmax: int, perAxis: bool, i: nat, j: nat)
    requires qmax > 0 && i < |w.rows| && j < |w.rows[i]| && i < |q.rows| && j < |q.rows[i]|
  {
    var c := if perAxis then i else 0;
    Channel(zero, c) == 0.0 && CodeOf(q.rows[i][j], Channel(scale, c), w, qmax, perAxis, i, j)
  }

  /** Int8 codes with a scale and a zero point of 0, per axis-0 slice or throughout. */
  ghost predicate CodesOf(q: Tensor, scale: Tensor, zero: Tensor, w: Tensor, qmax: int, perAxis: bool)
    requires qmax > 0
  {
    && q.dtype == Int8 && scale.dtype == Float32 && zero.dtype == Int8 && q.rank == w.rank && SameShape(q.rows, w.rows)
    && forall i, j :: 0 <= i < |w.rows| && 0 <= j < |w.rows[i]| ==> EntryOf(q, scale, zero, w, qmax, perAxis, i, j)
  }

  /** Node `d` restores `w` from the format `target` asks for: a float16 copy behind
      a Cast, also where the opset has no int8, or integer codes behind a
      DequantizeLinear. */
  ghost predicate InFormat(h: Graph, d: Node, w: Tensor, target: Target, consumer: Op, s: Setting) {
    if target == FP16 || !s.opset.int8 then
      && d.op == Cast && |d.inputs| == 1 && d.inputs[0] in h.inits && HalfOf(h.inits[d.inputs[0]], w, s.half)
    else
      && d.op.Dequantize? && (d.op.perAxis <==> consumer.Conv? && w.rank == 4 && s.opset.perAxis && |w.rows| > 1)
      && |d.inputs| == 3 && (forall k :: 0 <= k < 3 ==> d.inputs[k] in h.inits)
      && CodesOf(h.inits[d.inputs[0]], h.inits[d.inputs[1]], h.inits[d.inputs[2]], w, if target == INT8 then 127 else 7,
                 d.op.perAxis)
  }

  // ── one storage ──────────────────────────────────────────────────────────

  /** The node reads exactly the parts of the storage. */
  ghost predicate Stores(h: Graph, d: Node, st: Storage) {
    && KnownStorage(st) && d.op == st.op && |d.inputs| == |st.parts|
    && forall k :: 0 <= k < |st.parts| ==> d.inputs[k] in h.inits && h.inits[d.inputs[k]] == st.parts[k].1
  }

  lemma {:induction false} MaxAbsLeast(row: seq<real>, bound: real)
    requires bound >= 0.0 && forall j :: 0 <= j < |row| ==> Abs(row[j]) <= bound
    ensures MaxAbs(row) <= bound
  {
    if row != [] { MaxAbsLeast(row[1..], bound); }
  }

  lemma {:induction false} MaxAbsAllLeast(rows: seq<seq<real>>, bound: real)
    requires bound >= 0.0
    requires forall i, j :: 0 <= i < |rows| && 0 <= j < |rows[i]| ==> Abs(rows[i][j]) <= bound
    ensures MaxAbsAll(rows) <= bound
  {
    if rows != [] {
      MaxAbsLeast(rows[0], bound);
      MaxAbsAllLeast(rows[1..], bound);
    }
  }

  lemma RowMaxLeast(w: Tensor, perAxis: bool, i: nat, bound: real)
    requires i < |w.rows| && bound >= 0.0 && Bounds(w, perAxis, i, bound)
    ensures RowMax(w, perAxis, i) <= bound
  {
    if perAxis { MaxAbsLeast(w.rows[i], bound); } else { MaxAbsAllLeast(w.rows, bound); }
  }

  lemma ScaleMonotone(m: real, bound: real, q: int)
    requires m <= bound && q > 0
    ensures Scale(m, q) <= bound / q as real + 0.000000000001
  {
    var a, b := m / q as real, bound / q as real;
    assert a * q as real == m && b * q as real == bound;
    if a > b { assert a * q as real > b * q as real; }
  }

  lemma IntegerIsCode(c: int, qmax: int)
    requires -qmax <= c <= qmax
    ensures IsCode(c as real, qmax)
  {
    assert (c as real).Floor == c;
  }

  lemma IntEntry(w: Tensor, q: int, perAxis: bool, i: nat, j: nat)
    requires q > 0 && i < |w.rows| && j < |w.rows[i]|
    ensures CodeOf(Codes(w, q, perAxis)[i][j] as real, RowScale(w, q, perAxis, i), w, q, perAxis, i, j)
  {
    var code, s := Codes(w, q, perAxis)[i][j] as real, RowScale(w, q, perAxis, i);
    EntryIsCode(w, q, perAxis, i, j);
    forall bound | bound >= 0.0 && Bounds(w, perAxis, i, bound) ensures Near(code, s, w.rows[i][j], bound, q) {
      EntryIsNear(w, q, perAxis, i, j, code, s, bound);
    }
  }

  lemma EntryIsCode(w: Tensor, q: int, perAxis: bool, i: nat, j: nat)
    requires q > 0 && i < |w.rows| && j < |w.rows[i]|
    ensures IsCode(Codes(w, q, perAxis)[i][j] as real, q)
  {
    StepOf(w, q, perAxis, i, j, RowScale(w, q, perAxis, i), Codes(w, q, perAxis)[i][j]);
    IntegerIsCode(Codes(w, q, perAxis)[i][j], q);
  }

  lemma EntryIsNear(w: Tensor, q: int, perAxis: bool, i: nat, j: nat, code: real, s: real, bound: real)
    requires q > 0 && i < |w.rows| && j < |w.rows[i]| && bound >= 0.0 && Bounds(w, perAxis, i, bound)
    requires code == Codes(w, q, perAxis)[i][j] as real && s == RowScale(w, q, perAxis, i)
    ensures Near(code, s, w.rows[i][j], bound, q)
  {
    StepOf(w, q, perAxis, i, j, s, Codes(w, q, perAxis)[i][j]);
    RowMaxLeast(w, perAxis, i, bound);
    HalfOfStep(code, s, w.rows[i][j], RowMax(w, perAxis, i), bound, q);
  }

  lemma StepOf(w: Tensor, q: int, perAxis: bool, i: nat, j: nat, s: real, c: int)
    requires q > 0 && i < |w.rows| && j < |w.rows[i]|
    requires s == RowScale(w, q, perAxis, i) && c == Codes(w, q, perAxis)[i][j]
    ensures s == Scale(RowMax(w, perAxis, i), q) && -q <= c <= q
    ensures Abs(Dequantized(c as real, 0.0, s) - w.rows[i][j]) <= s / 2.0
  {
    ScaleCovers(RowMax(w, perAxis, i), q, 0.0);
    CodeIsClose(w, q, perAxis, i, j, s, c);
  }

  lemma HalfOfStep(c: real, s: real, x: real, m: real, bound: real, q: int)
    requires q > 0 && s == Scale(m, q) && m <= bound && Abs(Dequantized(c, 0.0, s) - x) <= s / 2.0
    ensures Near(c, s, x, bound, q)
  {
    assert Dequantized(c, 0.0, s) == c * s;
    ScaleMonotone(m, bound, q);
  }

  lemma IntCodes(w: Tensor, q: int, perAxis: bool)
    requires q > 0
    ensures var st := IntStorage(w, q, perAxis);
            CodesOf(st.parts[0].1, st.parts[1].1, st.parts[2].1, w, q, perAxis)
  {
    var st := IntStorage(w, q, perAxis);
    var codes, scale, zero := st.parts[0].1, st.parts[1].1, st.parts[2].1;
    assert codes.rows == AsRows(Codes(w, q, perAxis)) && SameShape(codes.rows, w.rows);
    forall i, j | 0 <= i < |w.rows| && 0 <= j < |w.rows[i]| ensures EntryOf(codes, scale, zero, w, q, perAxis, i, j) {
      IntEntry(w, q, perAxis, i, j);
      IntParts(w, q, perAxis, i, j);
    }
  }

  lemma IntParts(w: Tensor, q: int, perAxis: bool, i: nat, j: nat)
    requires q > 0 && i < |w.rows| && j < |w.rows[i]|
    ensures var st := IntStorage(w, q, perAxis);
            var c := if perAxis then i else 0;
            && Channel(st.parts[1].1, c) == RowScale(w, q, perAxis, i) && Channel(st.parts[2].1, c) == 0.0
            && st.parts[0].1.rows[i][j] == Codes(w, q, perAxis)[i][j] as real
  {
  }

  /** The storage chosen for an action has the format the action asks for. */
  lemma StorageInFormat(h: Graph, d: Node, w: Tensor, target: Target, consumer: Op, s: Setting)
    requires target != OtherTarget && Stores(h, d, StorageFor(w, target, consumer, s.opset, s.half))
    ensures InFormat(h, d, w, target, consumer, s)
  {
    var st := StorageFor(w, target, consumer, s.opset, s.half);
    if target == FP16 || !s.opset.int8 {
      assert d.inputs[0] in h.inits && h.inits[d.inputs[0]] == st.parts[0].1;
    } else {
      var q := if target == INT8 then 127 else 7;
      IntCodes(w, q, consumer.Conv? && w.rank == 4 && s.opset.perAxis && |w.rows| > 1);
      assert forall k :: 0 <= k < 3 ==> d.inputs[k] in h.inits && h.inits[d.inputs[k]] == st.parts[k].1;
    }
  }

  // ── the storages of a whole pass ─────────────────────────────────────────

  type Stock = map<string, Storage>

  function StockInput(s: Setting, g: Graph, stock: Stock, consumer: Op, target: Target, x: string): Stock {
    if x in stock || x !in g.inits || !Eligible(g.inits[x], target) then stock
    else stock[x := StorageFor(g.inits[x], target, consumer, s.opset, s.half)]
  }

  function StockInputs(s: Setting, g: Graph, stock: Stock, consumer: Op, target: Target, xs: seq<string>, n: nat): Stock
    requires n <= |xs|
  {
    if n == 0 then stock
    else StockInput(s, g, StockInputs(s, g, stock, consumer, target, xs, n - 1), consumer, target, xs[n - 1])
  }

  function StockAction(s: Setting, g: Graph, stock: Stock, a: Action): Stock {
    var node := FindNode(g.nodes, a.operatorName);
    if a.target == OtherTarget || node.None? then stock
    else StockInputs(s, g, stock, node.value.op, a.target, node.value.inputs, |node.value.inputs|)
  }

  /** The storage each initializer gets from the first action that asks for it. */
  function Stocks(s: Setting, g: Graph, actions: seq<Action>, n: nat): Stock
    requires n <= |actions|
  {
    if n == 0 then map[] else StockAction(s, g, Stocks(s, g, actions, n - 1), actions[n - 1])
  }

  lemma {:induction false} InputsStocked(s: Setting, g: Graph, stock: Stock, consumer: Op, target: Target,
                                         xs: seq<string>, n: nat, x: string)
    requires n <= |xs|
    ensures var after := StockInputs(s, g, stock, consumer, target, xs, n);
            if x in stock then x in after && after[x] == stock[x]
            else if x in xs[..n] && x in g.inits && Eligible(g.inits[x], target)
            then x in after && after[x] == StorageFor(g.inits[x], target, consumer, s.opset, s.half)
            else x !in after
  {
    if n > 0 {
      InputsStocked(s, g, stock, consumer, target, xs, n - 1, x);
      assert xs[..n] == xs[..n - 1] + [xs[n - 1]];
    }
  }

  /** The literal condition is the one the pass tests. */
  lemma AsksIsEligible(g: Graph, a: Action, x: string)
    ensures Asks(g, a, x) <==>
            var node := FindNode(g.nodes, a.operatorName);
            a.target != OtherTarget && node.Some? && x in node.value.inputs && x in g.inits
            && Eligible(g.inits[x], a.target)
  {
  }

  lemma ActionStocked(s: Setting, g: Graph, stock: Stock, a: Action, x: string)
    ensures var after := StockAction(s, g, stock, a);
            if x in stock then x in after && after[x] == stock[x]
            else if Asks(g, a, x)
            then x in after && after[x] == StorageFor(g.inits[x], a.target, FindNode(g.nodes, a.operatorName).value.op,
                                                      s.opset, s.half)
            else x !in after
  {
    AsksIsEligible(g, a, x);
    var node := FindNode(g.nodes, a.operatorName);
    if a.target != OtherTarget && node.Some? {
      var xs := node.value.inputs;
      InputsStocked(s, g, stock, node.value.op, a.target, xs, |xs|, x);
      assert xs[..|xs|] == xs;
    }
  }

  /** An initializer is stored if and only if some action asks for it, and then as
      the first of them asks. */
  lemma {:induction false} StockedIff(s: Setting, g: Graph, actions: seq<Action>, n: nat, x: string)
    requires n <= |actions|
    ensures x in Stocks(s, g, actions, n) <==> exists a :: 0 <= a < n && Asks(g, actions[a], x)
    ensures forall a: nat :: a < n && FirstAsks(g, actions, a, x) ==>
              x in Stocks(s, g, actions, n) && Stocks(s, g, actions, n)[x] == StorageFor(g.inits[x], actions[a].target,
                FindNode(g.nodes, actions[a].operatorName).value.op, s.opset, s.half)
  {
    if n > 0 {
      StockedIff(s, g, actions, n - 1, x);
      ActionStocked(s, g, Stocks(s, g, actions, n - 1), actions[n - 1], x);
      if a: nat :| a < n && FirstAsks(g, actions, a, x) {
        if a == n - 1 { assert x !in Stocks(s, g, actions, n - 1); }
      }
    }
  }

  // ── and the graph holds them ─────────────────────────────────────────────

  /** Every restoring node reads the storage of the tensor it restores. */
  ghost predicate Stocked(h: Graph, front: seq<Node>, stock: Stock) {
    forall d :: d in front ==> |d.outputs| == 1 && d.outputs[0] in stock && Stores(h, d, stock[d.outputs[0]])
  }

  lemma NewStores(h: Graph, n: string, st: Storage)
    requires n in h.inits && KnownStorage(st)
    ensures Stores(Store(h, n, st), RestoringNode(h, n, st), st)
  {
    PartNamesDistinct(h, n, st);
    AddPartsExact(h.inits - {n}, PartNames(h, n, st), st.parts);
    forall k | 0 <= k < |st.parts|
      ensures PartNames(h, n, st)[k] in Store(h, n, st).inits
              && Store(h, n, st).inits[PartNames(h, n, st)[k]] == st.parts[k].1
    {
      assert PartNames(h, n, st)[k] in SetOf(PartNames(h, n, st));
    }
  }

  lemma OldStores(h: Graph, n: string, st: Storage, d: Node, earlier: Storage)
    requires n in h.inits && KnownStorage(st) && Stores(h, d, earlier) && n !in d.inputs
    ensures Stores(Store(h, n, st), d, earlier)
  {
    PartNamesDistinct(h, n, st);
    AddPartsExact(h.inits - {n}, PartNames(h, n, st), st.parts);
    forall k | 0 <= k < |earlier.parts|
      ensures d.inputs[k] in Store(h, n, st).inits && Store(h, n, st).inits[d.inputs[k]] == earlier.parts[k].1
    {
      assert d.inputs[k] in d.inputs && d.inputs[k] in Existing(h);
    }
  }

  lemma StoreStocks(g: Graph, p: Pass, plan: Env, made: set<string>, front: seq<Node>, n: string, st: Storage,
                    stock: Stock)
    requires Shape(g, p, plan, made, front) && n in g.inits && n !in plan && KnownStorage(st)
    requires Stocked(p.graph, front, stock) && n !in stock
    ensures Stocked(Store(p.graph, n, st), [RestoringNode(p.graph, n, st)] + front, stock[n := st])
  {
    NewStores(p.graph, n, st);
    assert n in Names(g);
    forall d | d in front
      ensures |d.outputs| == 1 && d.outputs[0] in stock && d.outputs[0] != n
              && Stores(Store(p.graph, n, st), d, stock[d.outputs[0]])
    {
      assert n !in d.inputs by {
        forall j | 0 <= j < |d.inputs| ensures d.inputs[j] != n { assert d.inputs[j] in made; }
      }
      OldStores(p.graph, n, st, d, stock[d.outputs[0]]);
    }
  }

  /** The input is converted when its turn comes. */
  ghost predicate Converts(g: Graph, plan: Env, target: Target, x: string) {
    x !in plan && x in g.inits && Eligible(g.inits[x], target)
  }

  /** The nodes in front of the original ones after one input. */
  ghost function FrontAfter(s: Setting, g: Graph, p: Pass, plan: Env, front: seq<Node>, consumer: Op, target: Target,
                            x: string): seq<Node>
  {
    if Converts(g, plan, target, x)
    then [RestoringNode(p.graph, x, StorageFor(g.inits[x], target, consumer, s.opset, s.half))] + front
    else front
  }

  lemma InputTracksAt(s: Setting, g: Graph, p: Pass, plan: Env, made: set<string>, front: seq<Node>, consumer: Op,
                      target: Target, x: string) returns (made': set<string>)
    requires Tracks(g, p, plan, made, front) && x in Names(g) && FreshInput(s, g, p, consumer, target, x)
    ensures Tracks(g, ConvertInput(s, p, consumer, target, x), PlanInput(s, g, plan, consumer, target, x), made',
                   FrontAfter(s, g, p, plan, front, consumer, target, x))
  {
    made' := made;
    if Converts(g, plan, target, x) {
      var st := StorageFor(g.inits[x], target, consumer, s.opset, s.half);
      made' := made + SetOf(PartNames(p.graph, x, st));
      StoreTracks(g, p, plan, made, front, x, st);
    }
  }

  lemma InputStocksAt(s: Setting, g: Graph, p: Pass, plan: Env, made: set<string>, front: seq<Node>, stock: Stock,
                      consumer: Op, target: Target, x: string)
    requires Shape(g, p, plan, made, front) && x in Names(g)
    requires Stocked(p.graph, front, stock) && stock.Keys == plan.Keys
    ensures Stocked(ConvertInput(s, p, consumer, target, x).graph,
                    FrontAfter(s, g, p, plan, front, consumer, target, x),
                    StockInput(s, g, stock, consumer, target, x))
  {
    ShapeAt(g, p, plan, made, front, x);
    ConvertsIs(s, g, p, plan, stock, consumer, target, x);
    if Converts(g, plan, target, x) {
      var st := StorageFor(g.inits[x], target, consumer, s.opset, s.half);
      StoreStocks(g, p, plan, made, front, x, st, stock);
    }
  }

  /** The pass, the plan and the storages take the same turn. */
  lemma ConvertsIs(s: Setting, g: Graph, p: Pass, plan: Env, stock: Stock, consumer: Op, target: Target, x: string)
    requires stock.Keys == plan.Keys && (x in p.converted <==> x in plan)
    requires x in p.graph.inits <==> x in g.inits && x !in plan
    requires x in p.graph.inits ==> p.graph.inits[x] == g.inits[x]
    ensures StockInput(s, g, stock, consumer, target, x).Keys == PlanInput(s, g, plan, consumer, target, x).Keys
    ensures if Converts(g, plan, target, x) then
              var st := StorageFor(g.inits[x], target, consumer, s.opset, s.half);
              ConvertInput(s, p, consumer, target, x).graph == Store(p.graph, x, st)
              && StockInput(s, g, stock, consumer, target, x) == stock[x := st]
            else
              ConvertInput(s, p, consumer, target, x) == p && StockInput(s, g, stock, consumer, target, x) == stock
  {
  }

  lemma InputStocks(s: Setting, g: Graph, p: Pass, plan: Env, made: set<string>, front: seq<Node>, stock: Stock,
                    consumer: Op, target: Target, x: string) returns (made': set<string>, front': seq<Node>)
    requires Tracks(g, p, plan, made, front) && x in Names(g) && FreshInput(s, g, p, consumer, target, x)
    requires Stocked(p.graph, front, stock) && stock.Keys == plan.Keys
    ensures Tracks(g, ConvertInput(s, p, consumer, target, x), PlanInput(s, g, plan, consumer, target, x), made',
                   front')
    ensures Stocked(ConvertInput(s, p, consumer, target, x).graph, front',
                    StockInput(s, g, stock, consumer, target, x))
    ensures StockInput(s, g, stock, consumer, target, x).Keys == PlanInput(s, g, plan, consumer, target, x).Keys
  {
    front' := FrontAfter(s, g, p, plan, front, consumer, target, x);
    made' := InputTracksAt(s, g, p, plan, made, front, consumer, target, x);
    InputStocksAt(s, g, p, plan, made, front, stock, consumer, target, x);
    ShapeAt(g, p, plan, made, front, x);
    ConvertsIs(s, g, p, plan, stock, consumer, target, x);
  }

  /** An original tensor is an initializer of the rewritten graph, as it was, while
      it is not converted. */
  lemma ShapeAt(g: Graph, p: Pass, plan: Env, made: set<string>, front: seq<Node>, x: string)
    requires Shape(g, p, plan, made, front) && x in Names(g)
    ensures (x in p.converted <==> x in plan) && (x in p.graph.inits <==> x in g.inits && x !in plan)
    ensures x in p.graph.inits ==> p.graph.inits[x] == g.inits[x]
  {
  }

  lemma {:induction false} InputsStock(s: Setting, g: Graph, p: Pass, plan: Env, made: set<string>, front: seq<Node>,
                                       stock: Stock, consumer: Op, target: Target, xs: seq<string>, n: nat)
    returns (made': set<string>, front': seq<Node>)
    requires Tracks(g, p, plan, made, front) && n <= |xs| && (forall x :: x in xs ==> x in Names(g))
    requires FreshInputs(s, g, p, consumer, target, xs, n)
    requires Stocked(p.graph, front, stock) && stock.Keys == plan.Keys
    ensures Tracks(g, ConvertInputs(s, p, consumer, target, xs, n), PlanInputs(s, g, plan, consumer, target, xs, n),
                   made', front')
    ensures Stocked(ConvertInputs(s, p, consumer, target, xs, n).graph, front',
                    StockInputs(s, g, stock, consumer, target, xs, n))
    ensures StockInputs(s, g, stock, consumer, target, xs, n).Keys
         == PlanInputs(s, g, plan, consumer, target, xs, n).Keys
  {
    made', front' := made, front;
    if n > 0 {
      var m, f := InputsStock(s, g, p, plan, made, front, stock, consumer, target, xs, n - 1);
      made', front' := InputStocks(s, g, ConvertInputs(s, p, consumer, target, xs, n - 1),
                                   PlanInputs(s, g, plan, consumer, target, xs, n - 1), m, f,
                                   StockInputs(s, g, stock, consumer, target, xs, n - 1), consumer, target, xs[n - 1]);
    }
  }

  lemma ActionStocks(s: Setting, g: Graph, p: Pass, plan: Env, made: set<string>, front: seq<Node>, stock: Stock,
                     a: Action) returns (made': set<string>, front': seq<Node>)
    requires Tracks(g, p, plan, made, front) && FreshAction(s, g, p, a)
    requires Stocked(p.graph, front, stock) && stock.Keys == plan.Keys
    ensures Tracks(g, Quantize(s, p, a), PlanAction(s, g, plan, a), made', front')
    ensures Stocked(Quantize(s, p, a).graph, front', StockAction(s, g, stock, a))
    ensures StockAction(s, g, stock, a).Keys == PlanAction(s, g, plan, a).Keys
  {
    made', front' := made, front;
    if FindNode(g.nodes, a.operatorName).Some? {
      FoundIsNode(g.nodes, a.operatorName);
      FindPastFront(front, g.nodes, a.operatorName);
      if a.target != OtherTarget {
        InputsNamed(g, a.operatorName);
        var node := FindNode(g.nodes, a.operatorName).value;
        made', front' := InputsStock(s, g, p, plan, made, front, stock, node.op, a.target, node.inputs, |node.inputs|);
      }
    }
  }

  lemma {:induction false} PassStocks(s: Setting, g: Graph, actions: seq<Action>, n: nat)
    returns (made: set<string>, front: seq<Node>)
    requires n <= |actions| && FreshActions(s, g, actions, n)
    ensures Tracks(g, QuantizeAll(s, Pass(g, {}), actions, n), Plan(s, g, actions, n), made, front)
    ensures Stocked(QuantizeAll(s, Pass(g, {}), actions, n).graph, front, Stocks(s, g, actions, n))
    ensures Stocks(s, g, actions, n).Keys == Plan(s, g, actions, n).Keys
  {
    if n == 0 {
      StartTracks(g);
      made, front := {}, [];
    } else {
      var m, f := PassStocks(s, g, actions, n - 1);
      made, front := ActionStocks(s, g, QuantizeAll(s, Pass(g, {}), actions, n - 1), Plan(s, g, actions, n - 1), m, f,
                                  Stocks(s, g, actions, n - 1), actions[n - 1]);
    }
  }

  // ── main results ─────────────────────────────────────────────────────────

  /** The initializers a pass converts are exactly those some action asks for; all
      others are left as they were. */
  lemma ConvertedIff(s: Setting, g: Graph, actions: seq<Action>, x: string)
    requires SingleAssignment(g) && FreshActions(s, g, actions, |actions|) && x in g.inits
    ensures var p := QuantizeAll(s, Pass(g, {}), actions, |actions|);
            && (x in p.converted <==> exists a :: 0 <= a < |actions| && Asks(g, actions[a], x))
            && (x in p.converted <==> x !in p.graph.inits)
            && (x !in p.converted ==> p.graph.inits[x] == g.inits[x])
  {
    var made, front := PassStocks(s, g, actions, |actions|);
    StockedIff(s, g, actions, |actions|, x);
    assert x in Names(g);
  }

  /** The one node that restores a converted initializer does so from the format the
      first action asking for it wants. */
  lemma RestoredInFormat(s: Setting, g: Graph, actions: seq<Action>, a: nat, x: string) returns (i: nat)
    requires SingleAssignment(g) && FreshActions(s, g, actions, |actions|) && FirstAsks(g, actions, a, x)
    ensures var h := QuantizeAll(s, Pass(g, {}), actions, |actions|).graph;
            && OnlyMaker(h.nodes, i, x)
            && InFormat(h, h.nodes[i], g.inits[x], actions[a].target,
                        FindNode(g.nodes, actions[a].operatorName).value.op, s)
  {
    var made, front := PassStocks(s, g, actions, |actions|);
    var p, stock := QuantizeAll(s, Pass(g, {}), actions, |actions|), Stocks(s, g, actions, |actions|);
    StockedIff(s, g, actions, |actions|, x);
    i := ShapeRestores(g, p, Plan(s, g, actions, |actions|), made, front, x);
    MakerInFront(g, p, Plan(s, g, actions, |actions|), made, front, x, i);
    assert Stores(p.graph, p.graph.nodes[i], stock[x]);
    StorageInFormat(p.graph, p.graph.nodes[i], g.inits[x], actions[a].target,
                    FindNode(g.nodes, actions[a].operatorName).value.op, s);
  }

  lemma MakerInFront(g: Graph, p: Pass, plan: Env, made: set<string>, front: seq<Node>, x: string, i: nat)
    requires Shape(g, p, plan, made, front) && x in plan && OnlyMaker(p.graph.nodes, i, x)
    ensures p.graph.nodes[i] in front
  {
    assert x in SetOf(Outputs(front));
    OutputsMembers(front, x);
    var k :| 0 <= k < |front| && x in front[k].outputs;
    assert p.graph.nodes[k] == front[k];
  }
}
