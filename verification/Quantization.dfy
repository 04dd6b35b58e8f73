/** Weight quantization (astra/graph/onnx_transformer.py): reduced-precision
    storage behind an inserted Cast or DequantizeLinear node, and the validator's
    reconstruction of it (astra/core/validation.py). */
module Quantization {
  import opened Options
  import opened Collections
  import opened Decimals
  import opened OnnxGraph
  import opened Reals

  // ── numbers ──────────────────────────────────────────────────────────────

  const SCALE_FLOOR := 0.000000000001

  function MaxReal(a: real, b: real): real { if a < b then b else a }

  function MaxAbs(row: seq<real>): (m: real)
    ensures m >= 0.0
  {
    if row == [] then 0.0 else MaxReal(Abs(row[0]), MaxAbs(row[1..]))
  }

  lemma {:induction false} MaxAbsBounds(row: seq<real>, j: nat)
    requires j < |row|
    ensures Abs(row[j]) <= MaxAbs(row)
  {
    if j > 0 { MaxAbsBounds(row[1..], j - 1); }
  }

  function MaxAbsAll(rows: seq<seq<real>>): (m: real)
    ensures m >= 0.0
  {
    if rows == [] then 0.0 else MaxReal(MaxAbs(rows[0]), MaxAbsAll(rows[1..]))
  }

  lemma {:induction false} MaxAbsAllBounds(rows: seq<seq<real>>, i: nat, j: nat)
    requires i < |rows| && j < |rows[i]|
    ensures Abs(rows[i][j]) <= MaxAbsAll(rows)
  {
    if i > 0 { MaxAbsAllBounds(rows[1..], i - 1, j); } else { MaxAbsBounds(rows[0], j); }
  }

  /** `np.round`: to nearest, ties to even. */
  function RoundHalfEven(x: real): int {
    var f := x.Floor;
    var d := x - f as real;
    if d < 0.5 then f else if d > 0.5 then f + 1 else if f % 2 == 0 then f else f + 1
  }

  function Clip(n: int, q: int): int { if n < -q then -q else if n > q then q else n }

  function Scale(m: real, q: int): real
    requires q > 0
  {
    m / q as real + SCALE_FLOOR
  }

  lemma ScaleCovers(m: real, q: int, x: real)
    requires q > 0 && m >= 0.0 && Abs(x) <= m
    ensures Scale(m, q) > 0.0 && Abs(x) < Scale(m, q) * q as real
  {
    var s := Scale(m, q);
    assert (m / q as real) * q as real == m;
    assert s * q as real == m + SCALE_FLOOR * q as real;
  }

  function Code(x: real, s: real, q: int): int
    requires s > 0.0
  {
    Clip(RoundHalfEven(x / s), q)
  }

  /** The clip never binds, codes stay in range and the error is at most half a
      step. */
  lemma CodeError(m: real, q: int, x: real, s: real, c: int)
    requires q > 0 && m >= 0.0 && Abs(x) <= m && s == Scale(m, q) && s > 0.0 && c == Code(x, s, q)
    ensures c == RoundHalfEven(x / s) && -q <= c <= q && Abs(Dequantized(c as real, 0.0, s) - x) <= s / 2.0
  {
    ScaleCovers(m, q, x);
    var y := x / s;
    assert y * s == x;
    InRange(y, s, q, x);
    HalfStep(c as real, y, s, x, Dequantized(c as real, 0.0, s));
  }

  lemma InRange(y: real, s: real, q: int, x: real)
    requires s > 0.0 && y * s == x && Abs(x) < s * q as real
    ensures -(q as real) < y < q as real
  {
    if y >= q as real { MulMonotone(q as real, y, s); }
    if y <= -(q as real) { MulMonotone(y, -(q as real), s); }
  }

  lemma MulMonotone(a: real, b: real, s: real)
    requires a <= b && s > 0.0
    ensures a * s <= b * s
  {
  }

  lemma HalfStep(r: real, y: real, s: real, x: real, restored: real)
    requires s > 0.0 && -0.5 <= r - y <= 0.5 && x == y * s && restored == r * s
    ensures Abs(restored - x) <= s / 2.0
  {
    Within(r, y, s, restored, x);
    Within(y, r, s, x, restored);
  }

  /** Half a unit above at most, half a step above at most. */
  lemma Within(a: real, b: real, s: real, p: real, q: real)
    requires s > 0.0 && a <= b + 0.5 && p == a * s && q == b * s
    ensures p - q <= s / 2.0
  {
    var up := (b + 0.5) * s;
    assert p <= up by { MulMonotone(a, b + 0.5, s); }
    assert up == q + s / 2.0;
  }

  // ── storage ──────────────────────────────────────────────────────────────

  datatype Target = FP16 | INT8 | INT4 | OtherTarget

  function QMax(t: Target): (q: int)
    ensures q > 0
  { if t == INT8 then 127 else 7 }

  /** The reduced tensors (with the suffix of their names) and the node that
      restores the float tensor from them. */
  datatype Storage = Storage(op: Op, parts: seq<(string, Tensor)>, nodeSuffix: string)

  /** `half` is rounding to the nearest float16. */
  function Fp16Storage(w: Tensor, half: real -> real): Storage {
    Storage(Cast, [("_fp16", Tensor(Float16, w.rank, MapRows(w.rows, half)))], "_fp16_cast")
  }

  function MapRows(rows: seq<seq<real>>, f: real -> real): seq<seq<real>> {
    seq(|rows|, i requires 0 <= i < |rows| => seq(|rows[i]|, j requires 0 <= j < |rows[i]| => f(rows[i][j])))
  }

  /** Scale of slice `i`: its own maximum per channel, the tensor's otherwise. */
  function RowScale(w: Tensor, q: int, perChannel: bool, i: nat): real
    requires q > 0 && i < |w.rows|
  {
    Scale(RowMax(w, perChannel, i), q)
  }

  function Codes(w: Tensor, q: int, perChannel: bool): seq<seq<int>>
    requires q > 0
  {
    seq(|w.rows|, i requires 0 <= i < |w.rows| =>
      seq(|w.rows[i]|, j requires 0 <= j < |w.rows[i]| =>
        ScaleCovers(RowMax(w, perChannel, i), q, 0.0);
        Code(w.rows[i][j], RowScale(w, q, perChannel, i), q)))
  }

  function AsRows(codes: seq<seq<int>>): seq<seq<real>> {
    seq(|codes|, i requires 0 <= i < |codes| => seq(|codes[i]|, j requires 0 <= j < |codes[i]| => codes[i][j] as real))
  }

  function IntStorage(w: Tensor, q: int, perChannel: bool): Storage
    requires q > 0
  {
    var scale := if perChannel
                 then Tensor(Float32, 1, seq(|w.rows|, i requires 0 <= i < |w.rows| => [RowScale(w, q, true, i)]))
                 else Tensor(Float32, 0, [[Scale(MaxAbsAll(w.rows), q)]]);
    var zero := if perChannel then Tensor(Int8, 1, seq(|w.rows|, i => [0.0])) else Tensor(Int8, 0, [[0.0]]);
    Storage(Dequantize(perChannel),
            [("_q", Tensor(Int8, w.rank, AsRows(Codes(w, q, perChannel)))), ("_scale", scale), ("_zp", zero)], "_dq")
  }

  /** What the restoring node exposes. */
  function Restored(st: Storage): Tensor
    requires KnownStorage(st)
  {
    if st.op.Cast? then Tensor(Float32, st.parts[0].1.rank, st.parts[0].1.rows)
    else DequantizeLinear(st.op.perAxis, st.parts[0].1, st.parts[1].1, st.parts[2].1)
  }

  function RowMax(w: Tensor, perChannel: bool, i: nat): (m: real)
    requires i < |w.rows|
    ensures m >= 0.0
  {
    if perChannel then MaxAbs(w.rows[i]) else MaxAbsAll(w.rows)
  }

  lemma CodeIsClose(w: Tensor, q: int, perChannel: bool, i: nat, j: nat, s: real, c: int)
    requires q > 0 && i < |w.rows| && j < |w.rows[i]|
    requires s == RowScale(w, q, perChannel, i) && s > 0.0 && c == Code(w.rows[i][j], s, q)
    ensures c == RoundHalfEven(w.rows[i][j] / s) && -q <= c <= q
            && Abs(Dequantized(c as real, 0.0, s) - w.rows[i][j]) <= s / 2.0
  {
    MaxAbsBounds(w.rows[i], j);
    MaxAbsAllBounds(w.rows, i, j);
    CodeError(RowMax(w, perChannel, i), q, w.rows[i][j], s, c);
  }

  /** Int8 storage restores every weight within half of its scale, from codes in
      `[-q, q]` that the clip never touched, per tensor and per channel. */
  lemma IntStorageError(w: Tensor, q: int, perChannel: bool, i: nat, j: nat, s: real, c: int, x: real)
    requires q > 0 && i < |w.rows| && j < |w.rows[i]|
    requires s == RowScale(w, q, perChannel, i) && c == Codes(w, q, perChannel)[i][j]
    requires |Restored(IntStorage(w, q, perChannel)).rows| == |w.rows|
    requires |Restored(IntStorage(w, q, perChannel)).rows[i]| == |w.rows[i]|
    requires x == Restored(IntStorage(w, q, perChannel)).rows[i][j]
    ensures s > 0.0 && Abs(x - w.rows[i][j]) <= s / 2.0
    ensures -q <= c <= q && c == RoundHalfEven(w.rows[i][j] / s)
  {
    CodeIsClose(w, q, perChannel, i, j, s, c);
  }

  // ── which tensors are converted, and how ─────────────────────────────────

  const MIN_QUANT_BYTES := 1024

  /** Operator-set facts: DequantizeLinear exists (opset 10), per axis (13). */
  datatype Opset = Opset(int8: bool, perAxis: bool)

  predicate Eligible(t: Tensor, target: Target) {
    && t.dtype.Float32? && 4 * Size(t) >= MIN_QUANT_BYTES
    && ((target == INT8 || target == INT4) ==> t.rank >= 2)
  }

  function StorageFor(t: Tensor, target: Target, consumer: Op, o: Opset, half: real -> real): (st: Storage)
    ensures KnownStorage(st)
  {
    if target == FP16 || !o.int8 then Fp16Storage(t, half)
    else IntStorage(t, QMax(target), consumer.Conv? && t.rank == 4 && o.perAxis && |t.rows| > 1)
  }

  // ── fresh names ──────────────────────────────────────────────────────────

  ghost function Tried(candidate: string, k: nat): set<string> {
    set j | 2 <= j < k :: candidate + "_" + Decimal(j)
  }

  lemma TriedGrows(candidate: string, k: nat)
    requires k >= 2
    ensures candidate + "_" + Decimal(k) !in Tried(candidate, k)
    ensures Tried(candidate, k + 1) == Tried(candidate, k) + {candidate + "_" + Decimal(k)}
  {
    var x := candidate + "_" + Decimal(k);
    if x in Tried(candidate, k) {
      var j :| 2 <= j < k && candidate + "_" + Decimal(j) == x;
      assert x[|candidate| + 1..] == Decimal(k) && (candidate + "_" + Decimal(j))[|candidate| + 1..] == Decimal(j);
      DecimalInjective(j, k);
    }
  }

  /** `_unique_name` from suffix `k` on. */
  function UniqueFrom(existing: set<string>, candidate: string, k: nat): (name: string)
    requires k >= 2
    ensures name !in existing && candidate <= name
    decreases existing - Tried(candidate, k)
  {
    var name := candidate + "_" + Decimal(k);
    if name in existing then
      TriedGrows(candidate, k);
      UniqueFrom(existing, candidate, k + 1)
    else name
  }

  function UniqueName(existing: set<string>, candidate: string): (name: string)
    ensures name !in existing && candidate <= name
    ensures candidate !in existing ==> name == candidate
  {
    if candidate in existing then UniqueFrom(existing, candidate, 2) else candidate
  }

  /** The name is the candidate if nobody has it, and otherwise its first numbered
      variant, from 2 on, that nobody has. */
  ghost predicate FirstFree(existing: set<string>, candidate: string, name: string) {
    if candidate !in existing then name == candidate
    else exists k: nat :: k >= 2 && FirstVariant(existing, candidate, k, name)
  }

  ghost predicate FirstVariant(existing: set<string>, candidate: string, k: nat, name: string) {
    && name == candidate + "_" + Decimal(k) && name !in existing
    && forall j: nat :: 2 <= j < k ==> candidate + "_" + Decimal(j) in existing
  }

  lemma {:induction false} UniqueFromIsFirst(existing: set<string>, candidate: string, k: nat) returns (n: nat)
    requires k >= 2 && forall j: nat :: 2 <= j < k ==> candidate + "_" + Decimal(j) in existing
    ensures n >= 2 && FirstVariant(existing, candidate, n, UniqueFrom(existing, candidate, k))
    decreases existing - Tried(candidate, k)
  {
    var name := candidate + "_" + Decimal(k);
    if name in existing {
      TriedGrows(candidate, k);
      n := UniqueFromIsFirst(existing, candidate, k + 1);
    } else {
      n := k;
    }
  }

  lemma UniqueNameIsFirst(existing: set<string>, candidate: string)
    ensures FirstFree(existing, candidate, UniqueName(existing, candidate))
  {
    if candidate in existing { var n := UniqueFromIsFirst(existing, candidate, 2); }
  }

  function NodeNames(nodes: seq<Node>): set<string> { set n | n in nodes :: n.name }

  function Existing(g: Graph): set<string> { g.inits.Keys + NodeNames(g.nodes) }

  // ── rewriting one initializer ────────────────────────────────────────────

  function PartNames(g: Graph, n: string, st: Storage): seq<string> {
    seq(|st.parts|, i requires 0 <= i < |st.parts| => UniqueName(Existing(g), n + st.parts[i].0))
  }

  function AddParts(inits: map<string, Tensor>, names: seq<string>, parts: seq<(string, Tensor)>): map<string, Tensor>
    requires |names| == |parts|
    decreases |names|
  {
    if names == [] then inits
    else AddParts(inits[names[0] := parts[0].1], names[1..], parts[1..])
  }

  function RestoringNode(g: Graph, n: string, st: Storage): Node {
    Node(UniqueName(Existing(g), n + st.nodeSuffix), st.op, PartNames(g, n, st), [n])
  }

  /** Replace initializer `n` by its storage and put the restoring node first. */
  function Store(g: Graph, n: string, st: Storage): Graph {
    Graph(AddParts(g.inits - {n}, PartNames(g, n, st), st.parts),
          g.inputs - {n}, [RestoringNode(g, n, st)] + g.nodes, g.outputs)
  }

  lemma {:induction false} AddPartsExact(inits: map<string, Tensor>, names: seq<string>, parts: seq<(string, Tensor)>)
    requires |names| == |parts| && forall i, j :: 0 <= i < j < |names| ==> names[i] != names[j]
    ensures AddParts(inits, names, parts).Keys == inits.Keys + SetOf(names)
    ensures forall x :: x in inits && x !in names ==> AddParts(inits, names, parts)[x] == inits[x]
    ensures forall i :: 0 <= i < |names| ==> AddParts(inits, names, parts)[names[i]] == parts[i].1
    decreases |names|
  {
    if names != [] {
      AddPartsExact(inits[names[0] := parts[0].1], names[1..], parts[1..]);
      assert names[0] !in names[1..];
      forall i | 0 <= i < |names| ensures AddParts(inits, names, parts)[names[i]] == parts[i].1 {
        if i > 0 { assert names[i] == names[1..][i - 1] && parts[i] == parts[1..][i - 1]; }
      }
    }
  }

  /** `after` is `before` with `n` behind a node that restores it: the node comes
      first under a name nobody has, its inputs are new initializers that hold the
      parts, and everything else is as it was. */
  ghost predicate StoredBehind(before: Graph, after: Graph, n: string, st: Storage) {
    && after.outputs == before.outputs && after.inputs == before.inputs - {n}
    && |after.nodes| == |before.nodes| + 1 && after.nodes[1..] == before.nodes
    && var d := after.nodes[0];
    && d.op == st.op && d.outputs == [n] && |d.inputs| == |st.parts|
    && n + st.nodeSuffix <= d.name && d.name !in before.inits && (forall m :: m in before.nodes ==> m.name != d.name)
    && n !in after.inits
    && (forall x :: x in after.inits <==> (x in before.inits && x != n) || x in d.inputs)
    && (forall x :: x in before.inits && x != n ==> x in after.inits && after.inits[x] == before.inits[x])
    && forall k :: 0 <= k < |st.parts| ==>
         d.inputs[k] in after.inits && d.inputs[k] !in before.inits && after.inits[d.inputs[k]] == st.parts[k].1
  }

  lemma StoreExact(g: Graph, n: string, st: Storage)
    requires n in g.inits && KnownStorage(st)
    ensures StoredBehind(g, Store(g, n, st), n, st)
  {
    var names := PartNames(g, n, st);
    PartNamesDistinct(g, n, st);
    AddPartsExact(g.inits - {n}, names, st.parts);
    assert n in Existing(g);
    forall k | 0 <= k < |names| ensures names[k] !in g.inits && names[k] != n { assert names[k] !in Existing(g); }
    assert forall x :: x in SetOf(names) <==> x in names;
    assert RestoringNode(g, n, st).name !in Existing(g);
  }

  predicate KnownStorage(st: Storage) {
    || (st.op.Cast? && |st.parts| == 1 && st.parts[0].0 == "_fp16")
    || (st.op.Dequantize? && |st.parts| == 3 && st.parts[0].0 == "_q" && st.parts[1].0 == "_scale"
        && st.parts[2].0 == "_zp")
  }

  /** Generated names of one tensor differ in the character after its name. */
  lemma PartNamesDistinct(g: Graph, n: string, st: Storage)
    requires KnownStorage(st)
    ensures forall i, j :: 0 <= i < j < |PartNames(g, n, st)| ==> PartNames(g, n, st)[i] != PartNames(g, n, st)[j]
    ensures forall i :: 0 <= i < |PartNames(g, n, st)| ==> PartNames(g, n, st)[i] !in Existing(g)
  {
    var names := PartNames(g, n, st);
    forall i, j | 0 <= i < j < |names| ensures names[i] != names[j] {
      assert n + st.parts[i].0 <= names[i] && n + st.parts[j].0 <= names[j];
      assert names[i][|n| + 1] == st.parts[i].0[1] && names[j][|n| + 1] == st.parts[j].0[1];
    }
  }

  /** `_unique_name` looks at initializers and node names only, not at the tensors
      nodes make.  The names it chose clash with none of those. */
  ghost predicate PartsUnmade(g: Graph, n: string, st: Storage) {
    forall p :: p in PartNames(g, n, st) ==> p !in Outputs(g.nodes)
  }

  lemma StoredGraph(g: Graph, n: string, st: Storage)
    requires n in g.inits && KnownStorage(st)
    ensures Store(g, n, st).inits.Keys == g.inits.Keys - {n} + SetOf(PartNames(g, n, st))
    ensures Outputs(Store(g, n, st).nodes) == [n] + Outputs(g.nodes)
    ensures forall p :: p in PartNames(g, n, st) ==> p !in g.inits
  {
    PartNamesDistinct(g, n, st);
    AddPartsExact(g.inits - {n}, PartNames(g, n, st), st.parts);
    assert Store(g, n, st).nodes[0].outputs == [n] && Store(g, n, st).nodes[1..] == g.nodes;
  }

  /** The rewritten graph defines every tensor once exactly when no node makes a
      tensor of a name that was chosen. */
  lemma StoreSingleAssignmentIff(g: Graph, n: string, st: Storage)
    requires SingleAssignment(g) && n in g.inits && KnownStorage(st)
    ensures SingleAssignment(Store(g, n, st)) <==> PartsUnmade(g, n, st)
  {
    StoredGraph(g, n, st);
    assert n !in Outputs(g.nodes);
    if p :| p in PartNames(g, n, st) && p in Outputs(g.nodes) {
      assert p in SetOf(PartNames(g, n, st)) && p in Outputs(Store(g, n, st).nodes);
    }
  }

  /** A graph that defines a tensor twice never recovers. */
  lemma BrokenStays(g: Graph, n: string, st: Storage)
    requires !SingleAssignment(g) && n in g.inits && KnownStorage(st)
    ensures !SingleAssignment(Store(g, n, st))
  {
    StoredGraph(g, n, st);
    var made, made' := Outputs(g.nodes), [n] + Outputs(g.nodes);
    if !NoRepeats(made) {
      var i, j :| 0 <= i < j < |made| && made[i] == made[j];
      assert made'[i + 1] == made'[j + 1];
    } else {
      var x :| x in made && (x in g.inits || x in g.inputs);
      if x == n {
        var i :| 0 <= i < |made| && made[i] == n;
        assert made'[0] == made'[i + 1];
      } else {
        assert x in made';
      }
    }
  }

  /** What a caller still feeds: the inputs whose names were not chosen, so all of
      them exactly when none was. */
  lemma StoreFreeInputsIff(g: Graph, n: string, st: Storage)
    requires n in g.inits && KnownStorage(st)
    ensures FreeInputs(Store(g, n, st)) == FreeInputs(g) - SetOf(PartNames(g, n, st))
    ensures FreeInputs(Store(g, n, st)) == FreeInputs(g) <==> SetOf(PartNames(g, n, st)) !! FreeInputs(g)
  {
    StoredGraph(g, n, st);
  }

  /** An input whose name was chosen reads as the stored part, whatever is fed. */
  lemma ClashHidesInput(k: Kernels, g: Graph, n: string, st: Storage, i: nat, feed: Env)
    requires SingleAssignment(g) && n in g.inits && KnownStorage(st) && i < |st.parts|
    requires PartNames(g, n, st)[i] in FreeInputs(g)
    ensures Lookup(Evaluate(k, Store(g, n, st), feed), PartNames(g, n, st)[i]) == Some(st.parts[i].1)
  {
    var g', p := Store(g, n, st), PartNames(g, n, st)[i];
    StoredGraph(g, n, st);
    PartNamesDistinct(g, n, st);
    AddPartsExact(g.inits - {n}, PartNames(g, n, st), st.parts);
    assert p in SetOf(PartNames(g, n, st));
    assert p !in Outputs(g'.nodes);
    forall a, b | 0 <= a < |g'.nodes| && 0 <= b < |g'.nodes[a].outputs| ensures g'.nodes[a].outputs[b] !in {p} {
      OutputsMembers(g'.nodes, g'.nodes[a].outputs[b]);
      assert g'.nodes[a].outputs[b] in g'.nodes[a].outputs;
    }
    RunKeeps(k, feed + g'.inits, g'.nodes, p);
  }

  // ── meaning of one rewrite ───────────────────────────────────────────────

  ghost predicate Unread(g: Graph, names: set<string>) { ReadsNone(g.nodes, names) }

  lemma RestoreReads(k: Kernels, env: Env, names: seq<string>, st: Storage)
    requires KnownStorage(st) && |names| == |st.parts|
    requires forall i :: 0 <= i < |names| ==> Lookup(env, names[i]) == Some(st.parts[i].1)
    ensures Apply(k, st.op, Read(env, names)) == [Restored(st)]
  {
    var ins := Read(env, names);
    assert forall i :: 0 <= i < |ins| ==> ins[i] == Some(st.parts[i].1);
  }

  /** Storing an initializer means exactly replacing it by its restored value:
      on every input, every other tensor evaluates to the same. */
  lemma StoreMeaning(k: Kernels, g: Graph, n: string, st: Storage, feed: Env)
    requires n in g.inits && KnownStorage(st)
    requires Unread(g, SetOf(PartNames(g, n, st))) && feed.Keys <= FreeInputs(g)
    ensures Agree(Evaluate(k, Store(g, n, st), feed),
                  Evaluate(k, g.(inits := g.inits[n := Restored(st)]), feed),
                  SetOf(PartNames(g, n, st)))
  {
    var names := PartNames(g, n, st);
    var g' := Store(g, n, st);
    PartNamesDistinct(g, n, st);
    AddPartsExact(g.inits - {n}, names, st.parts);
    var env := feed + g'.inits;
    var node := RestoringNode(g, n, st);
    forall i | 0 <= i < |names| ensures Lookup(env, names[i]) == Some(st.parts[i].1) {
      assert names[i] in SetOf(names);
    }
    RestoreReads(k, env, names, st);
    var env1 := Exec(k, env, node);
    BindOne(env, n, Restored(st));
    assert env1 == env[n := Restored(st)];
    var ref := feed + g.inits[n := Restored(st)];
    forall x | x !in SetOf(names) ensures Lookup(env1, x) == Lookup(ref, x) {
      if x != n {
        assert x in g'.inits <==> x in g.inits;
      }
    }
    RunAgree(k, env1, ref, g.nodes, SetOf(names));
    assert g'.nodes[0] == node && g'.nodes[1..] == g.nodes;
  }
}
