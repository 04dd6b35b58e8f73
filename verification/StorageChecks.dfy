/** Two looks at the stored form: the validator rebuilding weights from it
    (astra/core/validation.py, `_reconstruct_quantized_weight`), and what a clash
    of generated names does to the graph. */
module StorageChecks {
  import opened Options
  import opened OnnxGraph
  import opened Quantization

  // ── the validator's reconstruction ───────────────────────────────────────

  function Shifted(q: Tensor, zero: Option<Tensor>): seq<seq<real>> {
    if zero.Some? && Size(zero.value) == 1 then Entrywise(q.rows, (i, x) => x - Channel(zero.value, 0))
    else if zero.Some? && zero.value.rank == 1 && |q.rows| == Size(zero.value) then
      Entrywise(q.rows, (i, x) => x - Channel(zero.value, i))
    else q.rows
  }

  function Entrywise(rows: seq<seq<real>>, f: (int, real) -> real): seq<seq<real>> {
    seq(|rows|, i requires 0 <= i < |rows| => seq(|rows[i]|, j requires 0 <= j < |rows[i]| => f(i, rows[i][j])))
  }

  function Reconstruct(stored: map<string, Tensor>, name: string): Option<seq<seq<real>>> {
    if name + "_fp16" in stored then Some(stored[name + "_fp16"].rows)
    else if name + "_q" !in stored || name + "_scale" !in stored then None
    else
      var rows := Shifted(stored[name + "_q"], Lookup(stored, name + "_zp"));
      var scale := stored[name + "_scale"];
      if Size(scale) == 1 then Some(Entrywise(rows, (i, x) => x * Channel(scale, 0)))
      else if scale.rank == 1 && |rows| == Size(scale) then Some(Entrywise(rows, (i, x) => x * Channel(scale, i)))
      else None
  }

  lemma {:induction false} TotalOfSingletons(rows: seq<seq<real>>)
    requires forall i :: 0 <= i < |rows| ==> |rows[i]| == 1
    ensures Total(rows) == |rows|
  {
    if rows != [] { TotalOfSingletons(rows[1..]); }
  }

  lemma IntRows(w: Tensor, q: int, perChannel: bool, q0: Tensor, scale: Tensor, zero: Tensor, rows: seq<seq<real>>)
    requires q > 0 && (perChannel ==> |w.rows| > 1)
    requires var st := IntStorage(w, q, perChannel);
             q0 == st.parts[0].1 && scale == st.parts[1].1 && zero == st.parts[2].1
    requires rows == Shifted(q0, Some(zero))
    ensures if perChannel then Size(scale) == |w.rows| && scale.rank == 1 else Size(scale) == 1
    ensures |rows| == |w.rows| && forall i :: 0 <= i < |rows| ==> |rows[i]| == |q0.rows[i]|
    ensures forall i, j :: 0 <= i < |rows| && 0 <= j < |rows[i]| ==>
              rows[i][j] == q0.rows[i][j] - Channel(zero, if perChannel then i else 0)
  {
    TotalOfSingletons(scale.rows);
    TotalOfSingletons(zero.rows);
  }

  /** As long as the storage carries its plain names, the validator rebuilds
      exactly what the inserted node exposes, for every format. */
  lemma ReconstructionIsExact(stored: map<string, Tensor>, name: string, w: Tensor, target: Target, consumer: Op,
                              o: Opset, half: real -> real, st: Storage)
    requires st == StorageFor(w, target, consumer, o, half)
    requires forall i :: 0 <= i < |st.parts| ==> Lookup(stored, name + st.parts[i].0) == Some(st.parts[i].1)
    requires st.op.Dequantize? ==> name + "_fp16" !in stored
    ensures Reconstruct(stored, name) == Some(Restored(st).rows)
  {
    if st.op.Cast? {
      assert Lookup(stored, name + st.parts[0].0) == Some(st.parts[0].1);
    } else {
      var perChannel := st.op.perAxis;
      var q0, scale, zero := st.parts[0].1, st.parts[1].1, st.parts[2].1;
      assert Lookup(stored, name + st.parts[0].0) == Some(q0);
      assert Lookup(stored, name + st.parts[1].0) == Some(scale);
      assert Lookup(stored, name + st.parts[2].0) == Some(zero);
      var rows := Shifted(q0, Some(zero));
      IntRows(w, QMax(target), perChannel, q0, scale, zero, rows);
      SameRows(Reconstruct(stored, name).value, Restored(st).rows, rows, perChannel, q0, scale, zero);
    }
  }

  lemma SameRows(a: seq<seq<real>>, b: seq<seq<real>>, rows: seq<seq<real>>, perChannel: bool, q0: Tensor,
                 scale: Tensor, zero: Tensor)
    requires |rows| == |q0.rows| && forall i :: 0 <= i < |rows| ==> |rows[i]| == |q0.rows[i]|
    requires forall i, j :: 0 <= i < |rows| && 0 <= j < |rows[i]| ==>
               rows[i][j] == q0.rows[i][j] - Channel(zero, if perChannel then i else 0)
    requires a == if perChannel then Entrywise(rows, (i, x) => x * Channel(scale, i))
             else Entrywise(rows, (i, x) => x * Channel(scale, 0))
    requires b == DequantizeLinear(perChannel, q0, scale, zero).rows
    ensures a == b
  {
    forall i | 0 <= i < |rows| ensures a[i] == b[i] {
      forall j | 0 <= j < |rows[i]| ensures a[i][j] == b[i][j] {
        var c := if perChannel then i else 0;
        assert a[i][j] == rows[i][j] * Channel(scale, c);
        assert b[i][j] == Dequantized(q0.rows[i][j], Channel(zero, c), Channel(scale, c));
      }
    }
  }

  // ── a clash of generated names ───────────────────────────────────────────

  function Ones(): Tensor { Tensor(Float32, 2, [seq(256, i => 1.0)]) }

  /** A valid graph with weights `w` and `w_fp16`. */
  function Clashing(): Graph {
    Graph(map["w" := Ones(), "w_fp16" := Ones()], {"x"},
          [Node("n", Other("MatMul"), ["x", "w_fp16", "w"], ["y"])], {"y"})
  }

  /** Once `w_fp16` is an output of a Cast and no longer an initializer, the name
      looks free to `_unique_name`; storing `w` reuses it and the graph defines it
      twice. */
  lemma TwoStoresCollide(half: real -> real)
    ensures SingleAssignment(Clashing())
    ensures var st := Fp16Storage(Ones(), half);
            !SingleAssignment(Store(Store(Clashing(), "w_fp16", st), "w", st))
  {
    var st := Fp16Storage(Ones(), half);
    var g0 := Clashing();
    assert Outputs(g0.nodes) == ["y"] by { assert g0.nodes[1..] == []; assert ["y"] + [] == ["y"]; }
    assert SingleAssignment(g0);
    var g1 := Store(g0, "w_fp16", st);
    assert NodeNames(g0.nodes) == {"n"} by {
      assert g0.nodes[0].name == "n";
    }
    assert "w_fp16_fp16" == "w_fp16" + "_fp16";
    assert PartNames(g0, "w_fp16", st) == ["w_fp16_fp16"];
    OneStore(g0, "w_fp16", st, "w_fp16_fp16");
    assert "w_fp16" !in g1.inits && "w" in g1.inits;
    var cast := RestoringNode(g0, "w_fp16", st);
    assert "w_fp16" + "_fp16_cast" <= cast.name && "w_fp16" != cast.name;
    assert "w_fp16" !in NodeNames(g1.nodes) by {
      forall m | m in g1.nodes ensures m.name != "w_fp16" {
        if m != cast { assert m in g0.nodes; }
      }
    }
    assert PartNames(g1, "w", st) == ["w_fp16"] by { assert "w" + "_fp16" == "w_fp16"; }
    OneStore(g1, "w", st, "w_fp16");
    var g2 := Store(g1, "w", st);
    assert "w_fp16" in g2.inits;
    assert g2.nodes[1] == cast;
    OutputsMembers(g2.nodes, "w_fp16");
    assert "w_fp16" in g2.nodes[1].outputs;
  }

  /** A graph with weight `w` and an input `w_fp16`. */
  function FedClash(): Graph {
    Graph(map["w" := Ones()], {"w_fp16"}, [Node("n", Other("MatMul"), ["w_fp16", "w"], ["y"])], {"y"})
  }

  /** Storing `w` keeps every tensor defined once, but takes the input's name: the
      caller has nothing left to feed. */
  lemma InputTaken(half: real -> real)
    ensures var st := Fp16Storage(Ones(), half);
            && SingleAssignment(FedClash()) && FreeInputs(FedClash()) == {"w_fp16"}
            && SingleAssignment(Store(FedClash(), "w", st)) && FreeInputs(Store(FedClash(), "w", st)) == {}
  {
    var st, g := Fp16Storage(Ones(), half), FedClash();
    assert Outputs(g.nodes) == ["y"] by { assert g.nodes[1..] == []; assert ["y"] + [] == ["y"]; }
    assert NodeNames(g.nodes) == {"n"} by { assert g.nodes[0].name == "n"; }
    assert "w" + "_fp16" == "w_fp16" && PartNames(g, "w", st) == ["w_fp16"];
    StoreSingleAssignmentIff(g, "w", st);
    StoreFreeInputsIff(g, "w", st);
  }

  lemma OneStore(g: Graph, n: string, st: Storage, name: string)
    requires KnownStorage(st) && st.op.Cast? && PartNames(g, n, st) == [name]
    ensures Store(g, n, st).inits == (g.inits - {n})[name := st.parts[0].1]
  {
    var inits := g.inits - {n};
    assert [name][1..] == [] && st.parts[1..] == [];
    assert AddParts(inits, [name], st.parts) == AddParts(inits[name := st.parts[0].1], [], []);
    assert Store(g, n, st).inits == AddParts(inits, [name], st.parts);
  }
}
