/** A whole quantization pass over a graph (`OnnxTransformer.apply` restricted to
    its quantization actions), against a reference that never touches the graph:
    the plan of which initializer gets which value. */
module QuantizationPass {
  import opened Collections
  import opened Options
  import Decimals
  import opened OnnxGraph
  import opened Quantization

  datatype Action = Action(operatorName: string, target: Target)

  /** Fixed for one pass. */
  datatype Setting = Setting(opset: Opset, half: real -> real)

  function FindNode(nodes: seq<Node>, name: string): Option<Node> {
    if nodes == [] then None
    else if nodes[0].name == name then Some(nodes[0])
    else FindNode(nodes[1..], name)
  }

  // ── the pass ─────────────────────────────────────────────────────────────

  datatype Pass = Pass(graph: Graph, converted: set<string>)

  function ConvertInput(s: Setting, p: Pass, consumer: Op, target: Target, x: string): Pass {
    if x in p.converted || x !in p.graph.inits || !Eligible(p.graph.inits[x], target) then p
    else Pass(Store(p.graph, x, StorageFor(p.graph.inits[x], target, consumer, s.opset, s.half)), p.converted + {x})
  }

  function ConvertInputs(s: Setting, p: Pass, consumer: Op, target: Target, xs: seq<string>, n: nat): Pass
    requires n <= |xs|
  {
    if n == 0 then p else ConvertInput(s, ConvertInputs(s, p, consumer, target, xs, n - 1), consumer, target, xs[n - 1])
  }

  function Quantize(s: Setting, p: Pass, a: Action): Pass {
    var node := FindNode(p.graph.nodes, a.operatorName);
    if a.target == OtherTarget || node.None? then p
    else ConvertInputs(s, p, node.value.op, a.target, node.value.inputs, |node.value.inputs|)
  }

  function QuantizeAll(s: Setting, p: Pass, actions: seq<Action>, n: nat): Pass
    requires n <= |actions|
  {
    if n == 0 then p else Quantize(s, QuantizeAll(s, p, actions, n - 1), actions[n - 1])
  }

  lemma OneMore(s: Setting, p: Pass, consumer: Op, target: Target, xs: seq<string>, n: nat)
    requires n < |xs|
    ensures ConvertInputs(s, p, consumer, target, xs, n + 1)
         == ConvertInput(s, ConvertInputs(s, p, consumer, target, xs, n), consumer, target, xs[n])
  {
  }

  // ── the reference ────────────────────────────────────────────────────────

  /** The value initializer `x` gets from its first eligible consumer. */
  function PlanInput(s: Setting, g: Graph, plan: Env, consumer: Op, target: Target, x: string): Env {
    if x in plan || x !in g.inits || !Eligible(g.inits[x], target) then plan
    else plan[x := Restored(StorageFor(g.inits[x], target, consumer, s.opset, s.half))]
  }

  function PlanInputs(s: Setting, g: Graph, plan: Env, consumer: Op, target: Target, xs: seq<string>, n: nat): Env
    requires n <= |xs|
  {
    if n == 0 then plan
    else PlanInput(s, g, PlanInputs(s, g, plan, consumer, target, xs, n - 1), consumer, target, xs[n - 1])
  }

  function PlanAction(s: Setting, g: Graph, plan: Env, a: Action): Env {
    var node := FindNode(g.nodes, a.operatorName);
    if a.target == OtherTarget || node.None? then plan
    else PlanInputs(s, g, plan, node.value.op, a.target, node.value.inputs, |node.value.inputs|)
  }

  function Plan(s: Setting, g: Graph, actions: seq<Action>, n: nat): Env
    requires n <= |actions|
  {
    if n == 0 then map[] else PlanAction(s, g, Plan(s, g, actions, n - 1), actions[n - 1])
  }

  // ── names ────────────────────────────────────────────────────────────────

  /** All tensor names of the graph. */
  ghost function Names(g: Graph): set<string> {
    g.inits.Keys + g.inputs + SetOf(Outputs(g.nodes)) + SetOf(Inputs(g.nodes))
  }

  function Inputs(nodes: seq<Node>): seq<string> {
    if nodes == [] then [] else nodes[0].inputs + Inputs(nodes[1..])
  }

  lemma {:induction false} InputsMembers(nodes: seq<Node>, i: nat, j: nat)
    requires i < |nodes| && j < |nodes[i].inputs|
    ensures nodes[i].inputs[j] in Inputs(nodes)
  {
    if i > 0 { InputsMembers(nodes[1..], i - 1, j); }
  }

  /** The names generated for `n` are no tensor names of the original graph. */
  ghost predicate FreshStore(g: Graph, p: Pass, n: string, st: Storage) {
    SetOf(PartNames(p.graph, n, st)) !! Names(g)
  }

  ghost predicate FreshInput(s: Setting, g: Graph, p: Pass, consumer: Op, target: Target, x: string) {
    x in p.converted || x !in p.graph.inits || !Eligible(p.graph.inits[x], target)
    || FreshStore(g, p, x, StorageFor(p.graph.inits[x], target, consumer, s.opset, s.half))
  }

  ghost predicate FreshInputs(s: Setting, g: Graph, p: Pass, consumer: Op, target: Target, xs: seq<string>, n: nat)
    requires n <= |xs|
  {
    n == 0 || (FreshInputs(s, g, p, consumer, target, xs, n - 1)
               && FreshInput(s, g, ConvertInputs(s, p, consumer, target, xs, n - 1), consumer, target, xs[n - 1]))
  }

  /** The action names a node of the original graph or none at all, and what it
      generates is fresh. */
  ghost predicate FreshAction(s: Setting, g: Graph, p: Pass, a: Action) {
    match FindNode(g.nodes, a.operatorName)
    case None => FindNode(p.graph.nodes, a.operatorName).None?
    case Some(node) => a.target == OtherTarget || FreshInputs(s, g, p, node.op, a.target, node.inputs, |node.inputs|)
  }

  /** Every name generated along the way is fresh among the original's tensor names. */
  ghost predicate FreshActions(s: Setting, g: Graph, actions: seq<Action>, n: nat)
    requires n <= |actions|
  {
    n == 0 || (FreshActions(s, g, actions, n - 1)
               && FreshAction(s, g, QuantizeAll(s, Pass(g, {}), actions, n - 1), actions[n - 1]))
  }

  /** No tensor name looks like one generated for an initializer. */
  ghost predicate SafeNames(g: Graph) {
    forall n, x {:trigger LooksGenerated(n, x)} :: n in g.inits && x in Names(g) ==> !LooksGenerated(n, x)
  }

  predicate LooksGenerated(n: string, x: string) {
    n + "_fp16" <= x || n + "_q" <= x || n + "_scale" <= x || n + "_zp" <= x
  }

  // ── the invariant ────────────────────────────────────────────────────────

  /** The rewritten graph with unconverted initializers replaced by `tau` means
      the original with the planned values and `tau`. */
  ghost predicate Means(k: Kernels, g: Graph, p: Pass, plan: Env, made: set<string>, tau: Env, feed: Env) {
    tau.Keys <= g.inits.Keys - plan.Keys && feed.Keys <= FreeInputs(g) ==>
      Agree(Evaluate(k, p.graph.(inits := p.graph.inits + tau), feed),
            Evaluate(k, g.(inits := g.inits + plan + tau), feed), made)
  }

  ghost predicate Shape(g: Graph, p: Pass, plan: Env, made: set<string>, front: seq<Node>) {
    && p.converted == plan.Keys && plan.Keys <= g.inits.Keys
    && made !! Names(g)
    && p.graph.inits.Keys == (g.inits.Keys - plan.Keys) + made
    && (forall n :: n in g.inits && n !in plan ==> p.graph.inits[n] == g.inits[n])
    && p.graph.inputs == g.inputs - plan.Keys
    && p.graph.nodes == front + g.nodes
    && (forall d, j :: d in front && 0 <= j < |d.inputs| ==> d.inputs[j] in made)
    && (forall d :: d in front ==> d.name !in NodeNames(g.nodes))
    && Restores(front, plan.Keys)
  }

  /** Each of the nodes restores one tensor, and together they restore `names`. */
  ghost predicate Restores(front: seq<Node>, names: set<string>) {
    && (forall d :: d in front ==> (d.op.Cast? || d.op.Dequantize?) && |d.outputs| == 1)
    && NoRepeats(Outputs(front)) && SetOf(Outputs(front)) == names
  }

  lemma RestoresOneMore(front: seq<Node>, names: set<string>, d: Node, n: string)
    requires Restores(front, names) && d.outputs == [n] && (d.op.Cast? || d.op.Dequantize?) && n !in names
    ensures Restores([d] + front, names + {n})
  {
    assert ([d] + front)[1..] == front;
    assert Outputs([d] + front) == [n] + Outputs(front);
    forall i, j | 0 <= i < j < |[n] + Outputs(front)| ensures ([n] + Outputs(front))[i] != ([n] + Outputs(front))[j] {
      if i == 0 { assert Outputs(front)[j - 1] in SetOf(Outputs(front)); }
    }
    forall x ensures x in SetOf([n] + Outputs(front)) <==> x in names + {n} {
      assert x in [n] + Outputs(front) <==> x == n || x in Outputs(front);
      assert x in Outputs(front) <==> x in SetOf(Outputs(front));
    }
  }

  lemma SuffixOfPart(st: Storage, i: nat)
    requires KnownStorage(st) && i < |st.parts|
    ensures st.parts[i].0 in ["_fp16", "_q", "_scale", "_zp"]
  {
  }

  lemma PartLooksGenerated(g: Graph, n: string, st: Storage, x: string)
    requires KnownStorage(st) && x in PartNames(g, n, st)
    ensures LooksGenerated(n, x) && x !in g.inits
  {
    var i :| 0 <= i < |PartNames(g, n, st)| && PartNames(g, n, st)[i] == x;
    assert n + st.parts[i].0 <= x && x !in Existing(g);
    SuffixOfPart(st, i);
  }

  lemma NothingReads(g: Graph, p: Pass, plan: Env, made: set<string>, front: seq<Node>, n: string, st: Storage)
    requires FreshStore(g, p, n, st) && Shape(g, p, plan, made, front) && n in g.inits && KnownStorage(st)
    ensures Unread(p.graph, SetOf(PartNames(p.graph, n, st)))
  {
    forall i, j | 0 <= i < |p.graph.nodes| && 0 <= j < |p.graph.nodes[i].inputs|
      ensures p.graph.nodes[i].inputs[j] !in SetOf(PartNames(p.graph, n, st))
    {
      var x := p.graph.nodes[i].inputs[j];
      if i < |front| { assert front[i] in front; } else { InputsMembers(g.nodes, i - |front|, j); }
      assert x in made || x in Names(g);
    }
  }

  /** Replacing other initializers commutes with storing one. */
  lemma StoreCommutes(g: Graph, n: string, st: Storage, tau: Env)
    requires n in g.inits && KnownStorage(st) && tau.Keys <= g.inits.Keys && n !in tau
    ensures Store(g.(inits := g.inits + tau), n, st) == Store(g, n, st).(inits := Store(g, n, st).inits + tau)
    ensures PartNames(g.(inits := g.inits + tau), n, st) == PartNames(g, n, st)
  {
    var h := g.(inits := g.inits + tau);
    assert h.inits.Keys == g.inits.Keys;
    assert Existing(h) == Existing(g);
    var names := PartNames(g, n, st);
    assert PartNames(h, n, st) == names;
    PartNamesDistinct(g, n, st);
    forall x | x in names ensures x !in tau {
      var i :| 0 <= i < |names| && names[i] == x;
      assert x !in Existing(g);
    }
    AddPartsOver(g.inits - {n}, tau, names, st.parts);
    assert h.inits - {n} == (g.inits - {n}) + tau;
    assert Store(h, n, st).nodes == Store(g, n, st).nodes;
  }

  /** Adding parts of other names commutes with replacing values. */
  lemma {:induction false} AddPartsOver(inits: Env, tau: Env, names: seq<string>, parts: seq<(string, Tensor)>)
    requires |names| == |parts| && forall x :: x in names ==> x !in tau
    ensures AddParts(inits + tau, names, parts) == AddParts(inits, names, parts) + tau
    decreases |names|
  {
    if names != [] {
      assert names[0] in names;
      assert (inits + tau)[names[0] := parts[0].1] == inits[names[0] := parts[0].1] + tau;
      AddPartsOver(inits[names[0] := parts[0].1], tau, names[1..], parts[1..]);
    }
  }

  /** The initializers after one store: `n` out, its parts in, the others as before. */
  lemma StoreInits(g: Graph, p: Pass, plan: Env, made: set<string>, front: seq<Node>, n: string, st: Storage)
    requires FreshStore(g, p, n, st) && Shape(g, p, plan, made, front) && n in g.inits && n !in plan && KnownStorage(st)
    ensures var parts := SetOf(PartNames(p.graph, n, st));
            var inits := Store(p.graph, n, st).inits;
            && parts !! Names(g) && made + parts !! Names(g)
            && inits.Keys == (g.inits.Keys - plan.Keys - {n}) + (made + parts)
            && forall m :: m in g.inits && m !in plan && m != n ==> m in inits && inits[m] == g.inits[m]
  {
    var names := PartNames(p.graph, n, st);
    PartNamesDistinct(p.graph, n, st);
    AddPartsExact(p.graph.inits - {n}, names, st.parts);
    forall x | x in names ensures x !in Names(g) && x !in made && x !in p.graph.inits {}
    assert n !in made by { assert n in Names(g); }
    forall m | m in g.inits && m !in plan && m != n
      ensures m in Store(p.graph, n, st).inits && Store(p.graph, n, st).inits[m] == g.inits[m]
    {
      assert m in Names(g);
    }
  }

  lemma StoreShape(g: Graph, p: Pass, plan: Env, made: set<string>, front: seq<Node>, n: string, st: Storage)
    requires FreshStore(g, p, n, st) && Shape(g, p, plan, made, front) && n in g.inits && n !in plan && KnownStorage(st)
    ensures Shape(g, Pass(Store(p.graph, n, st), p.converted + {n}), plan[n := Restored(st)],
                  made + SetOf(PartNames(p.graph, n, st)), [RestoringNode(p.graph, n, st)] + front)
  {
    StoreInits(g, p, plan, made, front, n, st);
    FrontGrows(g, p, made, front, n, st);
    RestoresOneMore(front, plan.Keys, RestoringNode(p.graph, n, st), n);
    assert plan[n := Restored(st)].Keys == plan.Keys + {n};
  }

  lemma FrontGrows(g: Graph, p: Pass, made: set<string>, front: seq<Node>, n: string, st: Storage)
    requires p.graph.nodes == front + g.nodes
    requires forall d, j :: d in front && 0 <= j < |d.inputs| ==> d.inputs[j] in made
    requires forall d :: d in front ==> d.name !in NodeNames(g.nodes)
    ensures var front' := [RestoringNode(p.graph, n, st)] + front;
            && (forall d, j :: d in front' && 0 <= j < |d.inputs| ==>
                d.inputs[j] in made + SetOf(PartNames(p.graph, n, st)))
            && (forall d :: d in front' ==> d.name !in NodeNames(g.nodes))
            && Store(p.graph, n, st).nodes == front' + g.nodes
  {
    var node := RestoringNode(p.graph, n, st);
    assert node.name !in NodeNames(g.nodes) by {
      assert node.name !in Existing(p.graph);
      forall m | m in g.nodes ensures m.name != node.name { assert m in p.graph.nodes; }
    }
    assert [node] + (front + g.nodes) == [node] + front + g.nodes;
  }

  /** One store, seen under any replacement of the other initializers. */
  lemma StoreUnder(k: Kernels, g: Graph, n: string, st: Storage, tau: Env, feed: Env)
    requires n in g.inits && KnownStorage(st) && tau.Keys <= g.inits.Keys && n !in tau
    requires Unread(g, SetOf(PartNames(g, n, st))) && feed.Keys <= FreeInputs(g)
    ensures Agree(Evaluate(k, Store(g, n, st).(inits := Store(g, n, st).inits + tau), feed),
                  Evaluate(k, g.(inits := g.inits + tau[n := Restored(st)]), feed),
                  SetOf(PartNames(g, n, st)))
  {
    var h := g.(inits := g.inits + tau);
    StoreCommutes(g, n, st, tau);
    assert h.inits.Keys == g.inits.Keys;
    StoreMeaning(k, h, n, st, feed);
    assert h.inits[n := Restored(st)] == g.inits + tau[n := Restored(st)];
  }

  lemma StoreThen(k: Kernels, g: Graph, n: string, st: Storage, tau: Env, feed: Env, reference: Env, made: set<string>)
    requires n in g.inits && KnownStorage(st) && tau.Keys <= g.inits.Keys && n !in tau
    requires Unread(g, SetOf(PartNames(g, n, st))) && feed.Keys <= FreeInputs(g)
    requires Agree(Evaluate(k, g.(inits := g.inits + tau[n := Restored(st)]), feed), reference, made)
    ensures Agree(Evaluate(k, Store(g, n, st).(inits := Store(g, n, st).inits + tau), feed), reference,
                  made + SetOf(PartNames(g, n, st)))
  {
    StoreUnder(k, g, n, st, tau, feed);
  }

  lemma StoreKeepsMeaning(k: Kernels, g: Graph, p: Pass, plan: Env, made: set<string>, front: seq<Node>, n: string,
                          st: Storage,
                          tau: Env, feed: Env)
    requires FreshStore(g, p, n, st) && Shape(g, p, plan, made, front) && n in g.inits && n !in plan && KnownStorage(st)
    requires Means(k, g, p, plan, made, tau[n := Restored(st)], feed)
    ensures Means(k, g, Pass(Store(p.graph, n, st), p.converted + {n}), plan[n := Restored(st)],
                  made + SetOf(PartNames(p.graph, n, st)), tau, feed)
  {
    var r := Restored(st);
    if tau.Keys <= g.inits.Keys - plan[n := r].Keys && feed.Keys <= FreeInputs(g) {
      NothingReads(g, p, plan, made, front, n, st);
      PlannedInits(g, plan, tau, n, r);
      StoreThen(k, p.graph, n, st, tau, feed, Evaluate(k, g.(inits := g.inits + plan[n := r] + tau), feed), made);
    }
  }

  lemma PlannedInits(g: Graph, plan: Env, tau: Env, n: string, r: Tensor)
    requires n !in tau && n !in plan
    ensures g.inits + plan + tau[n := r] == g.inits + plan[n := r] + tau
  {
  }

  /** Everything the pass maintains, with its witnesses. */
  ghost predicate Tracks(g: Graph, p: Pass, plan: Env, made: set<string>, front: seq<Node>) {
    && Shape(g, p, plan, made, front)
    && forall k: Kernels, tau: Env, feed: Env :: Means(k, g, p, plan, made, tau, feed)
  }

  lemma StartTracks(g: Graph)
    ensures Tracks(g, Pass(g, {}), map[], {}, [])
  {
    forall k: Kernels, tau: Env, feed: Env ensures Means(k, g, Pass(g, {}), map[], {}, tau, feed) {
      assert g.inits + map[] + tau == g.inits + tau;
    }
    assert [] + g.nodes == g.nodes;
  }

  lemma StoreTracks(g: Graph, p: Pass, plan: Env, made: set<string>, front: seq<Node>, n: string, st: Storage)
    requires FreshStore(g, p, n, st) && Tracks(g, p, plan, made, front) && n in g.inits && n !in plan
             && KnownStorage(st)
    ensures Tracks(g, Pass(Store(p.graph, n, st), p.converted + {n}), plan[n := Restored(st)],
                   made + SetOf(PartNames(p.graph, n, st)), [RestoringNode(p.graph, n, st)] + front)
  {
    StoreShape(g, p, plan, made, front, n, st);
    var p', plan' := Pass(Store(p.graph, n, st), p.converted + {n}), plan[n := Restored(st)];
    var made' := made + SetOf(PartNames(p.graph, n, st));
    forall k: Kernels, tau: Env, feed: Env ensures Means(k, g, p', plan', made', tau, feed) {
      StoreKeepsMeaning(k, g, p, plan, made, front, n, st, tau, feed);
    }
  }

  lemma InputTracks(s: Setting, g: Graph, p: Pass, plan: Env, made: set<string>, front: seq<Node>,
                    consumer: Op, target: Target, x: string) returns (made': set<string>, front': seq<Node>)
    requires Tracks(g, p, plan, made, front) && x in Names(g) && FreshInput(s, g, p, consumer, target, x)
    ensures Tracks(g, ConvertInput(s, p, consumer, target, x), PlanInput(s, g, plan, consumer, target, x), made',
                   front')
  {
    made', front' := made, front;
    if x !in plan && x in g.inits && Eligible(g.inits[x], target) {
      var st := StorageFor(g.inits[x], target, consumer, s.opset, s.half);
      made' := made + SetOf(PartNames(p.graph, x, st));
      front' := [RestoringNode(p.graph, x, st)] + front;
      StoreTracks(g, p, plan, made, front, x, st);
    }
  }

  lemma {:induction false} InputsTrack(s: Setting, g: Graph, p: Pass, plan: Env, made: set<string>, front: seq<Node>,
                                       consumer: Op, target: Target, xs: seq<string>, n: nat)
    returns (made': set<string>, front': seq<Node>)
    requires Tracks(g, p, plan, made, front) && n <= |xs| && (forall x :: x in xs ==> x in Names(g))
    requires FreshInputs(s, g, p, consumer, target, xs, n)
    ensures Tracks(g, ConvertInputs(s, p, consumer, target, xs, n), PlanInputs(s, g, plan, consumer, target, xs, n),
                   made', front')
  {
    made', front' := made, front;
    if n > 0 {
      var m, f := InputsTrack(s, g, p, plan, made, front, consumer, target, xs, n - 1);
      made', front' := InputTracks(s, g, ConvertInputs(s, p, consumer, target, xs, n - 1),
                                   PlanInputs(s, g, plan, consumer, target, xs, n - 1), m, f, consumer, target,
                                   xs[n - 1]);
    }
  }

  lemma {:induction false} FindPastFront(front: seq<Node>, nodes: seq<Node>, name: string)
    requires forall d :: d in front ==> d.name != name
    ensures FindNode(front + nodes, name) == FindNode(nodes, name)
  {
    if front == [] {
      assert front + nodes == nodes;
    } else {
      assert (front + nodes)[1..] == front[1..] + nodes;
      assert front[0] in front;
      FindPastFront(front[1..], nodes, name);
    }
  }

  lemma {:induction false} FoundIsNode(nodes: seq<Node>, name: string)
    requires FindNode(nodes, name).Some?
    ensures FindNode(nodes, name).value in nodes && name in NodeNames(nodes)
  {
    if nodes[0].name != name {
      FoundIsNode(nodes[1..], name);
      var m := FindNode(nodes[1..], name).value;
      FoundHasName(nodes[1..], name);
      assert m in nodes && m.name == name;
    }
  }

  lemma {:induction false} FoundHasName(nodes: seq<Node>, name: string)
    requires FindNode(nodes, name).Some?
    ensures FindNode(nodes, name).value.name == name
  {
    if nodes[0].name != name { FoundHasName(nodes[1..], name); }
  }

  lemma InputsNamed(g: Graph, name: string)
    requires FindNode(g.nodes, name).Some?
    ensures forall x :: x in FindNode(g.nodes, name).value.inputs ==> x in Names(g)
  {
    FoundIsNode(g.nodes, name);
    var node := FindNode(g.nodes, name).value;
    var i :| 0 <= i < |g.nodes| && g.nodes[i] == node;
    forall x | x in node.inputs ensures x in Names(g) {
      var j :| 0 <= j < |node.inputs| && node.inputs[j] == x;
      InputsMembers(g.nodes, i, j);
    }
  }

  lemma ActionTracks(s: Setting, g: Graph, p: Pass, plan: Env, made: set<string>, front: seq<Node>, a: Action)
    returns (made': set<string>, front': seq<Node>)
    requires Tracks(g, p, plan, made, front) && FreshAction(s, g, p, a)
    ensures Tracks(g, Quantize(s, p, a), PlanAction(s, g, plan, a), made', front')
  {
    made', front' := made, front;
    if a.target != OtherTarget && FindNode(g.nodes, a.operatorName).Some? {
      FoundIsNode(g.nodes, a.operatorName);
      FindPastFront(front, g.nodes, a.operatorName);
      InputsNamed(g, a.operatorName);
      var node := FindNode(g.nodes, a.operatorName).value;
      made', front' := InputsTrack(s, g, p, plan, made, front, node.op, a.target, node.inputs, |node.inputs|);
    }
  }

  lemma {:induction false} PassTracks(s: Setting, g: Graph, actions: seq<Action>, n: nat)
    returns (made: set<string>, front: seq<Node>)
    requires n <= |actions| && FreshActions(s, g, actions, n)
    ensures Tracks(g, QuantizeAll(s, Pass(g, {}), actions, n), Plan(s, g, actions, n), made, front)
  {
    if n == 0 {
      StartTracks(g);
      made, front := {}, [];
    } else {
      var m, f := PassTracks(s, g, actions, n - 1);
      made, front := ActionTracks(s, g, QuantizeAll(s, Pass(g, {}), actions, n - 1), Plan(s, g, actions, n - 1), m, f,
                                  actions[n - 1]);
    }
  }

  // a condition on the input alone

  lemma {:induction false} SafeInputs(s: Setting, g: Graph, p: Pass, plan: Env, made: set<string>, front: seq<Node>,
                                      consumer: Op, target: Target, xs: seq<string>, n: nat)
    requires SafeNames(g) && Tracks(g, p, plan, made, front) && n <= |xs| && forall x :: x in xs ==> x in Names(g)
    ensures FreshInputs(s, g, p, consumer, target, xs, n)
  {
    if n > 0 {
      SafeInputs(s, g, p, plan, made, front, consumer, target, xs, n - 1);
      var m, f := InputsTrack(s, g, p, plan, made, front, consumer, target, xs, n - 1);
      var p' := ConvertInputs(s, p, consumer, target, xs, n - 1);
      var plan' := PlanInputs(s, g, plan, consumer, target, xs, n - 1);
      SafeInput(s, g, p', plan', m, f, consumer, target, xs[n - 1]);
    }
  }

  lemma SafeInput(s: Setting, g: Graph, p: Pass, plan: Env, made: set<string>, front: seq<Node>, consumer: Op,
                  target: Target, x: string)
    requires SafeNames(g) && Tracks(g, p, plan, made, front) && x in Names(g)
    ensures FreshInput(s, g, p, consumer, target, x)
  {
    if x in p.graph.inits {
      assert x in g.inits;
      var st := StorageFor(p.graph.inits[x], target, consumer, s.opset, s.half);
      forall y | y in PartNames(p.graph, x, st) ensures y !in Names(g) { PartLooksGenerated(p.graph, x, st, y); }
    }
  }

  /** Names that do not look generated stay fresh through any list of actions on
      the graph's own operators. */
  lemma {:induction false} SafeNamesStayFresh(s: Setting, g: Graph, actions: seq<Action>, n: nat)
    requires SafeNames(g) && n <= |actions| && forall a :: a in actions ==> FindNode(g.nodes, a.operatorName).Some?
    ensures FreshActions(s, g, actions, n)
  {
    if n > 0 {
      SafeNamesStayFresh(s, g, actions, n - 1);
      var m, f := PassTracks(s, g, actions, n - 1);
      var node := FindNode(g.nodes, actions[n - 1].operatorName).value;
      InputsNamed(g, actions[n - 1].operatorName);
      SafeInputs(s, g, QuantizeAll(s, Pass(g, {}), actions, n - 1), Plan(s, g, actions, n - 1), m, f,
                 node.op, actions[n - 1].target, node.inputs, |node.inputs|);
    }
  }

  // ── main results ─────────────────────────────────────────────────────────

  lemma TrackedMeaning(k: Kernels, g: Graph, p: Pass, plan: Env, made: set<string>, front: seq<Node>, feed: Env,
                       x: string)
    requires Tracks(g, p, plan, made, front) && feed.Keys <= FreeInputs(g) && x in Names(g)
    ensures Lookup(Evaluate(k, p.graph, feed), x) == Lookup(Evaluate(k, g.(inits := g.inits + plan), feed), x)
  {
    assert Means(k, g, p, plan, made, map[], feed);
    Unchanged(p.graph.inits);
    Unchanged(g.inits + plan);
    assert p.graph.(inits := p.graph.inits) == p.graph;
  }

  lemma Unchanged(inits: Env)
    ensures inits + map[] == inits
  {
  }

  /** After any list of quantization actions whose generated names are fresh, every
      original tensor name evaluates, on every input, as in the original graph
      with each converted initializer replaced by its restored value. */
  lemma PassMeaning(s: Setting, g: Graph, actions: seq<Action>, k: Kernels, feed: Env, x: string)
    requires FreshActions(s, g, actions, |actions|) && feed.Keys <= FreeInputs(g) && x in Names(g)
    ensures Lookup(Evaluate(k, QuantizeAll(s, Pass(g, {}), actions, |actions|).graph, feed), x)
         == Lookup(Evaluate(k, g.(inits := g.inits + Plan(s, g, actions, |actions|)), feed), x)
  {
    var made, front := PassTracks(s, g, actions, |actions|);
    TrackedMeaning(k, g, QuantizeAll(s, Pass(g, {}), actions, |actions|), Plan(s, g, actions, |actions|), made, front,
                   feed, x);
  }

  lemma {:induction false} OutputsConcat(a: seq<Node>, b: seq<Node>)
    ensures Outputs(a + b) == Outputs(a) + Outputs(b)
  {
    if a == [] {
      assert a + b == b;
    } else {
      assert (a + b)[0] == a[0] && (a + b)[1..] == a[1..] + b;
      OutputsConcat(a[1..], b);
    }
  }

  lemma ShapeSingleAssignment(g: Graph, p: Pass, plan: Env, made: set<string>, front: seq<Node>)
    requires SingleAssignment(g) && Shape(g, p, plan, made, front)
    ensures SingleAssignment(p.graph)
  {
    var restored, original := Outputs(front), Outputs(g.nodes);
    OutputsConcat(front, g.nodes);
    forall i, j | 0 <= i < j < |restored + original| ensures (restored + original)[i] != (restored + original)[j] {
      if i < |restored| <= j {
        assert restored[i] in SetOf(restored);
        assert original[j - |restored|] in original;
      }
    }
    forall x | x in restored + original ensures x !in p.graph.inits && x !in p.graph.inputs {
      if x in restored {
        assert x in SetOf(restored) && x in Names(g);
      } else {
        assert x in SetOf(original) && x in Names(g);
      }
    }
  }

  /** The rewritten graph defines every tensor once, after any list of actions. */
  lemma PassSingleAssignment(s: Setting, g: Graph, actions: seq<Action>)
    requires SingleAssignment(g) && FreshActions(s, g, actions, |actions|)
    ensures SingleAssignment(QuantizeAll(s, Pass(g, {}), actions, |actions|).graph)
  {
    var made, front := PassTracks(s, g, actions, |actions|);
    ShapeSingleAssignment(g, QuantizeAll(s, Pass(g, {}), actions, |actions|), Plan(s, g, actions, |actions|), made,
                          front);
  }

  // when the whole pass keeps single assignment

  ghost predicate ApartInput(s: Setting, p: Pass, consumer: Op, target: Target, x: string) {
    x in p.converted || x !in p.graph.inits || !Eligible(p.graph.inits[x], target)
    || PartsUnmade(p.graph, x, StorageFor(p.graph.inits[x], target, consumer, s.opset, s.half))
  }

  ghost predicate ApartInputs(s: Setting, p: Pass, consumer: Op, target: Target, xs: seq<string>, n: nat)
    requires n <= |xs|
  {
    n == 0 || (ApartInputs(s, p, consumer, target, xs, n - 1)
               && ApartInput(s, ConvertInputs(s, p, consumer, target, xs, n - 1), consumer, target, xs[n - 1]))
  }

  ghost predicate ApartAction(s: Setting, p: Pass, a: Action) {
    var node := FindNode(p.graph.nodes, a.operatorName);
    a.target == OtherTarget || node.None?
    || ApartInputs(s, p, node.value.op, a.target, node.value.inputs, |node.value.inputs|)
  }

  /** At every conversion, no node makes a tensor of a name that is chosen. */
  ghost predicate ApartActions(s: Setting, g: Graph, actions: seq<Action>, n: nat)
    requires n <= |actions|
  {
    n == 0 || (ApartActions(s, g, actions, n - 1)
               && ApartAction(s, QuantizeAll(s, Pass(g, {}), actions, n - 1), actions[n - 1]))
  }

  lemma {:induction false} InputsApartIff(s: Setting, p: Pass, consumer: Op, target: Target, xs: seq<string>, n: nat)
    requires n <= |xs|
    ensures SingleAssignment(ConvertInputs(s, p, consumer, target, xs, n).graph)
            <==> SingleAssignment(p.graph) && ApartInputs(s, p, consumer, target, xs, n)
  {
    if n > 0 {
      InputsApartIff(s, p, consumer, target, xs, n - 1);
      InputApartIff(s, ConvertInputs(s, p, consumer, target, xs, n - 1), consumer, target, xs[n - 1]);
    }
  }

  lemma InputApartIff(s: Setting, p: Pass, consumer: Op, target: Target, x: string)
    ensures SingleAssignment(ConvertInput(s, p, consumer, target, x).graph)
            <==> SingleAssignment(p.graph) && ApartInput(s, p, consumer, target, x)
  {
    if !(x in p.converted || x !in p.graph.inits || !Eligible(p.graph.inits[x], target)) {
      var st := StorageFor(p.graph.inits[x], target, consumer, s.opset, s.half);
      if SingleAssignment(p.graph) {
        StoreSingleAssignmentIff(p.graph, x, st);
      } else {
        BrokenStays(p.graph, x, st);
      }
    }
  }

  /** A whole action list leaves every tensor defined once, if and only if at every
      conversion no node makes a tensor of a name that is chosen. */
  lemma {:induction false} PassSingleAssignmentIff(s: Setting, g: Graph, actions: seq<Action>, n: nat)
    requires SingleAssignment(g) && n <= |actions|
    ensures SingleAssignment(QuantizeAll(s, Pass(g, {}), actions, n).graph) <==> ApartActions(s, g, actions, n)
  {
    if n > 0 {
      PassSingleAssignmentIff(s, g, actions, n - 1);
      var p, a := QuantizeAll(s, Pass(g, {}), actions, n - 1), actions[n - 1];
      var node := FindNode(p.graph.nodes, a.operatorName);
      if a.target != OtherTarget && node.Some? {
        InputsApartIff(s, p, node.value.op, a.target, node.value.inputs, |node.value.inputs|);
      }
    }
  }

  /** Node `i` makes `x` and nothing else, and no other node makes it. */
  ghost predicate OnlyMaker(nodes: seq<Node>, i: nat, x: string) {
    i < |nodes| && nodes[i].outputs == [x] && forall j :: 0 <= j < |nodes| && j != i ==> x !in nodes[j].outputs
  }

  /** In the rewritten graph a converted initializer is gone and exactly one node
      restores it, however many operators share it; any other is as it was. */
  lemma RestoredOnce(s: Setting, g: Graph, actions: seq<Action>, x: string) returns (i: nat)
    requires SingleAssignment(g) && FreshActions(s, g, actions, |actions|) && x in g.inits
    ensures var h := QuantizeAll(s, Pass(g, {}), actions, |actions|).graph;
            if x in Plan(s, g, actions, |actions|)
            then x !in h.inits && OnlyMaker(h.nodes, i, x) && (h.nodes[i].op.Cast? || h.nodes[i].op.Dequantize?)
            else x in h.inits && h.inits[x] == g.inits[x] && x !in Outputs(h.nodes)
  {
    var made, front := PassTracks(s, g, actions, |actions|);
    i := ShapeRestores(g, QuantizeAll(s, Pass(g, {}), actions, |actions|), Plan(s, g, actions, |actions|), made, front,
                       x);
  }

  lemma ShapeRestores(g: Graph, p: Pass, plan: Env, made: set<string>, front: seq<Node>, x: string) returns (i: nat)
    requires SingleAssignment(g) && Shape(g, p, plan, made, front) && x in g.inits
    ensures var h := p.graph;
            if x in plan
            then x !in h.inits && OnlyMaker(h.nodes, i, x) && (h.nodes[i].op.Cast? || h.nodes[i].op.Dequantize?)
            else x in h.inits && h.inits[x] == g.inits[x] && x !in Outputs(h.nodes)
  {
    ShapeSingleAssignment(g, p, plan, made, front);
    OutputsConcat(front, g.nodes);
    assert x in Names(g);
    i := 0;
    if x in plan {
      assert x in SetOf(Outputs(front));
      OutputsMembers(front, x);
      i :| 0 <= i < |front| && x in front[i].outputs;
      assert p.graph.nodes[i] == front[i] && front[i] in front;
      assert front[i].outputs == [x];
      forall j | 0 <= j < |p.graph.nodes| && j != i ensures x !in p.graph.nodes[j].outputs {
        OutputsApart(p.graph.nodes, i, j, x);
      }
    } else {
      assert x !in SetOf(Outputs(front));
    }
  }

  /** The stored value is the original one in the format one quantized operator
      that reads the initializer asks for. */
  lemma {:induction false} ConvertedFor(s: Setting, g: Graph, actions: seq<Action>, n: nat, x: string)
    returns (a: nat, node: Node)
    requires n <= |actions| && x in Plan(s, g, actions, n)
    ensures a < n && FindNode(g.nodes, actions[a].operatorName) == Some(node) && x in node.inputs
    ensures actions[a].target != OtherTarget && x in g.inits && Eligible(g.inits[x], actions[a].target)
    ensures Plan(s, g, actions, n)[x] == Restored(StorageFor(g.inits[x], actions[a].target, node.op, s.opset, s.half))
  {
    var last := FindNode(g.nodes, actions[n - 1].operatorName);
    if x in Plan(s, g, actions, n - 1) {
      a, node := ConvertedFor(s, g, actions, n - 1, x);
      if last.Some? {
        PlanKept(s, g, Plan(s, g, actions, n - 1), last.value.op, actions[n - 1].target, last.value.inputs,
                 |last.value.inputs|, x);
      }
    } else {
      a, node := n - 1, last.value;
      PlannedHere(s, g, Plan(s, g, actions, n - 1), node.op, actions[a].target, node.inputs, |node.inputs|, x);
    }
  }

  lemma {:induction false} PlanKept(s: Setting, g: Graph, plan: Env, consumer: Op, target: Target, xs: seq<string>,
                                    n: nat, x: string)
    requires n <= |xs| && x in plan
    ensures x in PlanInputs(s, g, plan, consumer, target, xs, n)
            && PlanInputs(s, g, plan, consumer, target, xs, n)[x] == plan[x]
  {
    if n > 0 { PlanKept(s, g, plan, consumer, target, xs, n - 1, x); }
  }

  lemma {:induction false} PlannedHere(s: Setting, g: Graph, plan: Env, consumer: Op, target: Target, xs: seq<string>,
                                       n: nat, x: string)
    requires n <= |xs| && x !in plan && x in PlanInputs(s, g, plan, consumer, target, xs, n)
    ensures x in xs && x in g.inits && Eligible(g.inits[x], target)
    ensures PlanInputs(s, g, plan, consumer, target, xs, n)[x]
         == Restored(StorageFor(g.inits[x], target, consumer, s.opset, s.half))
  {
    if n > 0 && x in PlanInputs(s, g, plan, consumer, target, xs, n - 1) {
      PlannedHere(s, g, plan, consumer, target, xs, n - 1, x);
    }
  }

  // ── the transformer as it updates the graph ──────────────────────────────

  class OnnxTransformer {
    const setting: Setting
    var graph: Graph
    var converted: set<string>

    constructor (s: Setting, model: Graph)
      ensures setting == s && View() == Pass(model, {})
    {
      setting, graph, converted := s, model, {};
    }

    ghost function View(): Pass
      reads this
    {
      Pass(graph, converted)
    }

    /** `_unique_name`: the candidate, or the first free numbered variant. */
    method PickName(candidate: string) returns (name: string)
      ensures FirstFree(graph.inits.Keys + NodeNames(graph.nodes), candidate, name)
      ensures name == UniqueName(Existing(graph), candidate)
    {
      UniqueNameIsFirst(Existing(graph), candidate);
      name := candidate;
      var suffix := 2;
      if name in Existing(graph) {
        name := candidate + "_" + Decimals.Decimal(suffix);
        while name in Existing(graph)
          invariant suffix >= 2 && name == candidate + "_" + Decimals.Decimal(suffix)
          invariant UniqueFrom(Existing(graph), candidate, 2) == UniqueFrom(Existing(graph), candidate, suffix)
          decreases Existing(graph) - Tried(candidate, suffix)
        {
          TriedGrows(candidate, suffix);
          suffix := suffix + 1;
          name := candidate + "_" + Decimals.Decimal(suffix);
        }
      }
    }

    /** `_store_fp16` and `_store_int8`: the initializer goes, its storage and the
        restoring node come; `StoreExact` says what that leaves. */
    method StoreAs(n: string, st: Storage)
      requires n in graph.inits && KnownStorage(st)
      modifies this`graph
      ensures graph == Store(old(graph), n, st)
    {
      var names := [];
      for i := 0 to |st.parts|
        invariant graph == old(graph)
        invariant names == PartNames(graph, n, st)[..i]
      {
        var name := PickName(n + st.parts[i].0);
        names := names + [name];
      }
      assert names == PartNames(graph, n, st);
      var nodeName := PickName(n + st.nodeSuffix);
      var node := Node(nodeName, st.op, names, [n]);
      graph := Graph(AddParts(graph.inits - {n}, names, st.parts), graph.inputs - {n}, [node] + graph.nodes,
                     graph.outputs);
    }

    method ApplyWeightQuantization(a: Action)
      modifies this
      ensures View() == Quantize(setting, old(View()), a)
    {
      if a.target == OtherTarget {
        return;
      }
      var node := FindNode(graph.nodes, a.operatorName);
      if node.None? {
        return;
      }
      var inputs := node.value.inputs;
      for i := 0 to |inputs|
        invariant View() == ConvertInputs(setting, old(View()), node.value.op, a.target, inputs, i)
      {
        var x := inputs[i];
        OneMore(setting, old(View()), node.value.op, a.target, inputs, i);
        if x in converted { continue; }
        if x !in graph.inits { continue; }
        var init := graph.inits[x];
        if init.dtype != Float32 { continue; }
        if 4 * Size(init) < MIN_QUANT_BYTES { continue; }
        if (a.target == INT8 || a.target == INT4) && init.rank < 2 { continue; }
        StoreAs(x, StorageFor(init, a.target, node.value.op, setting.opset, setting.half));
        converted := converted + {x};
      }
    }

    method ApplyAll(actions: seq<Action>)
      modifies this
      ensures View() == QuantizeAll(setting, old(View()), actions, |actions|)
    {
      for i := 0 to |actions|
        invariant View() == QuantizeAll(setting, old(View()), actions, i)
      {
        ApplyWeightQuantization(actions[i]);
      }
    }
  }
}
