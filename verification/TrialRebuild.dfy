/** Rebuilding a trial's model from its stored configuration: the objective of
    astra/search/pareto_search.py applies one action list, `_reconstruct_model`
    of astra/sdk.py derives it again from the names, ratios and flags on record.

    Both sides look operators up by name, so operators that share one share its
    configuration.  What one configuration translates to is a parameter. */
module TrialRebuild {
  import opened Collections
  import opened Options

  datatype Precision = FP32 | FP16 | INT8 | INT4
  datatype Operator = Operator(name: string, opType: string, category: string)
  datatype Config = Config(precision: Precision, pruneRatio: real, fuse: bool, approxRank: Option<nat>)
  {
    predicate NoCompression() { precision == FP32 && pruneRatio == 0.0 && !fuse && approxRank == None }
  }
  /** The stored form: precision by name, no rank. */
  datatype Entry = Entry(precision: string, pruneRatio: real, fuse: bool)
  datatype Action = Action(operatorName: string, actionType: string, parameter: string)

  type Translator = (Operator, Config) -> seq<Action>

  function PrecisionName(p: Precision): string {
    match p
    case FP32 => "FP32"
    case FP16 => "FP16"
    case INT8 => "INT8"
    case INT4 => "INT4"
  }

  /** `PrecisionLevel[name]`; an unknown name raises. */
  function PrecisionOf(name: string): Option<Precision> {
    if name == "FP32" then Some(FP32)
    else if name == "FP16" then Some(FP16)
    else if name == "INT8" then Some(INT8)
    else if name == "INT4" then Some(INT4)
    else None
  }

  // ── an insertion-ordered dict ────────────────────────────────────────────

  type Dict<T> = seq<(string, T)>

  /** Assigning an existing key keeps its position. */
  function Put<T>(d: Dict<T>, k: string, v: T): Dict<T> {
    if d == [] then [(k, v)]
    else if d[0].0 == k then [(k, v)] + d[1..]
    else [d[0]] + Put(d[1..], k, v)
  }

  function Get<T>(d: Dict<T>, k: string): Option<T> {
    if d == [] then None
    else if d[0].0 == k then Some(d[0].1)
    else Get(d[1..], k)
  }

  function Keys<T>(d: Dict<T>): seq<string> { seq(|d|, i requires 0 <= i < |d| => d[i].0) }

  lemma {:induction false} PutKeys<T>(d: Dict<T>, k: string, v: T)
    requires NoRepeats(Keys(d))
    ensures Keys(Put(d, k, v)) == if k in Keys(d) then Keys(d) else Keys(d) + [k]
    ensures NoRepeats(Keys(Put(d, k, v)))
  {
    if d != [] && d[0].0 != k {
      var tail := Keys(d[1..]);
      assert Keys(d) == [d[0].0] + tail && tail == Keys(d)[1..];
      PutKeys(d[1..], k, v);
      assert Keys(Put(d, k, v)) == [d[0].0] + Keys(Put(d[1..], k, v));
      assert k in Keys(d) <==> k in tail;
    } else if d != [] {
      assert Keys(Put(d, k, v)) == Keys(d) && Keys(d)[0] == k;
    }
  }

  lemma {:induction false} GetPut<T>(d: Dict<T>, k: string, v: T, x: string)
    ensures Get(Put(d, k, v), x) == if x == k then Some(v) else Get(d, x)
  {
    if d != [] { GetPut(d[1..], k, v, x); }
  }

  lemma {:induction false} GetKey<T>(d: Dict<T>, x: string)
    ensures Get(d, x).Some? <==> x in Keys(d)
  {
    if d != [] {
      GetKey(d[1..], x);
      assert Keys(d) == [d[0].0] + Keys(d[1..]);
    }
  }

  lemma {:induction false} GetAt<T>(d: Dict<T>, i: nat)
    requires i < |d| && NoRepeats(Keys(d))
    ensures Get(d, d[i].0) == Some(d[i].1)
  {
    if i > 0 {
      assert Keys(d)[0] != Keys(d)[i];
      assert Keys(d[1..]) == Keys(d)[1..];
      GetAt(d[1..], i - 1);
    }
  }

  // ── the search side ──────────────────────────────────────────────────────

  /** The configuration dict after the first `n` operators: a repeated name keeps
      its place and takes the later choice. */
  function Chosen(ops: seq<Operator>, choices: seq<Config>, n: nat): Dict<Config>
    requires |choices| == |ops| && n <= |ops|
  {
    if n == 0 then [] else Put(Chosen(ops, choices, n - 1), ops[n - 1].name, choices[n - 1])
  }

  /** The choice an operator of that name ends up with. */
  function Final(ops: seq<Operator>, choices: seq<Config>, name: string): Option<Config>
    requires |choices| == |ops|
  {
    Get(Chosen(ops, choices, |ops|), name)
  }

  /** The dict holds exactly the operators' names, in order of first occurrence. */
  lemma {:induction false} ChosenKeys(ops: seq<Operator>, choices: seq<Config>, n: nat)
    requires |choices| == |ops| && n <= |ops|
    ensures NoRepeats(Keys(Chosen(ops, choices, n)))
    ensures forall x :: x in Keys(Chosen(ops, choices, n)) <==> Named(ops, n, x)
  {
    if n > 0 {
      ChosenKeys(ops, choices, n - 1);
      PutKeys(Chosen(ops, choices, n - 1), ops[n - 1].name, choices[n - 1]);
      forall x ensures Named(ops, n, x) <==> Named(ops, n - 1, x) || x == ops[n - 1].name {}
    }
  }

  /** One of the first `n` operators has that name. */
  ghost predicate Named(ops: seq<Operator>, n: nat, x: string)
    requires n <= |ops|
  {
    exists i :: 0 <= i < n && ops[i].name == x
  }

  /** The last operator of a name decides. */
  lemma {:induction false} FinalIsLast(ops: seq<Operator>, choices: seq<Config>, n: nat, i: nat)
    requires |choices| == |ops| && i < n <= |ops| && forall j :: i < j < n ==> ops[j].name != ops[i].name
    ensures Get(Chosen(ops, choices, n), ops[i].name) == Some(choices[i])
  {
    GetPut(Chosen(ops, choices, n - 1), ops[n - 1].name, choices[n - 1], ops[i].name);
    if i < n - 1 { FinalIsLast(ops, choices, n - 1, i); }
  }

  lemma FinalSome(ops: seq<Operator>, choices: seq<Config>, i: nat)
    requires |choices| == |ops| && i < |ops|
    ensures Final(ops, choices, ops[i].name).Some?
  {
    ChosenKeys(ops, choices, |ops|);
    GetKey(Chosen(ops, choices, |ops|), ops[i].name);
  }

  predicate Compressed(ops: seq<Operator>, choices: seq<Config>, name: string)
    requires |choices| == |ops|
  {
    Final(ops, choices, name).Some? && !Final(ops, choices, name).value.NoCompression()
  }

  function Contribution(t: Translator, op: Option<Operator>, c: Option<Config>): seq<Action> {
    if op.None? || c.None? || c.value.NoCompression() then [] else t(op.value, c.value)
  }

  /** Actions of the operators in turn, each with the final choice of its name. */
  function Applied(ops: seq<Operator>, choices: seq<Config>, t: Translator, n: nat): seq<Action>
    requires |choices| == |ops| && n <= |ops|
  {
    if n == 0 then []
    else Applied(ops, choices, t, n - 1) + Contribution(t, Some(ops[n - 1]), Final(ops, choices, ops[n - 1].name))
  }

  function Stored(c: Config): Entry { Entry(PrecisionName(c.precision), c.pruneRatio, c.fuse) }

  function StoredAll(d: Dict<Config>): Dict<Entry> { seq(|d|, i requires 0 <= i < |d| => (d[i].0, Stored(d[i].1))) }

  /** One objective evaluation: the dict of configurations, the actions applied
      and the record kept.  `choices[i]` is what the trial suggested for `ops[i]`. */
  method Objective(ops: seq<Operator>, choices: seq<Config>, t: Translator)
    returns (actions: seq<Action>, record: Dict<Entry>)
    requires |choices| == |ops|
    ensures actions == Applied(ops, choices, t, |ops|)
    ensures record == StoredAll(Chosen(ops, choices, |ops|))
  {
    var config: Dict<Config> := [];
    for i := 0 to |ops|
      invariant config == Chosen(ops, choices, i)
    {
      config := Put(config, ops[i].name, choices[i]);
    }
    actions := ApplyAll(ops, choices, config, t);
    record := StoreAll(config);
  }

  method ApplyAll(ops: seq<Operator>, choices: seq<Config>, config: Dict<Config>, t: Translator)
    returns (actions: seq<Action>)
    requires |choices| == |ops| && config == Chosen(ops, choices, |ops|)
    ensures actions == Applied(ops, choices, t, |ops|)
  {
    actions := [];
    for i := 0 to |ops|
      invariant actions == Applied(ops, choices, t, i)
    {
      FinalSome(ops, choices, i);
      var c := Get(config, ops[i].name).value;
      assert Final(ops, choices, ops[i].name) == Some(c);
      if !c.NoCompression() {
        actions := actions + t(ops[i], c);
      }
    }
  }

  method StoreAll(config: Dict<Config>) returns (record: Dict<Entry>)
    ensures record == StoredAll(config)
  {
    record := [];
    for i := 0 to |config|
      invariant record == StoredAll(config)[..i]
    {
      record := record + [(config[i].0, Stored(config[i].1))];
    }
  }

  // ── what one evaluation comes to ─────────────────────────────────────────

  function Joined(parts: seq<seq<Action>>): seq<Action> {
    if parts == [] then [] else Joined(parts[..|parts| - 1]) + parts[|parts| - 1]
  }

  lemma JoinedSnoc(parts: seq<seq<Action>>, p: seq<Action>)
    ensures Joined(parts + [p]) == Joined(parts) + p
  {
    assert (parts + [p])[..|parts|] == parts;
  }

  /** The last operator called `x` is the one at `j`. */
  ghost predicate LastNamed(ops: seq<Operator>, x: string, j: nat) {
    j < |ops| && ops[j].name == x && forall m :: j < m < |ops| ==> ops[m].name != x
  }

  lemma {:induction false} SomeLast(ops: seq<Operator>, x: string, n: nat) returns (j: nat)
    requires n <= |ops| && Named(ops, n, x) && forall m :: n <= m < |ops| ==> ops[m].name != x
    ensures LastNamed(ops, x, j)
  {
    if ops[n - 1].name == x {
      j := n - 1;
    } else {
      j := SomeLast(ops, x, n - 1);
    }
  }

  /** The operators act in turn, one part each: the translation of the choice made
      last for their name, nothing when that choice compresses nothing. */
  ghost predicate PartApplied(ops: seq<Operator>, choices: seq<Config>, t: Translator, op: Operator, part: seq<Action>)
    requires |choices| == |ops|
  {
    forall j: nat :: LastNamed(ops, op.name, j) ==>
        part == if choices[j] == Config(FP32, 0.0, false, None) then [] else t(op, choices[j])
  }

  lemma {:induction false} AppliedExact(ops: seq<Operator>, choices: seq<Config>, t: Translator, n: nat)
    returns (parts: seq<seq<Action>>)
    requires |choices| == |ops| && n <= |ops|
    ensures |parts| == n && Applied(ops, choices, t, n) == Joined(parts)
    ensures forall i :: 0 <= i < n ==> PartApplied(ops, choices, t, ops[i], parts[i])
  {
    parts := [];
    if n > 0 {
      var init := AppliedExact(ops, choices, t, n - 1);
      var p := OperatorApplied(ops, choices, t, n);
      JoinedSnoc(init, p);
      parts := init + [p];
    }
  }

  lemma OperatorApplied(ops: seq<Operator>, choices: seq<Config>, t: Translator, n: nat) returns (part: seq<Action>)
    requires |choices| == |ops| && 0 < n <= |ops|
    ensures Applied(ops, choices, t, n) == Applied(ops, choices, t, n - 1) + part
    ensures PartApplied(ops, choices, t, ops[n - 1], part)
  {
    var x := ops[n - 1].name;
    part := Contribution(t, Some(ops[n - 1]), Final(ops, choices, x));
    forall j: nat | LastNamed(ops, x, j) ensures Final(ops, choices, x) == Some(choices[j]) {
      FinalIsLast(ops, choices, |ops|, j);
    }
    var j := SomeLast(ops, x, |ops|);
    LastIsOne(ops, x, j);
  }

  lemma LastIsOne(ops: seq<Operator>, x: string, j: nat)
    requires LastNamed(ops, x, j)
    ensures forall m: nat :: LastNamed(ops, x, m) ==> m == j
  {
  }

  /** The record of a name: the choice made last for it, precision by its name. */
  lemma RecordExact(ops: seq<Operator>, choices: seq<Config>, x: string, j: nat) returns (e: Entry)
    requires |choices| == |ops| && LastNamed(ops, x, j)
    ensures Get(StoredAll(Chosen(ops, choices, |ops|)), x) == Some(e)
    ensures e.pruneRatio == choices[j].pruneRatio && e.fuse == choices[j].fuse
    ensures LevelNamed(e.precision, choices[j].precision)
  {
    e := Stored(choices[j]);
    FinalIsLast(ops, choices, |ops|, j);
    StoredGet(Chosen(ops, choices, |ops|), x);
  }

  lemma {:induction false} StoredGet(d: Dict<Config>, x: string)
    requires Get(d, x).Some?
    ensures Get(StoredAll(d), x) == Some(Stored(Get(d, x).value))
  {
    if d[0].0 != x {
      StoredGet(d[1..], x);
      assert StoredAll(d)[1..] == StoredAll(d[1..]);
    }
  }

  ghost predicate LevelNamed(name: string, p: Precision) {
    || (name == "FP32" && p == FP32)
    || (name == "FP16" && p == FP16)
    || (name == "INT8" && p == INT8)
    || (name == "INT4" && p == INT4)
  }

  // ── the rebuilding side ──────────────────────────────────────────────────

  /** The analysed operators by name; of two with one name the later is kept. */
  function OpMap(ops: seq<Operator>, n: nat): Dict<Operator>
    requires n <= |ops|
  {
    if n == 0 then [] else Put(OpMap(ops, n - 1), ops[n - 1].name, ops[n - 1])
  }

  lemma {:induction false} OpMapNames(ops: seq<Operator>, n: nat, x: string)
    requires n <= |ops|
    ensures Get(OpMap(ops, n), x).Some? ==> Get(OpMap(ops, n), x).value.name == x
    ensures Get(OpMap(ops, n), x).Some? <==> Named(ops, n, x)
  {
    if n > 0 {
      OpMapNames(ops, n - 1, x);
      GetPut(OpMap(ops, n - 1), ops[n - 1].name, ops[n - 1], x);
    }
  }

  lemma {:induction false} OpMapLast(ops: seq<Operator>, n: nat, i: nat)
    requires i < n <= |ops| && forall j :: i < j < n ==> ops[j].name != ops[i].name
    ensures Get(OpMap(ops, n), ops[i].name) == Some(ops[i])
  {
    GetPut(OpMap(ops, n - 1), ops[n - 1].name, ops[n - 1], ops[i].name);
    if i < n - 1 { OpMapLast(ops, n - 1, i); }
  }

  datatype Outcome = KeyError | Actions(actions: seq<Action>)

  /** `_reconstruct_model` up to its action list; operators the analysis does not
      call compressible are skipped. */
  method Reconstruct(compressible: seq<Operator>, record: Dict<Entry>, t: Translator) returns (r: Outcome)
    ensures r == Rebuilt(compressible, record, t, |record|)
  {
    var opMap := OpMap(compressible, |compressible|);
    var actions := [];
    for i := 0 to |record|
      invariant Rebuilt(compressible, record, t, i) == Actions(actions)
    {
      var op := Get(opMap, record[i].0);
      if op.None? { continue; }
      var precision := PrecisionOf(record[i].1.precision);
      if precision.None? {
        RaiseStays(compressible, record, t, i + 1, |record|);
        return KeyError;
      }
      var c := Config(precision.value, record[i].1.pruneRatio, record[i].1.fuse, None);
      if !c.NoCompression() {
        actions := actions + t(op.value, c);
      }
    }
    return Actions(actions);
  }

  function Rebuilt(compressible: seq<Operator>, record: Dict<Entry>, t: Translator, n: nat): Outcome
    requires n <= |record|
  {
    if n == 0 then Actions([])
    else
      var rest := Rebuilt(compressible, record, t, n - 1);
      var op := Get(OpMap(compressible, |compressible|), record[n - 1].0);
      var e := record[n - 1].1;
      if rest.KeyError? || op.None? then rest
      else if PrecisionOf(e.precision).None? then KeyError
      else
        var c := Config(PrecisionOf(e.precision).value, e.pruneRatio, e.fuse, None);
        if c.NoCompression() then rest else Actions(rest.actions + t(op.value, c))
  }

  lemma {:induction false} RaiseStays(compressible: seq<Operator>, record: Dict<Entry>, t: Translator, n: nat, m: nat)
    requires n <= m <= |record| && Rebuilt(compressible, record, t, n).KeyError?
    ensures Rebuilt(compressible, record, t, m).KeyError?
    decreases m
  {
    if n < m { RaiseStays(compressible, record, t, n, m - 1); }
  }

  /** Entry `k` names an operator the analysis knows, and a precision nobody does. */
  ghost predicate Unknown(all: seq<Operator>, record: Dict<Entry>, k: nat)
    requires k < |record|
  {
    Named(all, |all|, record[k].0) && record[k].1.precision !in {"FP32", "FP16", "INT8", "INT4"}
  }

  /** The entries act in turn, one part each: the translation of what is stored for
      the last operator of that name, nothing without one or without compression. */
  ghost predicate PartRebuilt(all: seq<Operator>, x: string, e: Entry, t: Translator, part: seq<Action>) {
    && (!Named(all, |all|, x) ==> part == [])
    && forall j: nat, p :: LastNamed(all, x, j) && LevelNamed(e.precision, p) ==>
         part == if p == FP32 && e.pruneRatio == 0.0 && !e.fuse then []
                 else t(all[j], Config(p, e.pruneRatio, e.fuse, None))
  }

  /** The loop raises if and only if one of the entries is of unknown precision. */
  lemma {:induction false} RebuiltRaisesIff(all: seq<Operator>, record: Dict<Entry>, t: Translator, n: nat)
    requires n <= |record|
    ensures Rebuilt(all, record, t, n).KeyError? <==> exists k :: 0 <= k < n && Unknown(all, record, k)
  {
    if n > 0 {
      RebuiltRaisesIff(all, record, t, n - 1);
      OpMapNames(all, |all|, record[n - 1].0);
      assert Rebuilt(all, record, t, n).KeyError?
        <==> Rebuilt(all, record, t, n - 1).KeyError? || Unknown(all, record, n - 1);
    }
  }

  /** Otherwise every entry acts as stored. */
  lemma {:induction false} RebuiltExact(all: seq<Operator>, record: Dict<Entry>, t: Translator, n: nat)
    returns (parts: seq<seq<Action>>)
    requires n <= |record| && !Rebuilt(all, record, t, n).KeyError?
    ensures |parts| == n && Rebuilt(all, record, t, n).actions == Joined(parts)
    ensures forall k :: 0 <= k < n ==> PartRebuilt(all, record[k].0, record[k].1, t, parts[k])
    decreases n
  {
    if n == 0 {
      return [];
    }
    var init := RebuiltExact(all, record, t, n - 1);
    var p := EntryRebuilt(all, record, t, n, record[n - 1].0, record[n - 1].1);
    EntryJoined(all, record, t, n, init, p);
    parts := init + [p];
  }

  lemma EntryJoined(all: seq<Operator>, record: Dict<Entry>, t: Translator, n: nat, init: seq<seq<Action>>,
                    part: seq<Action>)
    requires 0 < n <= |record| && !Rebuilt(all, record, t, n).KeyError?
    requires Rebuilt(all, record, t, n - 1).actions == Joined(init)
    requires Rebuilt(all, record, t, n).actions == Rebuilt(all, record, t, n - 1).actions + part
    ensures Rebuilt(all, record, t, n).actions == Joined(init + [part])
  {
    JoinedSnoc(init, part);
  }

  lemma EntryRebuilt(all: seq<Operator>, record: Dict<Entry>, t: Translator, n: nat, x: string, e: Entry)
    returns (part: seq<Action>)
    requires 0 < n <= |record| && record[n - 1] == (x, e) && !Rebuilt(all, record, t, n).KeyError?
    ensures Rebuilt(all, record, t, n).actions == Rebuilt(all, record, t, n - 1).actions + part
    ensures PartRebuilt(all, x, e, t, part)
  {
    OpMapNames(all, |all|, x);
    part := [];
    if Named(all, |all|, x) {
      var j := SomeLast(all, x, |all|);
      OpMapLast(all, |all|, j);
      LastIsOne(all, x, j);
      var c := Config(PrecisionOf(e.precision).value, e.pruneRatio, e.fuse, None);
      part := if c.NoCompression() then [] else t(all[j], c);
    }
  }

  // ── the round trip ───────────────────────────────────────────────────────

  /** The actions rebuilt name by name. */
  function OverNames(names: seq<string>, all: seq<Operator>, ops: seq<Operator>, choices: seq<Config>,
                     t: Translator): seq<Action>
    requires |choices| == |ops|
    decreases |names|
  {
    if names == [] then []
    else
      var x := names[|names| - 1];
      OverNames(names[..|names| - 1], all, ops, choices, t)
          + Contribution(t, Get(OpMap(all, |all|), x), Final(ops, choices, x))
  }

  ghost predicate NoRank(choices: seq<Config>) { forall i :: 0 <= i < |choices| ==> choices[i].approxRank == None }

  lemma {:induction false} ChosenFrom(ops: seq<Operator>, choices: seq<Config>, n: nat, k: nat)
    requires |choices| == |ops| && n <= |ops| && NoRank(choices) && k < |Chosen(ops, choices, n)|
    ensures Chosen(ops, choices, n)[k].1.approxRank == None
  {
    var d := Chosen(ops, choices, n - 1);
    if Chosen(ops, choices, n)[k].1 != choices[n - 1] {
      PutEntry(d, ops[n - 1].name, choices[n - 1], k);
      ChosenFrom(ops, choices, n - 1, k);
    }
  }

  lemma {:induction false} PutEntry<T>(d: Dict<T>, k: string, v: T, i: nat)
    requires i < |Put(d, k, v)|
    ensures Put(d, k, v)[i].1 == v || (i < |d| && Put(d, k, v)[i] == d[i])
  {
    if d != [] && d[0].0 != k && i > 0 { PutEntry(d[1..], k, v, i - 1); }
  }

  /** Names and stored form lose nothing: the rebuild is the walk over the names. */
  lemma {:induction false} RebuiltByName(ops: seq<Operator>, choices: seq<Config>, all: seq<Operator>, t: Translator,
                                         d: Dict<Config>, n: nat)
    requires |choices| == |ops| && NoRank(choices) && d == Chosen(ops, choices, |ops|) && n <= |d|
    ensures Rebuilt(all, StoredAll(d), t, n) == Actions(OverNames(Keys(d)[..n], all, ops, choices, t))
  {
    if n > 0 {
      RebuiltByName(ops, choices, all, t, d, n - 1);
      assert Keys(d)[..n][..n - 1] == Keys(d)[..n - 1] && Keys(d)[..n][n - 1] == d[n - 1].0;
      ChosenKeys(ops, choices, |ops|);
      GetAt(d, n - 1);
      ChosenFrom(ops, choices, |ops|, n - 1);
      assert StoredAll(d)[n - 1] == (d[n - 1].0, Stored(d[n - 1].1));
      RebuiltEntry(all, StoredAll(d), t, n, d[n - 1].1);
    }
  }

  /** One stored entry is read back as the configuration it came from. */
  lemma RebuiltEntry(all: seq<Operator>, record: Dict<Entry>, t: Translator, n: nat, c: Config)
    requires 0 < n <= |record| && record[n - 1].1 == Stored(c) && c.approxRank == None
    requires Rebuilt(all, record, t, n - 1).Actions?
    ensures Rebuilt(all, record, t, n)
         == Actions(Rebuilt(all, record, t, n - 1).actions
                    + Contribution(t, Get(OpMap(all, |all|), record[n - 1].0), Some(c)))
  {
  }

  /** Every compressed operator is the only one of its name that was searched, and
      the one the rebuild finds under it. */
  ghost predicate Unambiguous(ops: seq<Operator>, choices: seq<Config>, all: seq<Operator>)
    requires |choices| == |ops|
  {
    forall i {:trigger Alone(ops, all, i)} :: 0 <= i < |ops| && Compressed(ops, choices, ops[i].name) ==>
        Alone(ops, all, i)
  }

  ghost predicate Alone(ops: seq<Operator>, all: seq<Operator>, i: nat)
    requires i < |ops|
  {
    && Get(OpMap(all, |all|), ops[i].name) == Some(ops[i])
    && forall j :: 0 <= j < |ops| && j != i ==> ops[j].name != ops[i].name
  }

  ghost predicate SameWalk(ops: seq<Operator>, choices: seq<Config>, all: seq<Operator>, t: Translator, n: nat)
    requires |choices| == |ops| && n <= |ops|
  {
    exists a :: BothGive(ops, choices, all, t, n, a)
  }

  ghost predicate BothGive(ops: seq<Operator>, choices: seq<Config>, all: seq<Operator>, t: Translator, n: nat,
                           a: seq<Action>)
    requires |choices| == |ops| && n <= |ops|
  {
    Applied(ops, choices, t, n) == a && OverNames(Keys(Chosen(ops, choices, n)), all, ops, choices, t) == a
  }

  /** Walking the operators and walking the names then give the same actions. */
  lemma {:induction false} AppliedByName(ops: seq<Operator>, choices: seq<Config>, all: seq<Operator>, t: Translator,
                                         n: nat)
    requires |choices| == |ops| && n <= |ops| && Unambiguous(ops, choices, all)
    ensures SameWalk(ops, choices, all, t, n)
    decreases n
  {
    if n == 0 {
      NoNames(ops, choices, all, t);
      return;
    }
    AppliedByName(ops, choices, all, t, n - 1);
    NextName(ops, choices, all, t, n);
  }

  lemma NoNames(ops: seq<Operator>, choices: seq<Config>, all: seq<Operator>, t: Translator)
    requires |choices| == |ops|
    ensures SameWalk(ops, choices, all, t, 0)
  {
    assert Keys(Chosen(ops, choices, 0)) == [];
    assert BothGive(ops, choices, all, t, 0, []);
  }

  lemma NamesGrow(ops: seq<Operator>, choices: seq<Config>, n: nat)
    requires |choices| == |ops| && 0 < n <= |ops|
    ensures var names := Keys(Chosen(ops, choices, n - 1));
            Keys(Chosen(ops, choices, n)) == if ops[n - 1].name in names then names else names + [ops[n - 1].name]
  {
    ChosenKeys(ops, choices, n - 1);
    PutKeys(Chosen(ops, choices, n - 1), ops[n - 1].name, choices[n - 1]);
  }

  lemma RepeatedIsUncompressed(ops: seq<Operator>, choices: seq<Config>, all: seq<Operator>, n: nat)
    requires |choices| == |ops| && 0 < n <= |ops| && Unambiguous(ops, choices, all)
    requires ops[n - 1].name in Keys(Chosen(ops, choices, n - 1))
    ensures !Compressed(ops, choices, ops[n - 1].name)
  {
    ChosenKeys(ops, choices, n - 1);
    assert Named(ops, n - 1, ops[n - 1].name);
    var i :| 0 <= i < n - 1 && ops[i].name == ops[n - 1].name;
    assert !Alone(ops, all, n - 1);
  }

  lemma NextName(ops: seq<Operator>, choices: seq<Config>, all: seq<Operator>, t: Translator, n: nat)
    requires |choices| == |ops| && 0 < n <= |ops| && Unambiguous(ops, choices, all)
    requires SameWalk(ops, choices, all, t, n - 1)
    ensures SameWalk(ops, choices, all, t, n)
  {
    var a :| BothGive(ops, choices, all, t, n - 1, a);
    var x, names := ops[n - 1].name, Keys(Chosen(ops, choices, n - 1));
    NamesGrow(ops, choices, n);
    FinalSome(ops, choices, n - 1);
    if x in names {
      RepeatedName(ops, choices, all, t, n, a);
    } else {
      NewName(ops, choices, all, t, n, x, names, a);
    }
  }

  lemma RepeatedName(ops: seq<Operator>, choices: seq<Config>, all: seq<Operator>, t: Translator, n: nat,
                     a: seq<Action>)
    requires |choices| == |ops| && 0 < n <= |ops| && Unambiguous(ops, choices, all)
    requires BothGive(ops, choices, all, t, n - 1, a) && Final(ops, choices, ops[n - 1].name).Some?
    requires ops[n - 1].name in Keys(Chosen(ops, choices, n - 1))
    requires Keys(Chosen(ops, choices, n)) == Keys(Chosen(ops, choices, n - 1))
    ensures BothGive(ops, choices, all, t, n, a)
  {
    RepeatedIsUncompressed(ops, choices, all, n);
    assert Contribution(t, Some(ops[n - 1]), Final(ops, choices, ops[n - 1].name)) == [];
    assert a + [] == a;
  }

  lemma NewName(ops: seq<Operator>, choices: seq<Config>, all: seq<Operator>, t: Translator, n: nat, x: string,
                names: seq<string>, a: seq<Action>)
    requires |choices| == |ops| && 0 < n <= |ops| && Unambiguous(ops, choices, all) && x == ops[n - 1].name
    requires BothGive(ops, choices, all, t, n - 1, a) && Final(ops, choices, x).Some?
    requires names == Keys(Chosen(ops, choices, n - 1)) && Keys(Chosen(ops, choices, n)) == names + [x]
    ensures BothGive(ops, choices, all, t, n, a + Contribution(t, Some(ops[n - 1]), Final(ops, choices, x)))
  {
    var c := Final(ops, choices, x);
    assert Compressed(ops, choices, x) ==> Alone(ops, all, n - 1);
    assert Contribution(t, Some(ops[n - 1]), c) == Contribution(t, Get(OpMap(all, |all|), x), c);
    assert (names + [x])[..|names|] == names;
    LastOfNames(names + [x], names, x, all, ops, choices, t);
  }

  lemma LastOfNames(names: seq<string>, init: seq<string>, x: string, all: seq<Operator>, ops: seq<Operator>,
                    choices: seq<Config>, t: Translator)
    requires |choices| == |ops| && names != [] && names[..|names| - 1] == init && names[|names| - 1] == x
    ensures OverNames(names, all, ops, choices, t)
         == OverNames(init, all, ops, choices, t) + Contribution(t, Get(OpMap(all, |all|), x), Final(ops, choices, x))
  {
  }

  // an ambiguous trial can be told apart

  /** Translates one operator to one action and all others to nothing. */
  function Mark(op: Operator): Translator { (o, c) => if o == op then [Action(o.name, "mark", "")] else [] }

  function Copies(ops: seq<Operator>, op: Operator, n: nat): nat
    requires n <= |ops|
  {
    if n == 0 then 0 else Copies(ops, op, n - 1) + if ops[n - 1] == op then 1 else 0
  }

  lemma {:induction false} TwoCopies(ops: seq<Operator>, i: nat, j: nat, n: nat)
    requires i <= j < n <= |ops| && ops[i] == ops[j]
    ensures Copies(ops, ops[i], n) >= if i < j then 2 else 1
  {
    if j < n - 1 {
      TwoCopies(ops, i, j, n - 1);
    } else if i < j {
      TwoCopies(ops, i, i, n - 1);
    }
  }

  /** Walking the operators marks every copy of a compressed one. */
  lemma {:induction false} MarksApplied(ops: seq<Operator>, choices: seq<Config>, op: Operator, n: nat)
    requires |choices| == |ops| && n <= |ops| && Compressed(ops, choices, op.name)
    ensures |Applied(ops, choices, Mark(op), n)| == Copies(ops, op, n)
  {
    if n > 0 {
      MarksApplied(ops, choices, op, n - 1);
      MarkStep(ops, choices, op, n);
    }
  }

  lemma MarkStep(ops: seq<Operator>, choices: seq<Config>, op: Operator, n: nat)
    requires |choices| == |ops| && 0 < n <= |ops| && Compressed(ops, choices, op.name)
    ensures var was, now := |Applied(ops, choices, Mark(op), n - 1)|, |Applied(ops, choices, Mark(op), n)|;
            now == was + if ops[n - 1] == op then 1 else 0
  {
  }

  /** Walking the names marks an operator once, and only if its name finds it. */
  lemma {:induction false} MarksRebuilt(names: seq<string>, all: seq<Operator>, ops: seq<Operator>,
                                        choices: seq<Config>, op: Operator)
    requires |choices| == |ops| && NoRepeats(names)
    ensures |OverNames(names, all, ops, choices, Mark(op))|
            <= if op.name in names && Get(OpMap(all, |all|), op.name) == Some(op) then 1 else 0
    decreases |names|
  {
    if names != [] {
      var x := names[|names| - 1];
      var init := names[..|names| - 1];
      assert names == init + [x];
      MarksRebuilt(init, all, ops, choices, op);
      OpMapNames(all, |all|, x);
      if x == op.name {
        assert x !in init;
      }
    }
  }

  lemma AmbiguousDiffers(ops: seq<Operator>, choices: seq<Config>, all: seq<Operator>) returns (op: Operator)
    requires |choices| == |ops| && !Unambiguous(ops, choices, all)
    ensures var names := Keys(Chosen(ops, choices, |ops|));
            Applied(ops, choices, Mark(op), |ops|) != OverNames(names, all, ops, choices, Mark(op))
  {
    var names := Keys(Chosen(ops, choices, |ops|));
    ChosenKeys(ops, choices, |ops|);
    var i :| 0 <= i < |ops| && Compressed(ops, choices, ops[i].name) && !Alone(ops, all, i);
    op := ops[i];
    var first, second := i, i;
    if Get(OpMap(all, |all|), ops[i].name) == Some(ops[i]) {
      var j :| 0 <= j < |ops| && j != i && ops[j].name == ops[i].name;
      if ops[j] != ops[i] {
        op, first, second := ops[j], j, j;
      } else if j < i {
        first := j;
      } else {
        second := j;
      }
    }
    TwoCopies(ops, first, second, |ops|);
    MarksApplied(ops, choices, op, |ops|);
    MarksRebuilt(names, all, ops, choices, op);
  }

  /** Whatever configurations translate to, the rebuilt actions are those the trial
      was measured with, if and only if every compressed operator is the only
      searched one of its name and the one the later analysis knows by it.  `all`
      may be the capped list of the search or the full one of that analysis. */
  lemma RebuildMatchesIff(ops: seq<Operator>, choices: seq<Config>, all: seq<Operator>)
    requires |choices| == |ops| && NoRank(choices)
    ensures var record := StoredAll(Chosen(ops, choices, |ops|));
            Unambiguous(ops, choices, all)
            <==> forall t :: Rebuilt(all, record, t, |record|) == Actions(Applied(ops, choices, t, |ops|))
  {
    var d := Chosen(ops, choices, |ops|);
    var record := StoredAll(d);
    assert Keys(d)[..|d|] == Keys(d);
    if Unambiguous(ops, choices, all) {
      forall t ensures Rebuilt(all, record, t, |record|) == Actions(Applied(ops, choices, t, |ops|)) {
        RebuiltByName(ops, choices, all, t, d, |d|);
        AppliedByName(ops, choices, all, t, |ops|);
      }
    } else {
      var op := AmbiguousDiffers(ops, choices, all);
      RebuiltByName(ops, choices, all, Mark(op), d, |d|);
      assert Rebuilt(all, record, Mark(op), |record|) != Actions(Applied(ops, choices, Mark(op), |ops|));
    }
  }

  predicate DistinctNames(ops: seq<Operator>) {
    forall i, j :: 0 <= i < j < |ops| ==> ops[i].name != ops[j].name
  }

  /** Rebuilt over the operators that were searched: exact if and only if operators
      that share a name are stored uncompressed. */
  lemma SharedNamesIff(ops: seq<Operator>, choices: seq<Config>)
    requires |choices| == |ops| && NoRank(choices)
    ensures var record := StoredAll(Chosen(ops, choices, |ops|));
            (forall i, j :: 0 <= i < j < |ops| && ops[i].name == ops[j].name ==> !Compressed(ops, choices, ops[i].name))
            <==> forall t :: Rebuilt(ops, record, t, |record|) == Actions(Applied(ops, choices, t, |ops|))
  {
    RebuildMatchesIff(ops, choices, ops);
    if forall i, j :: 0 <= i < j < |ops| && ops[i].name == ops[j].name ==> !Compressed(ops, choices, ops[i].name) {
      forall i | 0 <= i < |ops| && Compressed(ops, choices, ops[i].name)
        ensures Get(OpMap(ops, |ops|), ops[i].name) == Some(ops[i])
      {
        OpMapLast(ops, |ops|, i);
      }
      assert Unambiguous(ops, choices, ops);
    } else {
      var i, j :| 0 <= i < j < |ops| && ops[i].name == ops[j].name && Compressed(ops, choices, ops[i].name);
      assert !Alone(ops, ops, i);
    }
  }

  /** In particular, with distinct names everything is rebuilt, from the capped list
      or from any longer one with distinct names. */
  lemma RebuildMatchesTrial(ops: seq<Operator>, choices: seq<Config>, all: seq<Operator>, t: Translator)
    requires |choices| == |ops| && NoRank(choices)
    requires DistinctNames(ops) && DistinctNames(all) && forall i :: 0 <= i < |ops| ==> ops[i] in all
    ensures var record := StoredAll(Chosen(ops, choices, |ops|));
            Rebuilt(all, record, t, |record|) == Actions(Applied(ops, choices, t, |ops|))
  {
    forall i | 0 <= i < |ops| ensures Get(OpMap(all, |all|), ops[i].name) == Some(ops[i]) {
      var k :| 0 <= k < |all| && all[k] == ops[i];
      OpMapLast(all, |all|, k);
    }
    assert Unambiguous(ops, choices, all);
    RebuildMatchesIff(ops, choices, all);
  }
}
