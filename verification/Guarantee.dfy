/** The compression ladder with its fidelity gate (astra/core/guarantee.py) and
    the decision which candidate is served (Phase 4 of app/engine/adapter.py).

    Building a rung and measuring fidelity are oracles: any answer, including an
    error, is possible. */
module Guarantee {
  import opened Options

  const ORIGINAL := "ORIGINAL"
  const PARETO_CERTIFIED := "PARETO_CERTIFIED"

  datatype Model = Model(id: nat, bytes: nat)
  datatype Build = BuildError | NotApplicable | Built(candidate: Model)
  datatype Gate = GateError | Scored(ofs: real)

  datatype Reason = Accepted | BuildFailed | Skipped | BelowTau | NoReduction | Fallback
  datatype Report = Report(rung: string, attempted: bool, accepted: bool, reason: Reason)
  datatype Result = NoRungs | Result(model: Model, rung: string, ofs: real, reports: seq<Report>)

  /** `gate_check`: an error scores 0. */
  function Ofs(g: Gate): real { if g.Scored? then g.ofs else 0.0 }

  function WithFallback(rungs: seq<string>): seq<string>
    requires rungs != []
  {
    if rungs[|rungs| - 1] != ORIGINAL then rungs + [ORIGINAL] else rungs
  }

  predicate Admissible(original: Model, tau: real, b: Build, gate: Model -> Gate) {
    b.Built? && Ofs(gate(b.candidate)) >= tau && b.candidate.bytes < original.bytes
  }

  function Verdict(rung: string, original: Model, tau: real, b: Build, gate: Model -> Gate): Report {
    match b
    case BuildError => Report(rung, true, false, BuildFailed)
    case NotApplicable => Report(rung, false, false, Skipped)
    case Built(m) =>
      if Ofs(gate(m)) < tau then Report(rung, true, false, BelowTau)
      else if m.bytes >= original.bytes then Report(rung, true, false, NoReduction)
      else Report(rung, true, true, Accepted)
  }

  /** What the caller of the ladder relies on: the first admissible rung, every
      earlier one reported with its reason, the original if there is none. */
  ghost predicate FirstAdmissible(r: Result, original: Model, tau: real, rungs: seq<string>,
                                  build: string -> Build, gate: Model -> Gate)
    requires rungs != []
  {
    var all := WithFallback(rungs);
    var last := |all| - 1;
    && r.Result?
    && 1 <= |r.reports| <= |all|
    && (forall i :: 0 <= i < |r.reports| - 1 ==>
          !Admissible(original, tau, build(all[i]), gate)
          && r.reports[i] == Verdict(all[i], original, tau, build(all[i]), gate))
    && r.rung == all[|r.reports| - 1]
    && r.reports[|r.reports| - 1].rung == r.rung && r.reports[|r.reports| - 1].accepted
    && (if |r.reports| - 1 < last
        then Admissible(original, tau, build(r.rung), gate)
             && r.model == build(r.rung).candidate && r.ofs == Ofs(gate(r.model))
        else r.rung == ORIGINAL && r.model == original && r.ofs == 1.0)
  }

  method GuaranteeCompress(original: Model, tau: real, rungs: seq<string>,
                           build: string -> Build, gate: Model -> Gate)
    returns (r: Result)
    ensures rungs == [] <==> r.NoRungs?
    ensures rungs != [] ==> FirstAdmissible(r, original, tau, rungs, build, gate)
    ensures rungs != [] ==> InTurn(r, original, rungs)
    ensures rungs != [] && tau > 0.0 ==> Gated(r, original, tau, gate)
    ensures rungs != [] ==> AllExplained(r, original, tau, build, gate)
  {
    if rungs == [] {
      return NoRungs;
    }
    var all := rungs;
    if all[|all| - 1] != ORIGINAL {
      all := all + [ORIGINAL];
    }
    var reports := [];
    for i := 0 to |all| - 1
      invariant |reports| == i
      invariant forall k :: 0 <= k < i ==>
        !Admissible(original, tau, build(all[k]), gate)
        && reports[k] == Verdict(all[k], original, tau, build(all[k]), gate)
    {
      var b := build(all[i]);
      if b.BuildError? {
        reports := reports + [Report(all[i], true, false, BuildFailed)];
        continue;
      }
      if b.NotApplicable? {
        reports := reports + [Report(all[i], false, false, Skipped)];
        continue;
      }
      var ofs := Ofs(gate(b.candidate));
      if ofs < tau {
        reports := reports + [Report(all[i], true, false, BelowTau)];
      } else if b.candidate.bytes >= original.bytes {
        reports := reports + [Report(all[i], true, false, NoReduction)];
      } else {
        reports := reports + [Report(all[i], true, true, Accepted)];
        r := Result(b.candidate, all[i], ofs, reports);
        FirstExact(r, original, tau, rungs, build, gate);
        return;
      }
    }
    reports := reports + [Report(ORIGINAL, true, true, Fallback)];
    r := Result(original, ORIGINAL, 1.0, reports);
    FirstExact(r, original, tau, rungs, build, gate);
  }

  lemma FirstExact(r: Result, original: Model, tau: real, rungs: seq<string>, build: string -> Build,
                   gate: Model -> Gate)
    requires rungs != [] && FirstAdmissible(r, original, tau, rungs, build, gate)
    ensures InTurn(r, original, rungs) && AllExplained(r, original, tau, build, gate)
    ensures tau > 0.0 ==> Gated(r, original, tau, gate)
  {
  }

  /** The rungs are tried in the caller's order, one report each, up to the rung that
      is returned; after all of them comes the original, unless it ended the list. */
  ghost predicate InTurn(r: Result, original: Model, rungs: seq<string>)
    requires rungs != [] && r.Result?
  {
    && r.reports != [] && r.reports[|r.reports| - 1].rung == r.rung
    && (forall i :: 0 <= i < |r.reports| ==> r.reports[i].rung == if i < |rungs| then rungs[i] else ORIGINAL)
    && (r.model.bytes >= original.bytes ==>
          |r.reports| == if rungs[|rungs| - 1] == ORIGINAL then |rungs| else |rungs| + 1)
  }

  /** For a positive threshold: the original, or a model the gate scored, at least
      `tau`, with that score on record. */
  ghost predicate Gated(r: Result, original: Model, tau: real, gate: Model -> Gate)
    requires r.Result?
  {
    || (r.model == original && r.rung == ORIGINAL && r.ofs == 1.0)
    || (gate(r.model).Scored? && gate(r.model).ofs >= tau && r.ofs == gate(r.model).ofs)
  }

  ghost predicate AllExplained(r: Result, original: Model, tau: real, build: string -> Build, gate: Model -> Gate)
    requires r.Result?
  {
    forall i :: 0 <= i < |r.reports| - 1 ==> Explained(r.reports[i], original, tau, build, gate)
  }

  /** Why a rung was passed over: it did not build, does not apply, scored below
      `tau` (an error counts as 0), or is no smaller than the original. */
  ghost predicate Explained(p: Report, original: Model, tau: real, build: string -> Build, gate: Model -> Gate) {
    && !p.accepted
    && match build(p.rung)
       case BuildError => p.attempted && p.reason == BuildFailed
       case NotApplicable => !p.attempted && p.reason == Skipped
       case Built(m) =>
         var low := if gate(m).Scored? then gate(m).ofs < tau else 0.0 < tau;
         p.attempted && (low || m.bytes >= original.bytes) && p.reason == if low then BelowTau else NoReduction
  }

  /** The structural guarantee, for any ladder, builder and gate. */
  lemma LadderGuarantee(r: Result, original: Model, tau: real, rungs: seq<string>,
                        build: string -> Build, gate: Model -> Gate)
    requires rungs != [] && tau <= 1.0 && FirstAdmissible(r, original, tau, rungs, build, gate)
    ensures r.ofs >= tau && r.model.bytes <= original.bytes
    ensures r.model == original
            || (r.model.bytes < original.bytes && Certified(r.model, original, tau, gate)
                && (tau > 0.0 ==> Gated(r, original, tau, gate)))
  {
  }

  // ── the Pareto pick ──────────────────────────────────────────────────────

  datatype Point = Point(trial: nat, accuracy: real)

  predicate SortedByAccuracy(points: seq<Point>) {
    forall a, b :: 0 <= a < b < |points| ==> points[a].accuracy >= points[b].accuracy
  }

  /** The first candidate within 5 % of the original's accuracy, or the most
      accurate one if none is. */
  method PickCandidate(candidates: seq<Point>, baseline: real) returns (chosen: Point)
    requires candidates != [] && SortedByAccuracy(candidates)
    // the list is sorted, so the 95 % threshold never changes the answer
    ensures chosen == candidates[0]
  {
    for i := 0 to |candidates|
      invariant forall k :: 0 <= k < i ==> candidates[k].accuracy < baseline * 0.95
    {
      if candidates[i].accuracy >= baseline * 0.95 {
        return candidates[i];
      }
    }
    return candidates[0];
  }

  // ── what is served ───────────────────────────────────────────────────────

  datatype Served = Served(model: Model, rung: Option<string>, ofs: Option<real>, chosen: Option<Point>)

  /** Phase 4: `ladder` is the ladder's result if it ran and did not raise;
      `points` are the Pareto points sorted by accuracy, `rebuild` the model of a
      point, `fallbackModel` the single UOSA-guided pass. */
  method Serve(tau: real, ladder: Option<Result>, points: seq<Point>, baseline: real,
               rebuild: Point -> Model, gate: Model -> Gate, fallbackModel: Model)
    returns (s: Served)
    requires SortedByAccuracy(points)
    requires ladder.Some? ==> ladder.value.Result?
    ensures ServedRight(s, tau, ladder, points, rebuild, gate, fallbackModel)
  {
    var chosen: Option<Point> := None;
    var compressed: Option<Model> := None;
    var rung: Option<string> := None;
    var ofs: Option<real> := None;
    if points != [] {
      var p := PickCandidate(points, baseline);
      chosen := Some(p);
      compressed := Some(rebuild(p));
    }
    if ladder.Some? {
      var ladderBytes := ladder.value.model.bytes;
      var paretoOk := false;
      if compressed.Some? {
        var ofsP := Ofs(gate(compressed.value));
        paretoOk := ofsP >= tau && compressed.value.bytes < ladderBytes;
        if paretoOk {
          rung := Some(PARETO_CERTIFIED);
          ofs := Some(ofsP);
        }
      }
      if !paretoOk {
        compressed := Some(ladder.value.model);
        chosen := None;
        rung := Some(ladder.value.rung);
        ofs := Some(ladder.value.ofs);
      }
    }
    if compressed.None? {
      compressed := Some(fallbackModel);
    }
    s := Served(compressed.value, rung, ofs, chosen);
  }

  ghost predicate ServedRight(s: Served, tau: real, ladder: Option<Result>, points: seq<Point>,
                              rebuild: Point -> Model, gate: Model -> Gate, fallbackModel: Model)
    requires ladder.Some? ==> ladder.value.Result?
  {
    var pick := if points != [] then Some(points[0]) else None;
    if ladder.Some? then
      var floor := ladder.value;
      var answer := if pick.Some? then gate(rebuild(pick.value)) else GateError;
      var score := if answer.Scored? then answer.ofs else 0.0;
      if pick.Some? && score >= tau && rebuild(pick.value).bytes < floor.model.bytes
      then s == Served(rebuild(pick.value), Some(PARETO_CERTIFIED), Some(score), pick)
      else s == Served(floor.model, Some(floor.rung), Some(floor.ofs), None)
    else if pick.Some? then s == Served(rebuild(pick.value), None, None, pick)
    else s == Served(fallbackModel, None, None, None)
  }

  /** After a successful ladder, whatever is served is the original or passed the
      gate at `tau`, and is no larger than the ladder's model or the original; the
      recorded fidelity meets `tau`, and a trial is named exactly when the
      certified Pareto pick won. */
  lemma ServedIsCertified(s: Served, original: Model, tau: real, rungs: seq<string>, build: string -> Build,
                          ladder: Result, points: seq<Point>, rebuild: Point -> Model, gate: Model -> Gate,
                          fallbackModel: Model)
    requires tau <= 1.0 && rungs != [] && PARETO_CERTIFIED !in rungs
    requires FirstAdmissible(ladder, original, tau, rungs, build, gate)
    requires ServedRight(s, tau, Some(ladder), points, rebuild, gate, fallbackModel)
    ensures Certified(s.model, original, tau, gate)
    ensures tau > 0.0 && s.model != original ==>
              gate(s.model).Scored? && gate(s.model).ofs >= tau && s.ofs == Some(gate(s.model).ofs)
    ensures s.model.bytes <= ladder.model.bytes <= original.bytes
    ensures s.ofs.Some? && s.ofs.value >= tau
    ensures s.chosen.Some? <==> s.rung == Some(PARETO_CERTIFIED)
    ensures s.model == original || s.model.bytes < original.bytes
  {
    LadderGuarantee(ladder, original, tau, rungs, build, gate);
    var all := WithFallback(rungs);
    assert ladder.rung in all;
  }

  /** What phase 4 starts from: the ladder of this gate if it ran through, and the
      model that would be served without one. */
  ghost predicate LadderOutcome(ladder: Option<Result>, ran: bool, original: Model, tau: real, rungs: seq<string>,
                                build: string -> Build, gate: Model -> Gate)
    requires rungs != []
  {
    && ladder.Some? == ran
    && (ran ==> FirstAdmissible(ladder.value, original, tau, rungs, build, gate))
  }

  function Unladdered(points: seq<Point>, rebuild: Point -> Model, fallbackModel: Model): Model {
    if points != [] then rebuild(points[0]) else fallbackModel
  }

  /** The original, or a model the gate scored, at least `tau`.  (A threshold of 0
      or less also lets an error pass, which counts as 0.) */
  ghost predicate Certified(m: Model, original: Model, tau: real, gate: Model -> Gate) {
    || m == original
    || match gate(m) {
         case Scored(ofs) => ofs >= tau
         case GateError => tau <= 0.0
       }
  }

  /** Whatever the gate answers, the served model is the original or passed it, if
      and only if a ladder result exists or the model picked without one is the
      original itself. */
  lemma CertifiedIff(ran: bool, original: Model, tau: real, rungs: seq<string>, build: string -> Build,
                     points: seq<Point>, rebuild: Point -> Model, fallbackModel: Model)
    requires tau <= 1.0 && rungs != [] && PARETO_CERTIFIED !in rungs
    ensures ran || Unladdered(points, rebuild, fallbackModel) == original
            <==> forall gate, ladder, s ::
                   LadderOutcome(ladder, ran, original, tau, rungs, build, gate)
                   && ServedRight(s, tau, ladder, points, rebuild, gate, fallbackModel)
                   ==> Certified(s.model, original, tau, gate)
  {
    var pick := Unladdered(points, rebuild, fallbackModel);
    if ran || pick == original {
      forall gate, ladder, s
        | LadderOutcome(ladder, ran, original, tau, rungs, build, gate)
          && ServedRight(s, tau, ladder, points, rebuild, gate, fallbackModel)
        ensures Certified(s.model, original, tau, gate)
      {
        if ran {
          ServedIsCertified(s, original, tau, rungs, build, ladder.value, points, rebuild, gate, fallbackModel);
        }
      }
    } else {
      var gate := (m: Model) => Scored(tau - 1.0);
      var s := Served(pick, None, None, if points != [] then Some(points[0]) else None);
      assert LadderOutcome(None, ran, original, tau, rungs, build, gate);
      assert ServedRight(s, tau, None, points, rebuild, gate, fallbackModel);
      assert !Certified(s.model, original, tau, gate);
    }
  }
}
