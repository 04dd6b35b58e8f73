/** The life of an uploaded model: the `/ingestion/complete` handshake
    (app/routers/models.py), the worker's final commit (app/services/jobs.py), the
    orphan reaper and the deploy badge (app/repositories.py) and deployments
    (app/routers/deployments.py), interleaved transaction by transaction. */
module Lifecycle {
  import opened Options

  datatype Status = Analyzing | Optimizing | Draft | Deployed | Failed
  datatype RunStatus = Streaming | Completed | RunFailed

  predicate Busy(s: Status) { s.Analyzing? || s.Optimizing? }

  /** `servable` says that the artifact key names an executable ONNX file;
      `result` is the measured accuracy once the worker recorded it. */
  datatype Model = Model(status: Status, run: Option<nat>, isDeployed: bool, servable: bool, result: Option<nat>)
  datatype Run = Run(model: nat, startedAt: int, status: RunStatus)

  /** Where a `/ingestion/complete` request stands between its transactions. */
  datatype Pc = Seen(run: Option<nat>) | Missed | Finalizing(run: Option<nat>) | Returned
  datatype Handler = Handler(model: nat, pc: Pc)

  /** A reaper pass: runs still to look at, runs decided (with whether the model
      is released too), and whether it has committed. */
  datatype Reaper = Reaper(at: int, todo: seq<nat>, decided: seq<(nat, bool)>, committed: bool)

  datatype Db = Db(
    clock: int, models: map<nat, Model>, runs: map<nat, Run>, deployments: map<nat, nat>,
    handlers: seq<Handler>, reapers: seq<Reaper>,
    /** runs whose worker has not made its final commit */
    working: set<nat>,
    /** runs whose success was committed while their model was busy */
    finished: set<nat>)

  /** `maxAge` is the reaper's horizon; `lifetime` bounds how long after upload a
      worker may still commit a success, queueing included. */
  datatype Config = Config(maxAge: nat, lifetime: nat)

  datatype Action =
    | Tick(elapsed: nat)
    | Upload(model: nat, run: nat)
    | Begin(model: nat)
    | Update(handler: nat)
    | Refresh(handler: nat)
    | Finalize(handler: nat, cached: Option<nat>)
    | Succeed(run: nat, servable: bool, result: nat)
    | Fail(run: nat)
    | Crash(run: nat)
    | Scan(order: seq<nat>)
    | Load(reaper: nat)
    | Reap(reaper: nat)
    | Deploy(model: nat, deployment: nat)
    | Undeploy(deployment: nat)
    | ReconcileDeploys

  function Init(clock: int): Db { Db(clock, map[], map[], map[], [], [], {}, {}) }

  // ── transactions ─────────────────────────────────────────────────────────

  /** `_start_ingestion`. */
  function Uploaded(db: Db, m: nat, r: nat): Db {
    db.(models := db.models[m := Model(Analyzing, Some(r), false, false, None)],
        runs := db.runs[r := Run(m, db.clock, Streaming)],
        working := db.working + {r})
  }

  function SetPc(db: Db, h: nat, pc: Pc): Db
    requires h < |db.handlers|
  {
    db.(handlers := db.handlers[h := db.handlers[h].(pc := pc)])
  }

  /** The guarded UPDATE of `ingestion_complete`. */
  function GuardedUpdate(db: Db, h: nat, rid: Option<nat>): Db
    requires h < |db.handlers|
  {
    var m := db.handlers[h].model;
    if rid.Some? && m in db.models && db.models[m].status.Analyzing? && rid.value in db.runs
        && db.runs[rid.value].status.Streaming? then
      SetPc(db.(models := db.models[m := db.models[m].(status := Optimizing)]), h, Returned)
    else SetPc(db, h, Missed)
  }

  /** The fall-through of `ingestion_complete`: overwrite the row. */
  function Finalized(db: Db, h: nat, rid: Option<nat>, cached: Option<nat>): Db
    requires h < |db.handlers|
  {
    var m := db.handlers[h].model;
    if m !in db.models then SetPc(db, h, Returned)
    else
      var failed := rid.Some? && rid.value in db.runs && db.runs[rid.value].status.RunFailed?;
      var x := db.models[m];
      var y := if failed then x.(status := Failed, run := None)
               else x.(status := Draft, run := None, result := if cached.Some? then cached else x.result);
      SetPc(db.(models := db.models[m := y]), h, Returned)
  }

  /** `_on_success`: run and model in one commit. */
  function Succeeded(db: Db, r: nat, servable: bool, result: nat): Db
    requires r in db.runs
  {
    var m := db.runs[r].model;
    var db1 := db.(runs := db.runs[r := db.runs[r].(status := Completed)], working := db.working - {r});
    if m !in db.models then db1
    else
      var x := db.models[m].(servable := servable);
      if Busy(x.status) then
        db1.(models := db.models[m := x.(status := Draft, run := None, result := Some(result))],
             finished := db.finished + {r})
      else db1.(models := db.models[m := x])
  }

  /** `_on_failure`. */
  function FailedJob(db: Db, r: nat): Db
    requires r in db.runs
  {
    var m := db.runs[r].model;
    var db1 := db.(runs := db.runs[r := db.runs[r].(status := RunFailed)], working := db.working - {r});
    if m in db.models && !db.models[m].status.Deployed? then
      db1.(models := db.models[m := db.models[m].(status := Failed, run := None)])
    else db1
  }

  predicate Orphaned(c: Config, db: Db, r: nat) {
    r in db.runs && db.runs[r].status.Streaming? && db.clock - db.runs[r].startedAt >= c.maxAge
  }

  /** Would the reaper release the model of `r` as the database now stands? */
  predicate Releases(db: Db, r: nat) {
    && r in db.runs && db.runs[r].model in db.models
    && Busy(db.models[db.runs[r].model].status) && db.models[db.runs[r].model].run == Some(r)
  }

  predicate Marked(decided: seq<(nat, bool)>, r: nat) { exists i :: 0 <= i < |decided| && decided[i].0 == r }

  predicate Released(db: Db, decided: seq<(nat, bool)>, m: nat) {
    exists i :: 0 <= i < |decided| && decided[i].1 && decided[i].0 in db.runs && db.runs[decided[i].0].model == m
  }

  /** The reaper's commit: whatever happened since it read the rows. */
  function Reaped(db: Db, decided: seq<(nat, bool)>): Db {
    db.(runs := map r | r in db.runs :: if Marked(decided, r) then db.runs[r].(status := RunFailed) else db.runs[r],
        models := map m | m in db.models ::
          if Released(db, decided, m) then db.models[m].(status := Failed, run := None) else db.models[m])
  }

  function DeployedTo(db: Db, m: nat, d: nat): Db
    requires m in db.models
  {
    db.(models := db.models[m := db.models[m].(status := Deployed, isDeployed := true)],
        deployments := db.deployments[d := m])
  }

  function Undeployed(db: Db, d: nat): Db
    requires d in db.deployments
  {
    var m := db.deployments[d];
    var left := map k | k in db.deployments && k != d :: db.deployments[k];
    var db1 := db.(deployments := left);
    if m in db.models && !(exists k :: k in left && left[k] == m) then
      var x := db.models[m];
      db1.(models := db.models[m := x.(isDeployed := false, status := if x.status.Deployed? then Draft else x.status)])
    else db1
  }

  function BadgesHealed(db: Db): Db {
    db.(models := map m | m in db.models ::
          if db.models[m].isDeployed && db.models[m].status.Draft? then db.models[m].(status := Deployed)
          else db.models[m])
  }

  ghost predicate Enabled(c: Config, db: Db, a: Action) {
    match a
    case Tick(_) => true
    case Upload(m, r) => m !in db.models && r !in db.runs
    case Begin(m) => m in db.models
    case Update(h) => h < |db.handlers| && db.handlers[h].pc.Seen?
    case Refresh(h) => h < |db.handlers| && db.handlers[h].pc.Missed?
    case Finalize(h, _) => h < |db.handlers| && db.handlers[h].pc.Finalizing?
    case Succeed(r, _, _) => r in db.runs && r in db.working && db.clock - db.runs[r].startedAt <= c.lifetime
    case Fail(r) => r in db.runs && r in db.working
    case Crash(r) => r in db.working
    case Scan(order) => (forall r :: r in order <==> Orphaned(c, db, r))
    case Load(k) => k < |db.reapers| && db.reapers[k].todo != []
    case Reap(k) => k < |db.reapers| && db.reapers[k].todo == [] && !db.reapers[k].committed
    case Deploy(m, d) => m in db.models && db.models[m].servable && d !in db.deployments
    case Undeploy(d) => d in db.deployments
    case ReconcileDeploys => true
  }

  ghost function Step(c: Config, db: Db, a: Action): Db
    requires Enabled(c, db, a)
  {
    match a
    case Tick(elapsed) => db.(clock := db.clock + elapsed)
    case Upload(m, r) => Uploaded(db, m, r)
    case Begin(m) =>
      db.(handlers := db.handlers
          + [Handler(m, if db.models[m].status.Analyzing? then Seen(db.models[m].run) else Returned)])
    case Update(h) => GuardedUpdate(db, h, db.handlers[h].pc.run)
    case Refresh(h) =>
      var m := db.handlers[h].model;
      SetPc(db, h, if m in db.models && db.models[m].status.Analyzing? then Finalizing(db.models[m].run) else Returned)
    case Finalize(h, cached) => Finalized(db, h, db.handlers[h].pc.run, cached)
    case Succeed(r, servable, result) => Succeeded(db, r, servable, result)
    case Fail(r) => FailedJob(db, r)
    case Crash(r) => db.(working := db.working - {r})
    case Scan(order) => db.(reapers := db.reapers + [Reaper(db.clock, order, [], false)])
    case Load(k) =>
      var p := db.reapers[k];
      db.(reapers := db.reapers[k := p.(todo := p.todo[1..],
                                        decided := p.decided + [(p.todo[0], Releases(db, p.todo[0]))])])
    case Reap(k) =>
      var p := db.reapers[k];
      Reaped(db.(reapers := db.reapers[k := p.(committed := true)]), p.decided)
    case Deploy(m, d) => DeployedTo(db, m, d)
    case Undeploy(d) => Undeployed(db, d)
    case ReconcileDeploys => BadgesHealed(db)
  }

  ghost function Exec(c: Config, db: Db, actions: seq<Action>): Db
    decreases |actions|
  {
    if actions == [] then db
    else Exec(c, if Enabled(c, db, actions[0]) then Step(c, db, actions[0]) else db, actions[1..])
  }

  ghost function Next(c: Config, db: Db, a: Action): Db { if Enabled(c, db, a) then Step(c, db, a) else db }

  predicate RunStreams(db: Db, rid: Option<nat>) {
    rid.Some? && rid.value in db.runs && db.runs[rid.value].status.Streaming?
  }

  /** One request alone: it ends with its first transaction unless the model is
      being analyzed, with the guarded update if the model's run still streams, and
      otherwise it refreshes and finalizes the row it first saw. */
  lemma Handshake(c: Config, db: Db, m: nat, cached: Option<nat>)
    requires m in db.models && db.handlers == []
    ensures var x := db.models[m];
            var done := Exec(c, db, [Begin(m), Update(0), Refresh(0), Finalize(0, cached)]);
            if !x.status.Analyzing? then done == db.(handlers := [Handler(m, Returned)])
            else if RunStreams(db, x.run) then
              done == db.(models := db.models[m := x.(status := Optimizing)], handlers := [Handler(m, Returned)])
            else
              done == db.(handlers := [Handler(m, Returned)],
                          models := db.models[m :=
                            if x.run.Some? && x.run.value in db.runs && db.runs[x.run.value].status.RunFailed?
                            then Model(Failed, None, x.isDeployed, x.servable, x.result)
                            else Model(Draft, None, x.isDeployed, x.servable,
                                       if cached.Some? then cached else x.result)])
  {
    Unrolled(c, db, m, cached);
    var x := db.models[m];
    var s1 := Step(c, db, Begin(m));
    assert s1 == db.(handlers := [Handler(m, if x.status.Analyzing? then Seen(x.run) else Returned)]);
    if x.status.Analyzing? {
      var s2 := Next(c, s1, Update(0));
      if !RunStreams(db, x.run) {
        assert s2 == db.(handlers := [Handler(m, Missed)]);
        assert Next(c, s2, Refresh(0)) == db.(handlers := [Handler(m, Finalizing(x.run))]);
      }
    }
  }

  lemma Unrolled(c: Config, db: Db, m: nat, cached: Option<nat>)
    requires m in db.models && db.handlers == []
    ensures Exec(c, db, [Begin(m), Update(0), Refresh(0), Finalize(0, cached)])
         == Next(c, Next(c, Next(c, Step(c, db, Begin(m)), Update(0)), Refresh(0)), Finalize(0, cached))
  {
    var f := [Finalize(0, cached)];
    var r := [Refresh(0)] + f;
    var u := [Update(0)] + r;
    assert [Begin(m), Update(0), Refresh(0), Finalize(0, cached)] == [Begin(m)] + u;
    assert ([Begin(m)] + u)[1..] == u && u[1..] == r && r[1..] == f && f[1..] == [];
    var s1 := Step(c, db, Begin(m));
    assert Exec(c, db, [Begin(m)] + u) == Exec(c, s1, u);
    var s2 := Next(c, s1, Update(0));
    assert Exec(c, s1, u) == Exec(c, s2, r);
    var s3 := Next(c, s2, Refresh(0));
    assert Exec(c, s2, r) == Exec(c, s3, f);
    assert Exec(c, s3, f) == Exec(c, Next(c, s3, Finalize(0, cached)), []);
  }

  // the reaper's pass, run by run

  /** `m` is busy with exactly this run. */
  ghost predicate ReleasedBy(models: map<nat, Model>, runs: map<nat, Run>, r: nat, m: nat) {
    && r in runs && runs[r].model == m && m in models && models[m].run == Some(r)
    && (models[m].status == Analyzing || models[m].status == Optimizing)
  }

  lemma ReleasesExact(db: Db)
    ensures forall r, m :: Releases(db, r) && db.runs[r].model == m <==> ReleasedBy(db.models, db.runs, r, m)
  {
  }

  ghost predicate ReapedOf(c: Config, db: Db, seen: seq<nat>, reaped: seq<nat>) {
    forall r :: r in reaped <==> r in seen && Orphaned(c, db, r)
  }

  ghost function RunsReaped(runs: map<nat, Run>, reaped: seq<nat>): map<nat, Run> {
    map r | r in runs :: if r in reaped then runs[r].(status := RunFailed) else runs[r]
  }

  ghost function ModelsReaped(db: Db, reaped: seq<nat>): map<nat, Model> {
    map m | m in db.models ::
      if exists r :: r in reaped && Releases(db, r) && db.runs[r].model == m
      then db.models[m].(status := Failed, run := None) else db.models[m]
  }

  /** One more orphan: its run fails, and its model is released if it still names it. */
  lemma ReapOne(c: Config, db: Db, seen: seq<nat>, reaped: seq<nat>, r: nat)
    requires ReapedOf(c, db, seen, reaped) && r !in reaped && Orphaned(c, db, r)
    ensures ReapedOf(c, db, seen + [r], reaped + [r])
    ensures RunsReaped(db.runs, reaped + [r]) == RunsReaped(db.runs, reaped)[r := db.runs[r].(status := RunFailed)]
    ensures var m, models := db.runs[r].model, ModelsReaped(db, reaped);
            ModelsReaped(db, reaped + [r])
            == if m in models && Busy(models[m].status) && models[m].run == Some(r)
               then models[m := models[m].(status := Failed, run := None)] else models
  {
    var m, models := db.runs[r].model, ModelsReaped(db, reaped);
    forall k | k in db.models && k != m ensures ModelsReaped(db, reaped + [r])[k] == models[k] {
      ReleaseOther(db, reaped, r, k);
    }
  }

  lemma ReleaseOther(db: Db, reaped: seq<nat>, r: nat, k: nat)
    requires r in db.runs && db.runs[r].model != k
    ensures (exists q :: q in reaped + [r] && Releases(db, q) && db.runs[q].model == k)
            <==> exists q :: q in reaped && Releases(db, q) && db.runs[q].model == k
  {
    if q :| q in reaped && Releases(db, q) && db.runs[q].model == k { assert q in reaped + [r]; }
  }

  // ── the rows as the handlers update them ─────────────────────────────────

  class Registry {
    var models: map<nat, Model>
    var runs: map<nat, Run>
    var deployments: map<nat, nat>

    ghost function At(clock: int): Db
      reads this
    {
      Db(clock, models, runs, deployments, [], [], {}, {})
    }

    /** `ingestion_complete` with no other transaction in between: the protocol's
        four, back to back, those skipped that an early return makes moot. */
    method IngestionComplete(m: nat, cached: Option<nat>, ghost c: Config, ghost clock: int)
      requires m in models
      modifies this`models
      ensures var x := old(models)[m];
              models == if x.status != Analyzing then old(models) else old(models)[m :=
                if x.run.Some? && x.run.value in runs && runs[x.run.value].status == Streaming
                then Model(Optimizing, x.run, x.isDeployed, x.servable, x.result)
                else if x.run.Some? && x.run.value in runs && runs[x.run.value].status == RunFailed
                then Model(Failed, None, x.isDeployed, x.servable, x.result)
                else Model(Draft, None, x.isDeployed, x.servable, if cached.Some? then cached else x.result)]
      ensures Exec(c, old(At(clock)), [Begin(m), Update(0), Refresh(0), Finalize(0, cached)])
           == At(clock).(handlers := [Handler(m, Returned)])
    {
      Handshake(c, At(clock), m, cached);
      var x := models[m];
      if !x.status.Analyzing? {
        return;
      }
      if x.run.Some? {
        if x.run.value in runs && runs[x.run.value].status.Streaming? {
          models := models[m := x.(status := Optimizing)];
          return;
        }
      }
      if x.run.Some? && x.run.value in runs && runs[x.run.value].status.RunFailed? {
        models := models[m := x.(status := Failed, run := None)];
        return;
      }
      var result := x.result;
      if cached.Some? {
        result := cached;
      }
      models := models[m := x.(status := Draft, run := None, result := result)];
    }

    /** `reconcile_orphaned_runs` over the ids of the streaming runs. */
    method ReconcileOrphanedRuns(streaming: seq<nat>, now: int, maxAge: nat) returns (reaped: seq<nat>)
      requires forall r :: r in streaming <==> r in runs && runs[r].status.Streaming?
      requires forall i, j :: 0 <= i < j < |streaming| ==> streaming[i] != streaming[j]
      modifies this`models, this`runs
      ensures forall r :: r in reaped <==>
                r in old(runs) && old(runs)[r].status == Streaming && now - old(runs)[r].startedAt >= maxAge
      ensures runs == map r | r in old(runs) :: if r in reaped then old(runs)[r].(status := RunFailed) else old(runs)[r]
      ensures models == map m | m in old(models) ::
                if exists r :: r in reaped && ReleasedBy(old(models), old(runs), r, m)
                then old(models)[m].(status := Failed, run := None) else old(models)[m]
    {
      reaped := [];
      for i := 0 to |streaming|
        invariant ReapedOf(Config(maxAge, 0), old(At(now)), streaming[..i], reaped)
        invariant runs == RunsReaped(old(runs), reaped) && models == ModelsReaped(old(At(now)), reaped)
      {
        var r := streaming[i];
        assert streaming[..i + 1] == streaming[..i] + [r] && r !in streaming[..i];
        assert r in old(runs) && r !in reaped && runs[r] == old(runs)[r];
        if now - runs[r].startedAt < maxAge {
          continue;
        }
        ReapOne(Config(maxAge, 0), old(At(now)), streaming[..i], reaped, r);
        var m := runs[r].model;
        runs := runs[r := runs[r].(status := RunFailed)];
        if m in models && Busy(models[m].status) && models[m].run == Some(r) {
          models := models[m := models[m].(status := Failed, run := None)];
        }
        reaped := reaped + [r];
      }
      assert streaming[..|streaming|] == streaming;
      ReleasesExact(old(At(now)));
    }

    /** The row changes of `_on_success`, committed together. */
    method OnSuccess(r: nat, newArtifactServable: bool, result: nat)
      requires r in runs
      modifies this`models, this`runs
      ensures runs == old(runs)[r := Run(old(runs)[r].model, old(runs)[r].startedAt, Completed)]
      ensures var m := old(runs)[r].model;
              models == if m !in old(models) then old(models) else
                var x := old(models)[m];
                old(models)[m := if x.status == Analyzing || x.status == Optimizing
                                 then Model(Draft, None, x.isDeployed, newArtifactServable, Some(result))
                                 else Model(x.status, x.run, x.isDeployed, newArtifactServable, x.result)]
      ensures models == Succeeded(old(At(0)), r, newArtifactServable, result).models
      ensures runs == Succeeded(old(At(0)), r, newArtifactServable, result).runs
    {
      var m := runs[r].model;
      runs := runs[r := runs[r].(status := Completed)];
      if m in models {
        models := models[m := models[m].(servable := newArtifactServable)];
        if Busy(models[m].status) {
          models := models[m := models[m].(status := Draft, run := None, result := Some(result))];
        }
      }
    }

    /** The row changes of `_on_failure`. */
    method OnFailure(r: nat)
      requires r in runs
      modifies this`models, this`runs
      ensures runs == old(runs)[r := Run(old(runs)[r].model, old(runs)[r].startedAt, RunFailed)]
      ensures var m := old(runs)[r].model;
              models == if m !in old(models) || old(models)[m].status == Deployed then old(models) else
                var x := old(models)[m];
                old(models)[m := Model(Failed, None, x.isDeployed, x.servable, x.result)]
      ensures models == FailedJob(old(At(0)), r).models && runs == FailedJob(old(At(0)), r).runs
    {
      var m := runs[r].model;
      runs := runs[r := runs[r].(status := RunFailed)];
      if m in models && models[m].status != Deployed {
        models := models[m := models[m].(status := Failed, run := None)];
      }
    }

    /** `create_deployment`; false is the 409 for a model without an executable
        artifact. */
    method CreateDeployment(m: nat, d: nat) returns (ok: bool)
      requires m in models && d !in deployments
      modifies this`models, this`deployments
      ensures ok == old(models[m].servable)
      ensures !ok ==> models == old(models) && deployments == old(deployments)
      ensures ok ==>
                var x := old(models)[m];
                && deployments == old(deployments)[d := m]
                && models == old(models)[m := Model(Deployed, x.run, true, x.servable, x.result)]
      ensures At(0) == if ok then DeployedTo(old(At(0)), m, d) else old(At(0))
    {
      if !models[m].servable {
        return false;
      }
      deployments := deployments[d := m];
      models := models[m := models[m].(isDeployed := true, status := Deployed)];
      return true;
    }

    /** `delete_deployment`, as one request. */
    method DeleteDeployment(d: nat)
      requires d in deployments
      modifies this`models, this`deployments
      ensures deployments == old(deployments) - {d}
      ensures var m := old(deployments)[d];
              models ==
                if m !in old(models) || exists k :: k in deployments && deployments[k] == m then old(models)
                else
                  var x := old(models)[m];
                  old(models)[m := Model(if x.status == Deployed then Draft else x.status, x.run, false, x.servable,
                                         x.result)]
      ensures At(0) == Undeployed(old(At(0)), d)
    {
      var m := deployments[d];
      deployments := map k | k in deployments && k != d :: deployments[k];
      if m in models && !(exists k :: k in deployments && deployments[k] == m) {
        var x := models[m].(isDeployed := false);
        if x.status == Deployed {
          x := x.(status := Draft);
        }
        models := models[m := x];
      }
    }

    /** `reconcile_deploy_status` over every model id. */
    method ReconcileDeployStatus(ids: seq<nat>) returns (flipped: seq<nat>)
      requires forall m :: m in ids <==> m in models
      modifies this`models
      ensures models == map m | m in old(models) ::
                if m in flipped then old(models)[m].(status := Deployed) else old(models)[m]
      ensures At(0) == BadgesHealed(old(At(0)))
      ensures forall m ::
                m in flipped <==> m in old(models) && old(models)[m].isDeployed && old(models)[m].status.Draft?
    {
      flipped := [];
      for i := 0 to |ids|
        invariant models.Keys == old(models).Keys
        invariant forall m ::
                    m in flipped <==> m in ids[..i] && old(models)[m].isDeployed && old(models)[m].status.Draft?
        invariant forall m :: m in models ==>
                    models[m] == if m in flipped then old(models)[m].(status := Deployed) else old(models)[m]
      {
        var m := ids[i];
        assert ids[..i + 1] == ids[..i] + [m];
        if models[m].isDeployed && models[m].status == Draft {
          models := models[m := models[m].(status := Deployed)];
          flipped := flipped + [m];
        }
      }
      assert ids[..|ids|] == ids;
    }
  }

  // ── the invariant ────────────────────────────────────────────────────────

  /** One model row is consistent with the runs. */
  ghost predicate ModelOk(db: Db, m: nat)
    requires m in db.models
  {
    var x := db.models[m];
    && (Busy(x.status) <==> x.run.Some?)
    && (x.run.Some? ==>
          x.run.value in db.runs && db.runs[x.run.value] == Run(m, db.runs[x.run.value].startedAt, Streaming))
    && (Busy(x.status) ==> !x.servable && !x.isDeployed)
    && (x.status.Deployed? ==> x.isDeployed)
    && (x.status.Draft? ==> !x.isDeployed)
  }

  /** A handler past the guarded UPDATE has lost the race for good, so it never
      gets to overwrite the row. */
  ghost predicate HandlerOk(db: Db, h: Handler) {
    && h.model in db.models
    && match h.pc
       case Seen(rid) => db.models[h.model].status.Analyzing? ==> db.models[h.model].run == rid
       case Missed => !db.models[h.model].status.Analyzing?
       case Finalizing(_) => false
       case Returned => true
  }

  ghost predicate DecidedOk(db: Db, p: (nat, bool)) {
    p.0 in db.runs && db.runs[p.0].model in db.models && (!p.1 ==> db.models[db.runs[p.0].model].run != Some(p.0))
  }

  ghost predicate ReaperOk(db: Db, p: Reaper) {
    && (forall r :: r in p.todo ==> r in db.runs && db.runs[r].model in db.models)
    && (forall q :: q in p.decided ==> DecidedOk(db, q))
  }

  ghost predicate Inv(db: Db) {
    && (forall m :: m in db.models ==> ModelOk(db, m))
    && (forall r :: r in db.runs ==> db.runs[r].model in db.models)
    && (forall h :: h in db.handlers ==> HandlerOk(db, h))
    && (forall p :: p in db.reapers ==> ReaperOk(db, p))
  }

  ghost predicate RowEvolves(x: Model, y: Model) {
    (y.status.Analyzing? ==> x.status.Analyzing?) && (y.run == x.run || y.run == None)
  }

  /** What may change about a model between two moments: a row that left the busy
      states never re-enters them, and a run id is only ever dropped. */
  ghost predicate Evolves(db: Db, db': Db) {
    && (forall m :: m in db.models ==> m in db'.models && RowEvolves(db.models[m], db'.models[m]))
    && (forall r :: r in db.runs ==> r in db'.runs && db'.runs[r].model == db.runs[r].model)
  }

  lemma ReaperStays(db: Db, db': Db, p: Reaper)
    requires ReaperOk(db, p) && Evolves(db, db')
    ensures ReaperOk(db', p)
  {
    forall q | q in p.decided ensures DecidedOk(db', q) {
      assert DecidedOk(db, q);
    }
  }

  /** Steps that leave handlers and reapers alone only have to keep the rows. */
  lemma RowsKeepInv(db: Db, db': Db)
    requires Inv(db) && Evolves(db, db') && db'.handlers == db.handlers && db'.reapers == db.reapers
    requires forall m :: m in db'.models ==> ModelOk(db', m)
    requires forall r :: r in db'.runs ==> db'.runs[r].model in db'.models
    ensures Inv(db')
  {
    forall h | h in db'.handlers ensures HandlerOk(db', h) {}
    forall p | p in db'.reapers ensures ReaperOk(db', p) { ReaperStays(db, db', p); }
  }

  lemma UploadKeepsInv(db: Db, m: nat, r: nat)
    requires Inv(db) && m !in db.models && r !in db.runs
    ensures Inv(Uploaded(db, m, r))
  {
    var db' := Uploaded(db, m, r);
    forall k | k in db'.models ensures ModelOk(db', k) {
      if k != m { assert ModelOk(db, k); }
    }
    RowsKeepInv(db, db');
  }

  lemma SucceedKeepsInv(db: Db, r: nat, servable: bool, result: nat)
    requires Inv(db) && r in db.runs
    ensures Inv(Succeeded(db, r, servable, result))
  {
    var db' := Succeeded(db, r, servable, result);
    forall k | k in db'.models ensures ModelOk(db', k) { assert ModelOk(db, k); }
    RowsKeepInv(db, db');
  }

  lemma FailKeepsInv(db: Db, r: nat)
    requires Inv(db) && r in db.runs
             && !(db.models[db.runs[r].model].status.Draft? && db.models[db.runs[r].model].isDeployed)
    ensures Inv(FailedJob(db, r))
  {
    var db' := FailedJob(db, r);
    forall k | k in db'.models ensures ModelOk(db', k) { assert ModelOk(db, k); }
    RowsKeepInv(db, db');
  }

  lemma DeployKeepsInv(db: Db, m: nat, d: nat)
    requires Inv(db) && m in db.models && db.models[m].servable
    ensures Inv(DeployedTo(db, m, d))
  {
    var db' := DeployedTo(db, m, d);
    forall k | k in db'.models ensures ModelOk(db', k) { assert ModelOk(db, k); }
    assert ModelOk(db, m);
    RowsKeepInv(db, db');
  }

  lemma UndeployKeepsInv(db: Db, d: nat)
    requires Inv(db) && d in db.deployments
    ensures Inv(Undeployed(db, d))
  {
    var db' := Undeployed(db, d);
    forall k | k in db'.models ensures ModelOk(db', k) { assert ModelOk(db, k); }
    RowsKeepInv(db, db');
  }

  /** The startup self-heal finds nothing to do in any reachable state. */
  lemma BadgesNeedNoHealing(db: Db)
    requires Inv(db)
    ensures BadgesHealed(db) == db
  {
    forall m | m in db.models ensures !(db.models[m].isDeployed && db.models[m].status.Draft?) {
      assert ModelOk(db, m);
    }
    assert BadgesHealed(db).models == db.models;
  }

  lemma ReapKeepsInv(db: Db, k: nat)
    requires Inv(db) && k < |db.reapers|
    ensures Inv(Reaped(db.(reapers := db.reapers[k := db.reapers[k].(committed := true)]), db.reapers[k].decided))
  {
    var p := db.reapers[k];
    var mid := db.(reapers := db.reapers[k := p.(committed := true)]);
    assert p in db.reapers && ReaperOk(db, p);
    forall q | q in mid.reapers ensures ReaperOk(mid, q) {
      if q in db.reapers { assert ReaperOk(db, q); }
    }
    forall h | h in mid.handlers ensures HandlerOk(mid, h) { assert HandlerOk(db, h); }
    forall m | m in mid.models ensures ModelOk(mid, m) { assert ModelOk(db, m); }
    assert Inv(mid);
    var db' := Reaped(mid, p.decided);
    forall m | m in db'.models ensures ModelOk(db', m) {
      assert ModelOk(mid, m);
      var x := mid.models[m];
      if !Released(mid, p.decided, m) && x.run.Some? {
        MarkedIsReleased(mid, p.decided, x.run.value, m);
      }
    }
    RowsKeepInv(mid, db');
  }

  /** A run the reaper marks while its model still points at it is released. */
  lemma MarkedIsReleased(db: Db, decided: seq<(nat, bool)>, r: nat, m: nat)
    requires (forall q :: q in decided ==> DecidedOk(db, q))
    requires r in db.runs && db.runs[r].model == m && m in db.models && db.models[m].run == Some(r)
    ensures Marked(decided, r) ==> Released(db, decided, m)
  {
    if Marked(decided, r) {
      var i :| 0 <= i < |decided| && decided[i].0 == r;
      assert decided[i] in decided && DecidedOk(db, decided[i]);
    }
  }

  lemma LoadKeepsInv(c: Config, db: Db, k: nat)
    requires Inv(db) && Enabled(c, db, Load(k))
    ensures Inv(Step(c, db, Load(k)))
  {
    var db' := Step(c, db, Load(k));
    var p := db.reapers[k];
    assert p in db.reapers && ReaperOk(db, p);
    forall m | m in db'.models ensures ModelOk(db', m) { assert ModelOk(db, m); }
    forall h | h in db'.handlers ensures HandlerOk(db', h) { assert HandlerOk(db, h); }
    forall q | q in db'.reapers ensures ReaperOk(db', q) {
      if q in db.reapers {
        assert ReaperOk(db, q);
        ReaperStays(db, db', q);
      } else {
        assert q == db'.reapers[k];
        var r := p.todo[0];
        assert r in p.todo;
        assert ModelOk(db, db.runs[r].model);
        forall d | d in q.decided ensures DecidedOk(db', d) {
          if d in p.decided { assert DecidedOk(db, d); }
        }
        forall x | x in q.todo ensures x in p.todo {}
      }
    }
  }

  lemma HandlersKeepInv(db: Db, db': Db)
    requires Inv(db) && db'.models == db.models && db'.runs == db.runs && db'.reapers == db.reapers
    requires forall h :: h in db'.handlers ==> HandlerOk(db', h)
    ensures Inv(db')
  {
    forall m | m in db'.models ensures ModelOk(db', m) { assert ModelOk(db, m); }
    forall p | p in db'.reapers ensures ReaperOk(db', p) { assert ReaperOk(db, p); ReaperStays(db, db', p); }
  }

  lemma UpdateKeepsInv(c: Config, db: Db, h: nat)
    requires Inv(db) && Enabled(c, db, Update(h))
    ensures Inv(Step(c, db, Update(h)))
  {
    var x := db.handlers[h];
    assert x in db.handlers && HandlerOk(db, x) && ModelOk(db, x.model);
    var db' := Step(c, db, Update(h));
    var rows := db.(models := db'.models);
    forall m | m in rows.models ensures ModelOk(rows, m) { assert ModelOk(db, m); }
    RowsKeepInv(db, rows);
    forall y | y in db'.handlers ensures HandlerOk(db', y) {
      if y in rows.handlers { assert HandlerOk(rows, y); }
    }
    HandlersKeepInv(rows, db');
  }

  lemma RefreshKeepsInv(c: Config, db: Db, h: nat)
    requires Inv(db) && Enabled(c, db, Refresh(h))
    ensures Inv(Step(c, db, Refresh(h)))
  {
    var x := db.handlers[h];
    assert x in db.handlers && HandlerOk(db, x);
    var db' := Step(c, db, Refresh(h));
    forall y | y in db'.handlers ensures HandlerOk(db', y) {
      if y in db.handlers { assert HandlerOk(db, y); }
    }
    HandlersKeepInv(db, db');
  }

  lemma BeginKeepsInv(c: Config, db: Db, m: nat)
    requires Inv(db) && Enabled(c, db, Begin(m))
    ensures Inv(Step(c, db, Begin(m)))
  {
    var db' := Step(c, db, Begin(m));
    forall y | y in db'.handlers ensures HandlerOk(db', y) {
      if y in db.handlers { assert HandlerOk(db, y); }
    }
    HandlersKeepInv(db, db');
  }

  lemma ScanKeepsInv(c: Config, db: Db, order: seq<nat>)
    requires Inv(db) && Enabled(c, db, Scan(order))
    ensures Inv(Step(c, db, Scan(order)))
  {
    var db' := Step(c, db, Scan(order));
    forall m | m in db'.models ensures ModelOk(db', m) { assert ModelOk(db, m); }
    forall h | h in db'.handlers ensures HandlerOk(db', h) { assert HandlerOk(db, h); }
    forall p | p in db'.reapers ensures ReaperOk(db', p) {
      if p in db.reapers {
        assert ReaperOk(db, p);
        ReaperStays(db, db', p);
      } else {
        forall r | r in p.todo ensures r in db.runs { assert Orphaned(c, db, r); }
      }
    }
  }

  lemma NobodyOverwrites(db: Db)
    requires Inv(db)
    ensures forall i :: 0 <= i < |db.handlers| ==> !db.handlers[i].pc.Finalizing?
  {
    forall i | 0 <= i < |db.handlers| ensures !db.handlers[i].pc.Finalizing? {
      assert HandlerOk(db, db.handlers[i]);
    }
  }

  lemma StepKeepsInv(c: Config, db: Db, a: Action)
    requires Inv(db) && Enabled(c, db, a)
    ensures Inv(Step(c, db, a))
  {
    NobodyOverwrites(db);
    match a
    case Upload(m, r) => UploadKeepsInv(db, m, r);
    case Begin(m) => BeginKeepsInv(c, db, m);
    case Update(h) => UpdateKeepsInv(c, db, h);
    case Refresh(h) => RefreshKeepsInv(c, db, h);
    case Finalize(h, _) => assert false;
    case Succeed(r, servable, result) => SucceedKeepsInv(db, r, servable, result);
    case Fail(r) =>
      assert ModelOk(db, db.runs[r].model);
      FailKeepsInv(db, r);
    case Scan(order) => ScanKeepsInv(c, db, order);
    case Load(k) => LoadKeepsInv(c, db, k);
    case Reap(k) => ReapKeepsInv(db, k);
    case Deploy(m, d) => DeployKeepsInv(db, m, d);
    case Undeploy(d) => UndeployKeepsInv(db, d);
    case ReconcileDeploys => BadgesNeedNoHealing(db);
    case Tick(_) => TimeKeepsInv(db, Step(c, db, a));
    case Crash(_) => TimeKeepsInv(db, Step(c, db, a));
  }

  lemma TimeKeepsInv(db: Db, db': Db)
    requires Inv(db) && db' == db.(clock := db'.clock, working := db'.working)
    ensures Inv(db')
  {
    forall m | m in db'.models ensures ModelOk(db', m) { assert ModelOk(db, m); }
    RowsKeepInv(db, db');
  }

  lemma {:induction false} ExecKeepsInv(c: Config, db: Db, actions: seq<Action>)
    requires Inv(db)
    ensures Inv(Exec(c, db, actions))
    decreases |actions|
  {
    if actions != [] {
      if Enabled(c, db, actions[0]) {
        StepKeepsInv(c, db, actions[0]);
        ExecKeepsInv(c, Step(c, db, actions[0]), actions[1..]);
      } else {
        ExecKeepsInv(c, db, actions[1..]);
      }
    }
  }

  /** In every interleaving, a model reads analyzing or optimizing exactly when its
      run id names a streaming run, and no `/ingestion/complete` request ever gets
      to the code that overwrites the row. */
  lemma BusyIffStreaming(c: Config, clock: int, actions: seq<Action>, m: nat)
    requires m in Exec(c, Init(clock), actions).models
    ensures var db := Exec(c, Init(clock), actions);
            var x := db.models[m];
            Busy(x.status) <==> x.run.Some? && x.run.value in db.runs && db.runs[x.run.value].status.Streaming?
    ensures var db := Exec(c, Init(clock), actions);
            forall i :: 0 <= i < |db.handlers| ==> !db.handlers[i].pc.Finalizing?
  {
    ExecKeepsInv(c, Init(clock), actions);
    var db := Exec(c, Init(clock), actions);
    assert ModelOk(db, m);
    NobodyOverwrites(db);
  }

  // ── the deploy badge ─────────────────────────────────────────────────────

  /** Some deployment serves `m`. */
  ghost predicate HasDeployment(db: Db, m: nat) { exists d :: d in db.deployments && db.deployments[d] == m }

  ghost predicate BadgeOk(db: Db, m: nat)
    requires m in db.models
  {
    db.models[m].isDeployed <==> HasDeployment(db, m)
  }

  ghost predicate Badged(db: Db) {
    && (forall d :: d in db.deployments ==> db.deployments[d] in db.models)
    && forall m :: m in db.models ==> BadgeOk(db, m)
  }

  lemma DeployKeepsBadges(db: Db, m: nat, d: nat)
    requires Badged(db) && m in db.models && d !in db.deployments
    ensures Badged(DeployedTo(db, m, d))
  {
    var db' := DeployedTo(db, m, d);
    forall k | k in db'.models ensures BadgeOk(db', k) {
      assert BadgeOk(db, k);
      if k == m { assert db'.deployments[d] == k; }
      if k != m && HasDeployment(db, k) {
        var e :| e in db.deployments && db.deployments[e] == k;
        assert db'.deployments[e] == k;
      }
    }
  }

  lemma UndeployKeepsBadges(db: Db, d: nat)
    requires Badged(db) && d in db.deployments
    ensures Badged(Undeployed(db, d))
  {
    var db' := Undeployed(db, d);
    forall k | k in db'.models ensures BadgeOk(db', k) {
      assert BadgeOk(db, k);
      if k != db.deployments[d] && HasDeployment(db, k) {
        var e :| e in db.deployments && db.deployments[e] == k;
        assert db'.deployments[e] == k;
      }
    }
  }

  /** Steps that leave the deployments and the flags of known models alone. */
  lemma FlagsKeepBadges(db: Db, db': Db)
    requires Badged(db) && db'.deployments == db.deployments && db.models.Keys <= db'.models.Keys
    requires forall m :: m in db'.models ==>
               db'.models[m].isDeployed == (m in db.models && db.models[m].isDeployed)
    ensures Badged(db')
  {
    forall m | m in db'.models ensures BadgeOk(db', m) {
      if m in db.models { assert BadgeOk(db, m); }
    }
  }

  lemma StepKeepsBadges(c: Config, db: Db, a: Action)
    requires Badged(db) && Enabled(c, db, a)
    ensures Badged(Step(c, db, a))
  {
    match a
    case Deploy(m, d) => DeployKeepsBadges(db, m, d);
    case Undeploy(d) => UndeployKeepsBadges(db, d);
    case _ =>
      FlagsStay(c, db, a);
      FlagsKeepBadges(db, Step(c, db, a));
  }

  /** Only deployments raise or clear the flag. */
  lemma FlagsStay(c: Config, db: Db, a: Action)
    requires Enabled(c, db, a) && !a.Deploy? && !a.Undeploy?
    ensures var db' := Step(c, db, a);
            && db'.deployments == db.deployments && db.models.Keys <= db'.models.Keys
            && forall m :: m in db'.models ==> db'.models[m].isDeployed == (m in db.models && db.models[m].isDeployed)
  {
  }

  lemma {:induction false} ExecKeepsBadges(c: Config, db: Db, actions: seq<Action>)
    requires Badged(db)
    ensures Badged(Exec(c, db, actions))
    decreases |actions|
  {
    if actions != [] {
      if Enabled(c, db, actions[0]) {
        StepKeepsBadges(c, db, actions[0]);
        ExecKeepsBadges(c, Step(c, db, actions[0]), actions[1..]);
      } else {
        ExecKeepsBadges(c, db, actions[1..]);
      }
    }
  }

  /** In every interleaving a model carries the deployed flag if and only if some
      deployment serves it. */
  lemma DeployedIffServed(c: Config, clock: int, actions: seq<Action>, m: nat)
    requires m in Exec(c, Init(clock), actions).models
    ensures var db := Exec(c, Init(clock), actions);
            db.models[m].isDeployed <==> exists d :: d in db.deployments && db.deployments[d] == m
  {
    ExecKeepsBadges(c, Init(clock), actions);
    assert BadgeOk(Exec(c, Init(clock), actions), m);
  }
}
