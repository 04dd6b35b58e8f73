/** When the orphan reaper is safe: finished results are never overwritten, and a
    pass leaves nothing stuck (app/repositories.py, `reconcile_orphaned_runs`,
    against the worker commit of app/services/jobs.py). */
module ReaperSafety {
  import opened Options
  import opened Lifecycle

  /** Each model has the one run its upload created. */
  ghost predicate OneRun(db: Db) {
    forall r, s :: r in db.runs && s in db.runs && db.runs[r].model == db.runs[s].model ==> r == s
  }

  /** The result a worker committed is still there. */
  ghost predicate ResultStands(db: Db, r: nat) {
    && r in db.runs && db.runs[r].status.Completed? && r !in db.working
    && db.runs[r].model in db.models
    && var x := db.models[db.runs[r].model];
       (x.status.Draft? || x.status.Deployed?) && x.result.Some?
  }

  ghost predicate AllStand(db: Db) {
    forall r :: r in db.finished ==> ResultStands(db, r)
  }

  /** A pending reap only concerns runs too old for their worker to commit. */
  ghost predicate OldEnough(c: Config, db: Db, r: nat) {
    r in db.runs && r !in db.finished && db.clock - db.runs[r].startedAt >= c.maxAge
  }

  ghost predicate PendingOld(c: Config, db: Db, p: Reaper) {
    !p.committed ==>
      (forall r :: r in p.todo ==> OldEnough(c, db, r)) && (forall q :: q in p.decided ==> OldEnough(c, db, q.0))
  }

  ghost predicate Safe(c: Config, db: Db) {
    && Inv(db) && OneRun(db) && AllStand(db)
    && (forall p :: p in db.reapers ==> PendingOld(c, db, p))
  }

  lemma PendingStays(c: Config, db: Db, db': Db, p: Reaper)
    requires PendingOld(c, db, p) && db.clock <= db'.clock
    requires forall r :: OldEnough(c, db, r) ==>
               r in db'.runs && db'.runs[r].startedAt == db.runs[r].startedAt && r !in db'.finished
    ensures PendingOld(c, db', p)
  {
    if !p.committed {
      forall r | r in p.todo ensures OldEnough(c, db', r) { assert OldEnough(c, db, r); }
      forall q | q in p.decided ensures OldEnough(c, db', q.0) { assert OldEnough(c, db, q.0); }
    }
  }

  /** Steps other than the reaper's own keep pending reaps harmless. */
  lemma PendingKept(c: Config, db: Db, a: Action)
    requires Safe(c, db) && Enabled(c, db, a) && c.lifetime < c.maxAge
    requires !a.Scan? && !a.Load? && !a.Reap? && !a.Finalize?
    ensures forall p :: p in Step(c, db, a).reapers ==> PendingOld(c, Step(c, db, a), p)
  {
    var db' := Step(c, db, a);
    forall p | p in db'.reapers ensures PendingOld(c, db', p) {
      assert p in db.reapers;
      PendingStays(c, db, db', p);
    }
  }

  lemma SucceedStands(c: Config, db: Db, r: nat, servable: bool, result: nat)
    requires Safe(c, db) && Enabled(c, db, Succeed(r, servable, result))
    ensures AllStand(Succeeded(db, r, servable, result))
  {
    var db' := Succeeded(db, r, servable, result);
    forall s | s in db'.finished ensures ResultStands(db', s) {
      if s != r { assert ResultStands(db, s); }
    }
  }

  /** The reaper's commit misses every finished model: its runs are not finished
      and each model has one run. */
  lemma ReapStands(c: Config, db: Db, k: nat)
    requires Safe(c, db) && Enabled(c, db, Reap(k))
    ensures AllStand(Step(c, db, Reap(k)))
  {
    var p := db.reapers[k];
    var db' := Step(c, db, Reap(k));
    assert p in db.reapers && PendingOld(c, db, p);
    forall s | s in db'.finished ensures ResultStands(db', s) {
      assert ResultStands(db, s);
      forall i | 0 <= i < |p.decided| ensures p.decided[i].0 != s {
        assert p.decided[i] in p.decided && OldEnough(c, db, p.decided[i].0);
      }
    }
  }

  lemma ReapKeepsPending(c: Config, db: Db, k: nat)
    requires Safe(c, db) && Enabled(c, db, Reap(k))
    ensures forall p :: p in Step(c, db, Reap(k)).reapers ==> PendingOld(c, Step(c, db, Reap(k)), p)
  {
    var db' := Step(c, db, Reap(k));
    forall p | p in db'.reapers ensures PendingOld(c, db', p) {
      if p in db.reapers { PendingStays(c, db, db', p); }
    }
  }

  lemma LoadKeepsPending(c: Config, db: Db, k: nat)
    requires Safe(c, db) && Enabled(c, db, Load(k))
    ensures forall p :: p in Step(c, db, Load(k)).reapers ==> PendingOld(c, Step(c, db, Load(k)), p)
  {
    var db' := Step(c, db, Load(k));
    var was := db.reapers[k];
    assert was in db.reapers && PendingOld(c, db, was);
    forall p | p in db'.reapers ensures PendingOld(c, db', p) {
      if p in db.reapers {
        PendingStays(c, db, db', p);
      } else if !p.committed {
        assert p == db'.reapers[k];
        forall r | r in p.todo ensures OldEnough(c, db', r) { assert r in was.todo && OldEnough(c, db, r); }
        forall q | q in p.decided ensures OldEnough(c, db', q.0) {
          if q in was.decided {
            assert OldEnough(c, db, q.0);
          } else {
            assert was.todo[0] in was.todo && OldEnough(c, db, was.todo[0]);
          }
        }
      }
    }
  }

  lemma OneRunKept(c: Config, db: Db, a: Action)
    requires Inv(db) && OneRun(db) && Enabled(c, db, a)
    ensures OneRun(Step(c, db, a))
  {
    var db' := Step(c, db, a);
    forall r, s | r in db'.runs && s in db'.runs && db'.runs[r].model == db'.runs[s].model ensures r == s {
    }
  }

  lemma StandsKept(c: Config, db: Db, a: Action)
    requires Safe(c, db) && Enabled(c, db, a)
    ensures AllStand(Step(c, db, a))
  {
    NobodyOverwrites(db);
    match a
    case Succeed(r, servable, result) => SucceedStands(c, db, r, servable, result);
    case Reap(k) => ReapStands(c, db, k);
    case ReconcileDeploys => BadgesNeedNoHealing(db);
    case Finalize(_, _) => assert false;
    case _ =>
  }

  lemma StepKeepsSafe(c: Config, db: Db, a: Action)
    requires Safe(c, db) && Enabled(c, db, a) && c.lifetime < c.maxAge
    ensures Safe(c, Step(c, db, a))
  {
    NobodyOverwrites(db);
    StepKeepsInv(c, db, a);
    OneRunKept(c, db, a);
    StandsKept(c, db, a);
    match a
    case Reap(k) => ReapKeepsPending(c, db, k);
    case Load(k) => LoadKeepsPending(c, db, k);
    case Scan(_) =>
    case Finalize(_, _) => assert false;
    case _ => PendingKept(c, db, a);
  }

  lemma {:induction false} ExecKeepsSafe(c: Config, db: Db, actions: seq<Action>)
    requires Safe(c, db) && c.lifetime < c.maxAge
    ensures Safe(c, Exec(c, db, actions))
    decreases |actions|
  {
    if actions != [] {
      if Enabled(c, db, actions[0]) {
        StepKeepsSafe(c, db, actions[0]);
        ExecKeepsSafe(c, Step(c, db, actions[0]), actions[1..]);
      } else {
        ExecKeepsSafe(c, db, actions[1..]);
      }
    }
  }

  // ── the bound is exact ───────────────────────────────────────────────────

  /** A worker that may live to the horizon: scanned and loaded as an orphan, it
      commits its result, and the reaper's commit overwrites it. */
  function OverwriteRun(c: Config): seq<Action> {
    [Upload(0, 0), Tick(c.maxAge), Scan([0]), Load(0), Succeed(0, true, 95), Reap(0)]
  }

  lemma ExecStep(c: Config, db: Db, a: Action, rest: seq<Action>)
    requires Enabled(c, db, a)
    ensures Exec(c, db, [a] + rest) == Exec(c, Step(c, db, a), rest)
  {
    assert ([a] + rest)[1..] == rest;
  }

  /** The database when the orphan has been scanned and loaded. */
  function Loaded(c: Config): Db {
    Db(c.maxAge, map[0 := Model(Analyzing, Some(0), false, false, None)], map[0 := Run(0, 0, Streaming)], map[],
       [], [Reaper(c.maxAge, [], [(0, true)], false)], {0}, {})
  }

  lemma LoadedRun(c: Config, rest: seq<Action>)
    ensures Exec(c, Init(0), [Upload(0, 0), Tick(c.maxAge), Scan([0]), Load(0)] + rest) == Exec(c, Loaded(c), rest)
  {
    var t2 := [Scan([0])] + ([Load(0)] + rest);
    assert [Upload(0, 0), Tick(c.maxAge), Scan([0]), Load(0)] + rest == [Upload(0, 0)] + ([Tick(c.maxAge)] + t2);
    ExecStep(c, Init(0), Upload(0, 0), [Tick(c.maxAge)] + t2);
    var s1 := Uploaded(Init(0), 0, 0);
    ExecStep(c, s1, Tick(c.maxAge), t2);
    assert Step(c, s1, Tick(c.maxAge)) == Aged(c);
    ScannedRun(c, rest);
  }

  /** The uploaded run at the reaper's horizon. */
  function Aged(c: Config): Db { Uploaded(Init(0), 0, 0).(clock := c.maxAge) }

  lemma ScannedRun(c: Config, rest: seq<Action>)
    ensures Exec(c, Aged(c), [Scan([0])] + ([Load(0)] + rest)) == Exec(c, Loaded(c), rest)
  {
    var s2 := Aged(c);
    forall r ensures r in [0] <==> Orphaned(c, s2, r) {}
    ExecStep(c, s2, Scan([0]), [Load(0)] + rest);
    var s3 := s2.(reapers := [Reaper(c.maxAge, [0], [], false)]);
    assert Step(c, s2, Scan([0])) == s3;
    ExecStep(c, s3, Load(0), rest);
    assert Releases(s3, 0);
    assert [0][1..] == [] && [] + [(0, true)] == [(0, true)];
    assert Step(c, s3, Load(0)).reapers == Loaded(c).reapers;
    assert Step(c, s3, Load(0)) == Loaded(c);
  }

  lemma Overwrites(c: Config)
    requires c.lifetime >= c.maxAge
    ensures !AllStand(Exec(c, Init(0), OverwriteRun(c)))
  {
    var last := [Succeed(0, true, 95)] + [Reap(0)];
    assert OverwriteRun(c) == [Upload(0, 0), Tick(c.maxAge), Scan([0]), Load(0)] + last;
    LoadedRun(c, last);
    var s0 := Loaded(c);
    ExecStep(c, s0, Succeed(0, true, 95), [Reap(0)]);
    var s1 := Succeeded(s0, 0, true, 95);
    assert 0 in s1.finished;
    assert [Reap(0)] == [Reap(0)] + [];
    ExecStep(c, s1, Reap(0), []);
    var s2 := Step(c, s1, Reap(0));
    assert Marked([(0, true)], 0) by { assert [(0, true)][0].0 == 0; }
    assert s2.runs[0].status.RunFailed?;
    assert !ResultStands(s2, 0);
    assert Exec(c, s2, []) == s2;
  }

  /** A committed result is never overwritten, in any interleaving, if and only if
      every worker commits strictly before its run reaches the reaper's age. */
  lemma FinishedStandsIff(c: Config)
    ensures c.lifetime < c.maxAge <==> forall clock, actions :: AllStand(Exec(c, Init(clock), actions))
  {
    if c.lifetime < c.maxAge {
      forall clock, actions ensures AllStand(Exec(c, Init(clock), actions)) {
        ExecKeepsSafe(c, Init(clock), actions);
      }
    } else {
      Overwrites(c);
    }
  }

  const JOB_TIMEOUT := 900
  const MAX_AGE := JOB_TIMEOUT + 300

  /** The age is counted from upload.  The deadline starts when a worker picks the
      job up, `queueWait` later, and is only polled: the last poll that lets the job
      go on may come JOB_TIMEOUT after pick-up, and the commit `tail` after that. */
  function Shipped(queueWait: nat, tail: nat): Config { Config(MAX_AGE, queueWait + JOB_TIMEOUT + tail) }

  /** The shipped settings are safe exactly while the wait in the queue and the
      work after the last poll of the deadline take less than 300 s together. */
  lemma ShippedReaper(queueWait: nat, tail: nat)
    ensures queueWait + tail < 300 <==>
            forall clock, actions :: AllStand(Exec(Shipped(queueWait, tail), Init(clock), actions))
  {
    FinishedStandsIff(Shipped(queueWait, tail));
  }

  // ── nothing stays stuck ──────────────────────────────────────────────────

  /** Every orphan of the scan's instant is on the reaper's list or settled. */
  ghost predicate Covers(c: Config, db: Db, p: Reaper) {
    && p.at <= db.clock
    && forall r :: r in db.runs && db.runs[r].status.Streaming? && db.runs[r].startedAt + c.maxAge <= p.at ==>
         !p.committed && (r in p.todo || Marked(p.decided, r))
  }

  lemma LoadCovers(c: Config, db: Db, k: nat)
    requires Enabled(c, db, Load(k)) && Covers(c, db, db.reapers[k])
    ensures Covers(c, Step(c, db, Load(k)), Step(c, db, Load(k)).reapers[k])
  {
    var p, p' := db.reapers[k], Step(c, db, Load(k)).reapers[k];
    forall r | r in p.todo || Marked(p.decided, r) ensures r in p'.todo || Marked(p'.decided, r) {
      if Marked(p.decided, r) {
        var i :| 0 <= i < |p.decided| && p.decided[i].0 == r;
        assert p'.decided[i].0 == r;
      } else if r == p.todo[0] {
        assert p'.decided[|p.decided|].0 == r;
      } else {
        assert r in p.todo[1..];
      }
    }
  }

  lemma StepKeepsCover(c: Config, db: Db, a: Action)
    requires Enabled(c, db, a) && c.maxAge > 0 && forall p :: p in db.reapers ==> Covers(c, db, p)
    ensures forall p :: p in Step(c, db, a).reapers ==> Covers(c, Step(c, db, a), p)
  {
    var db' := Step(c, db, a);
    forall p | p in db'.reapers ensures Covers(c, db', p) {
      if p !in db.reapers && !a.Scan? {
        assert db.reapers[a.reaper] in db.reapers && p == db'.reapers[a.reaper];
        if a.Load? { LoadCovers(c, db, a.reaper); }
      }
    }
  }

  lemma {:induction false} ExecKeepsCover(c: Config, db: Db, actions: seq<Action>)
    requires c.maxAge > 0 && forall p :: p in db.reapers ==> Covers(c, db, p)
    ensures forall p :: p in Exec(c, db, actions).reapers ==> Covers(c, Exec(c, db, actions), p)
    decreases |actions|
  {
    if actions != [] {
      if Enabled(c, db, actions[0]) {
        StepKeepsCover(c, db, actions[0]);
        ExecKeepsCover(c, Step(c, db, actions[0]), actions[1..]);
      } else {
        ExecKeepsCover(c, db, actions[1..]);
      }
    }
  }

  /** Once a reaper pass has committed, no model reads analyzing or optimizing for
      a run that had reached the horizon when the pass began. */
  lemma NothingStuck(c: Config, clock: int, actions: seq<Action>, p: Reaper, m: nat)
    requires c.maxAge > 0
    requires var db := Exec(c, Init(clock), actions);
             p in db.reapers && p.committed && m in db.models && Busy(db.models[m].status)
    ensures var db := Exec(c, Init(clock), actions);
            db.models[m].run.Some? && db.models[m].run.value in db.runs
            && p.at - db.runs[db.models[m].run.value].startedAt < c.maxAge
  {
    ExecKeepsCover(c, Init(clock), actions);
    ExecKeepsInv(c, Init(clock), actions);
    assert ModelOk(Exec(c, Init(clock), actions), m);
  }
}
