/** Exactly-once ingestion over every interleaving of requests and purges.

    A batch may be sent any number of times, its requests may overlap, and its
    ledger row may be purged in between.  The theorems below say when a row can
    still be inserted twice, and what an acknowledgement promises. */
module ExactlyOnce {
  import opened Options
  import opened ClientTelemetry

  ghost predicate OnceEach(log: seq<Row>) {
    forall i, j :: 0 <= i < j < |log| && log[i].Keyed() ==> log[i] != log[j]
  }

  /** The arithmetic the protocol rests on: by the time the ledger may forget a
      batch, every request that could still insert one of its items is stale. */
  predicate HorizonsSuffice(c: Config) {
    || !c.retentionEnabled
    || c.batchMax == 0
    || c.ledgerRetention >= c.past + c.future + c.inFlight
  }

  // ── the invariant ────────────────────────────────────────────────────────

  /** A stored row is either still guarded by the ledger or out of the window
      every live request accepts. */
  ghost predicate Guarded(c: Config, s: Server, r: Row)
    requires r.Keyed()
  {
    || (r.batchId.value in s.ledger && r.ts <= s.ledger[r.batchId.value].received + c.future)
    || (c.retentionEnabled && r.ts - c.future + c.ledgerRetention < s.clock)
  }

  ghost predicate Inv(c: Config, s: Server) {
    && OnceEach(s.log)
    && multiset(s.facts) <= multiset(s.log)
    && (forall q :: q in s.requests ==> q.now <= s.clock && (q.phase == PriorAbsent ==> q.batch.Total() <= c.batchMax))
    && (forall q :: q in s.requests ==> q.phase == Started ==> q.batch.Total() <= c.batchMax)
    && (forall r :: r in s.log && r.Keyed() ==> Guarded(c, s, r))
  }

  /** The heart of the argument: a commit that passes the unique key inserts only
      rows that were never inserted before. */
  lemma CommitIsFresh(c: Config, s: Server, q: Request, r: Row)
    requires Inv(c, s) && HorizonsSuffice(c)
    requires q in s.requests && q.phase == PriorAbsent && s.clock - q.now <= c.inFlight
    requires !s.InLedger(q.batch)
    requires r in BatchRows(c, q.now, q.batch) && r.Keyed()
    ensures r !in s.log
  {
    BatchRowsExact(c, q.now, q.batch);
    assert IsBatchRow(c, q.now, q.batch, r);
    assert q.batch.Total() > 0;
  }

  lemma InsertKeepsInv(c: Config, s: Server, i: nat)
    requires Inv(c, s) && HorizonsSuffice(c)
    requires i < |s.requests| && s.requests[i].phase == PriorAbsent
    requires s.clock - s.requests[i].now <= c.inFlight && !s.InLedger(s.requests[i].batch)
    ensures Inv(c, Insert(c, s, i))
  {
    var q := s.requests[i];
    var rows := BatchRows(c, q.now, q.batch);
    var s' := Insert(c, s, i);
    BatchRowsExact(c, q.now, q.batch);
    forall r | r in rows && r.Keyed() ensures r !in s.log {
      CommitIsFresh(c, s, q, r);
    }
    forall r | r in s'.log && r.Keyed() ensures Guarded(c, s', r) {
      if r in rows {
        assert IsBatchRow(c, q.now, q.batch, r);
      } else {
        assert r in s.log && Guarded(c, s, r);
      }
    }
    assert multiset(s.facts + rows) == multiset(s.facts) + multiset(rows);
    assert multiset(s.log + rows) == multiset(s.log) + multiset(rows);
  }

  lemma PurgeKeepsInv(c: Config, s: Server)
    requires Inv(c, s) && HorizonsSuffice(c)
    ensures Inv(c, PurgeExpired(c, s))
  {
    var s' := PurgeExpired(c, s);
    FreshRowsShrinks(s.facts, FACT_TABLES, s.clock - c.factRetention);
    forall r | r in s'.log && r.Keyed() ensures Guarded(c, s', r) {
      assert Guarded(c, s, r);
    }
  }

  lemma StepKeepsInv(c: Config, s: Server, a: Action)
    requires Inv(c, s) && HorizonsSuffice(c)
    ensures Inv(c, Step(c, s, a))
  {
    var s' := Step(c, s, a);
    match a
    case Commit(i) =>
      if i < |s.requests| && s.requests[i].phase == PriorAbsent && s.clock - s.requests[i].now <= c.inFlight
         && !s.InLedger(s.requests[i].batch) {
        InsertKeepsInv(c, s, i);
      }
    case Purge => PurgeKeepsInv(c, s);
    case Tick(_) => TickKeepsInv(c, s, s');
    case _ =>
      forall r | r in s'.log && r.Keyed() ensures Guarded(c, s', r) {
        assert Guarded(c, s, r);
      }
  }

  lemma TickKeepsInv(c: Config, s: Server, s': Server)
    requires Inv(c, s) && s' == s.(clock := s'.clock) && s'.clock >= s.clock
    ensures Inv(c, s')
  {
    forall r | r in s'.log && r.Keyed() ensures Guarded(c, s', r) { assert Guarded(c, s, r); }
  }

  lemma {:induction false} RunKeepsInv(c: Config, s: Server, actions: seq<Action>)
    requires Inv(c, s) && HorizonsSuffice(c)
    ensures Inv(c, Run(c, s, actions))
    decreases |actions|
  {
    if actions != [] {
      StepKeepsInv(c, s, actions[0]);
      RunKeepsInv(c, Step(c, s, actions[0]), actions[1..]);
    }
  }

  // ── the bound is exact ───────────────────────────────────────────────────

  /** With horizons one microsecond short, this run inserts a row twice: the
      first ingest at 999 µs, a purge as soon as its ledger row is due, and a
      second request that read the clock as late as it may. */
  function DoubleInsertRun(c: Config): seq<Action> {
    [Start(LateBatch(c)), Check(0), Commit(0),
     Tick(Again(c) - 999), Start(LateBatch(c)), Tick(1000 + c.ledgerRetention - Again(c)), Purge,
     Check(1), Commit(1)]
  }

  function LateBatch(c: Config): Batch {
    Batch(Some("b"), [Item(Some(999 + c.future), 0)], [], [])
  }

  lemma RunStep(c: Config, s: Server, a: Action, rest: seq<Action>)
    ensures Run(c, s, [a] + rest) == Run(c, Step(c, s, a), rest)
  {
    assert ([a] + rest)[1..] == rest;
  }

  /** The instant the second request reads the clock. */
  function Again(c: Config): int {
    var purgeAt := 1000 + c.ledgerRetention;
    if purgeAt - c.inFlight > 999 then purgeAt - c.inFlight else 999
  }

  function FirstIngest(c: Config): Server {
    var b := LateBatch(c);
    var row := Row(Some("b"), Event, 0, 999 + c.future, 0);
    Server(999, [row], [row], map["b" := LedgerRow(999, Counts(1, 0, 0), 0)],
           [Request(b, 999, Done(Ack(Counts(1, 0, 0), 0)))])
  }

  lemma FirstIngestRun(c: Config, rest: seq<Action>)
    requires !HorizonsSuffice(c)
    ensures Run(c, Init(999), [Start(LateBatch(c)), Check(0), Commit(0)] + rest) == Run(c, FirstIngest(c), rest)
  {
    var b := LateBatch(c);
    var t2 := [Commit(0)] + rest;
    var t1 := [Check(0)] + t2;
    assert [Start(b), Check(0), Commit(0)] + rest == [Start(b)] + t1;
    var s0 := Init(999);
    var s1 := Step(c, s0, Start(b));
    RunStep(c, s0, Start(b), t1);
    var s2 := Step(c, s1, Check(0));
    RunStep(c, s1, Check(0), t2);
    var s3 := Step(c, s2, Commit(0));
    RunStep(c, s2, Commit(0), rest);
    assert AcceptedRows(c, 999, b.batchId, Snapshot, b.snapshots, 0) == [];
    assert BatchCounts(c, 999, b) == Counts(1, 0, 0);
    assert s3.requests == FirstIngest(c).requests;
    assert s3.ledger == FirstIngest(c).ledger;
    assert s3 == FirstIngest(c);
  }

  /** The second request has read the clock and the ledger row is gone. */
  function Forgotten(c: Config): Server {
    var s := FirstIngest(c);
    var purgeAt := 1000 + c.ledgerRetention;
    Server(purgeAt, s.log, FreshRows(s.facts, FACT_TABLES, purgeAt - c.factRetention), map[],
           s.requests + [Request(LateBatch(c), Again(c), Started)])
  }

  lemma ForgottenRun(c: Config, rest: seq<Action>)
    requires !HorizonsSuffice(c)
    ensures Run(c, FirstIngest(c), Wait(c) + rest) == Run(c, Forgotten(c), rest)
  {
    var w := Wait(c);
    var s1 := FirstIngest(c).(clock := Again(c));
    var s2 := s1.(requests := s1.requests + [Request(LateBatch(c), Again(c), Started)]);
    var s3 := s2.(clock := 1000 + c.ledgerRetention);
    RunFour(c, FirstIngest(c), s1, s2, s3, Forgotten(c), w[0], w[1], w[2], w[3], rest);
    assert w == [w[0], w[1], w[2], w[3]];
  }

  function Wait(c: Config): seq<Action> {
    [Tick(Again(c) - 999), Start(LateBatch(c)), Tick(1000 + c.ledgerRetention - Again(c)), Purge]
  }

  lemma RunFour(c: Config, s: Server, s1: Server, s2: Server, s3: Server, s4: Server,
                a1: Action, a2: Action, a3: Action, a4: Action, rest: seq<Action>)
    requires Step(c, s, a1) == s1 && Step(c, s1, a2) == s2 && Step(c, s2, a3) == s3 && Step(c, s3, a4) == s4
    ensures Run(c, s, [a1, a2, a3, a4] + rest) == Run(c, s4, rest)
  {
    var t3 := [a4] + rest;
    var t2 := [a3] + t3;
    var t1 := [a2] + t2;
    assert [a1, a2, a3, a4] + rest == [a1] + t1;
    RunStep(c, s, a1, t1);
    RunStep(c, s1, a2, t2);
    RunStep(c, s2, a3, t3);
    RunStep(c, s3, a4, rest);
  }

  lemma DoubleInsert(c: Config)
    requires !HorizonsSuffice(c)
    ensures !OnceEach(Run(c, Init(999), DoubleInsertRun(c)).log)
  {
    var b := LateBatch(c);
    var row := Row(Some("b"), Event, 0, 999 + c.future, 0);
    var wait := Wait(c);
    var last := [Check(1)] + [Commit(1)];
    assert DoubleInsertRun(c) == [Start(b), Check(0), Commit(0)] + (wait + last);
    FirstIngestRun(c, wait + last);
    ForgottenRun(c, last);
    var s0 := Forgotten(c);
    RunStep(c, s0, Check(1), [Commit(1)]);
    var s1 := s0.Advance(1, PriorAbsent);
    assert Step(c, s0, Check(1)) == s1;
    assert [Commit(1)] == [Commit(1)] + [];
    RunStep(c, s1, Commit(1), []);
    var s2 := Insert(c, s1, 1);
    assert Step(c, s1, Commit(1)) == s2;
    assert s2.log[0] == s2.log[1] == row;
    assert Run(c, s2, []) == s2;
    assert Run(c, Init(999), DoubleInsertRun(c)) == s2;
  }

  /** No run ever inserts an item of a keyed batch twice, purges included, if and
      only if the ledger outlives the acceptance window plus the longest request. */
  lemma AtMostOnceIff(c: Config)
    ensures HorizonsSuffice(c) <==>
            forall clock, actions :: OnceEach(Run(c, Init(clock), actions).log)
  {
    if HorizonsSuffice(c) {
      forall clock, actions ensures OnceEach(Run(c, Init(clock), actions).log) {
        RunKeepsInv(c, Init(clock), actions);
      }
    } else {
      DoubleInsert(c);
    }
  }

  /** For the shipped 30 day / 5 minute / 35 day horizons: safe exactly while no
      request stays open longer than 5 days less 5 minutes. */
  lemma ShippedHorizons(inFlight: nat)
    ensures inFlight <= 5 * DAY - 5 * MINUTE <==>
            forall clock, actions :: OnceEach(Run(Shipped(inFlight), Init(clock), actions).log)
  {
    AtMostOnceIff(Shipped(inFlight));
  }

  lemma {:induction false} OnceEachCount(log: seq<Row>, r: Row)
    requires OnceEach(log) && r.Keyed()
    ensures multiset(log)[r] <= 1
    ensures r in log ==> multiset(log)[r] == 1
    decreases |log|
  {
    if log != [] {
      var last := log[|log| - 1];
      assert log == log[..|log| - 1] + [last];
      OnceEachCount(log[..|log| - 1], r);
      if r == last {
        assert r !in log[..|log| - 1];
      }
    }
  }

  /** Dashboards read `facts`: no keyed row is ever stored twice there. */
  lemma StoredAtMostOnce(c: Config, clock: int, actions: seq<Action>, r: Row)
    requires HorizonsSuffice(c) && r.Keyed()
    ensures multiset(Run(c, Init(clock), actions).facts)[r] <= 1
  {
    RunKeepsInv(c, Init(clock), actions);
    OnceEachCount(Run(c, Init(clock), actions).log, r);
  }

  // ── what stays stored ────────────────────────────────────────────────────

  /** Not yet due for the retention pass. */
  predicate Retained(c: Config, clock: int, r: Row) {
    !c.retentionEnabled || Iso(r.ts) >= Iso(clock - c.factRetention)
  }

  ghost predicate StoredAsLogged(c: Config, s: Server, r: Row) {
    && multiset(s.facts)[r] <= multiset(s.log)[r]
    && (Retained(c, s.clock, r) ==> multiset(s.facts)[r] == multiset(s.log)[r])
  }

  ghost predicate Kept(c: Config, s: Server) {
    (forall r :: StoredAsLogged(c, s, r)) && (!c.retentionEnabled ==> s.facts == s.log)
  }

  lemma InsertKeepsStored(c: Config, s: Server, i: nat)
    requires Kept(c, s) && i < |s.requests|
    ensures Kept(c, Insert(c, s, i))
  {
    var s' := Insert(c, s, i);
    InsertExact(c, s, i);
    var rows := s'.facts[|s.facts|..];
    assert s'.facts == s.facts + rows && s'.log == s.log + rows;
    forall r ensures StoredAsLogged(c, s', r) { assert StoredAsLogged(c, s, r); }
  }

  lemma PurgeKeepsStored(c: Config, s: Server)
    requires Kept(c, s)
    ensures Kept(c, PurgeExpired(c, s))
  {
    var s' := PurgeExpired(c, s);
    PurgeExact(c, s);
    forall r ensures StoredAsLogged(c, s', r) {
      assert StoredAsLogged(c, s, r);
      if c.retentionEnabled { assert GoneIfExpired(s.facts, s'.facts, s.clock - c.factRetention, r); }
    }
  }

  lemma StepKeepsStored(c: Config, s: Server, a: Action)
    requires Kept(c, s)
    ensures Kept(c, Step(c, s, a))
  {
    var s' := Step(c, s, a);
    if a.Purge? {
      PurgeKeepsStored(c, s);
    } else if s'.log == s.log && s'.facts == s.facts {
      forall r ensures StoredAsLogged(c, s', r) { assert StoredAsLogged(c, s, r); }
    } else {
      InsertKeepsStored(c, s, a.request);
    }
  }

  lemma {:induction false} RunKeepsStored(c: Config, s: Server, actions: seq<Action>)
    requires Kept(c, s)
    ensures Kept(c, Run(c, s, actions))
    decreases |actions|
  {
    if actions != [] {
      StepKeepsStored(c, s, actions[0]);
      RunKeepsStored(c, Step(c, s, actions[0]), actions[1..]);
    }
  }

  /** In every run a row not yet due for retention is in the fact tables as often as
      it was ever inserted, and no row more often; without retention the tables
      hold all rows ever inserted, in order. */
  lemma FreshStaysStored(c: Config, clock: int, actions: seq<Action>, r: Row)
    ensures var s := Run(c, Init(clock), actions);
            && multiset(s.facts)[r] <= multiset(s.log)[r]
            && (!c.retentionEnabled || Iso(r.ts) >= Iso(s.clock - c.factRetention) ==>
                  multiset(s.facts)[r] == multiset(s.log)[r])
            && (!c.retentionEnabled ==> s.facts == s.log)
  {
    RunKeepsStored(c, Init(clock), actions);
    assert StoredAsLogged(c, Run(c, Init(clock), actions), r);
  }

  // ── what an acknowledgement promises ─────────────────────────────────────

  /** Clients fix the content of a batch id: every send carries the same batch. */
  ghost predicate FixedContent(actions: seq<Action>, content: string -> Batch) {
    forall a :: a in actions && a.Start? && a.batch.Keyed() ==> a.batch == content(a.batch.batchId.value)
  }

  /** Some request carrying `b` read the clock at `r`. */
  ghost predicate Arrived(s: Server, b: Batch, r: int) {
    exists p :: p in s.requests && p.batch == b && p.now == r
  }

  /** A step changes no request's batch and no instant it read. */
  ghost predicate ArrivalsKept(s: Server, s': Server) {
    && |s.requests| <= |s'.requests|
    && forall k :: 0 <= k < |s.requests| ==>
         s'.requests[k].batch == s.requests[k].batch && s'.requests[k].now == s.requests[k].now
  }

  lemma StepKeepsArrivals(c: Config, s: Server, a: Action)
    ensures ArrivalsKept(s, Step(c, s, a))
  {
  }

  /** What arrived stays on record through every run. */
  lemma {:induction false} RunKeepsArrivals(c: Config, s: Server, actions: seq<Action>, b: Batch, r: int)
    requires Arrived(s, b, r)
    ensures Arrived(Run(c, s, actions), b, r)
    decreases |actions|
  {
    if actions != [] {
      StepKeepsArrivals(c, s, actions[0]);
      ArrivedStays(s, Step(c, s, actions[0]), b, r);
      RunKeepsArrivals(c, Step(c, s, actions[0]), actions[1..], b, r);
    }
  }

  lemma ArrivedStays(s: Server, s': Server, b: Batch, r: int)
    requires Arrived(s, b, r) && ArrivalsKept(s, s')
    ensures Arrived(s', b, r)
  {
    var p :| p in s.requests && p.batch == b && p.now == r;
    var k :| 0 <= k < |s.requests| && s.requests[k] == p;
    assert s'.requests[k] in s'.requests;
  }

  /** A request carrying `b` was ingested with the instant `r` it read: the counts
      are those of that ingest, and all its accepted items were committed. */
  ghost predicate IngestedAt(c: Config, s: Server, b: Batch, r: int, accepted: Counts, dropped: nat) {
    && Arrived(s, b, r)
    && accepted == BatchCounts(c, r, b) && dropped == BatchDropped(c, r, b)
    && forall row :: row in BatchRows(c, r, b) ==> row in s.log
  }

  lemma IngestedStays(c: Config, s: Server, s': Server, b: Batch, r: int, accepted: Counts, dropped: nat)
    requires IngestedAt(c, s, b, r, accepted, dropped)
    requires ArrivalsKept(s, s') && s.log <= s'.log
    ensures IngestedAt(c, s', b, r, accepted, dropped)
  {
    ArrivedStays(s, s', b, r);
    forall row | row in BatchRows(c, r, b) ensures row in s'.log {
      assert row in s.log;
    }
  }

  ghost predicate LedgerHonest(c: Config, s: Server, content: string -> Batch) {
    forall id :: id in s.ledger ==>
      IngestedAt(c, s, content(id), s.ledger[id].received, s.ledger[id].accepted, s.ledger[id].dropped)
  }

  ghost predicate AckBacked(c: Config, s: Server, q: Request) {
    q.phase.Done? && q.phase.response.Ack? ==>
      exists r :: IngestedAt(c, s, q.batch, r, q.phase.response.accepted, q.phase.response.dropped)
  }

  ghost predicate Honest(c: Config, s: Server, content: string -> Batch) {
    && (forall q :: q in s.requests ==> q.now <= s.clock)
    && (forall q :: q in s.requests && q.batch.Keyed() ==> q.batch == content(q.batch.batchId.value))
    && LedgerHonest(c, s, content)
    && (forall q :: q in s.requests ==> AckBacked(c, s, q))
  }

  lemma AckStays(c: Config, s: Server, s': Server, q: Request)
    requires AckBacked(c, s, q) && ArrivalsKept(s, s') && s.log <= s'.log
    ensures AckBacked(c, s', q)
  {
    if q.phase.Done? && q.phase.response.Ack? {
      var r :| IngestedAt(c, s, q.batch, r, q.phase.response.accepted, q.phase.response.dropped);
      IngestedStays(c, s, s', q.batch, r, q.phase.response.accepted, q.phase.response.dropped);
    }
  }

  /** A step that appends to the log and only forgets ledger rows. */
  lemma LedgerStays(c: Config, s: Server, s': Server, content: string -> Batch)
    requires LedgerHonest(c, s, content) && ArrivalsKept(s, s') && s.log <= s'.log
    requires forall id :: id in s'.ledger ==> id in s.ledger && s'.ledger[id] == s.ledger[id]
    ensures LedgerHonest(c, s', content)
  {
    forall id | id in s'.ledger
      ensures IngestedAt(c, s', content(id), s'.ledger[id].received, s'.ledger[id].accepted, s'.ledger[id].dropped)
    {
      IngestedStays(c, s, s', content(id), s.ledger[id].received, s.ledger[id].accepted, s.ledger[id].dropped);
    }
  }

  lemma AdvanceHonest(c: Config, s: Server, i: nat, phase: Phase, content: string -> Batch)
    requires Honest(c, s, content) && i < |s.requests|
    requires phase.Done? && phase.response.Ack? ==>
               s.InLedger(s.requests[i].batch) && phase.response == s.Prior(s.requests[i].batch)
    ensures Honest(c, s.Advance(i, phase), content)
  {
    var s' := s.Advance(i, phase);
    LedgerStays(c, s, s', content);
    forall q | q in s'.requests ensures AckBacked(c, s', q) && q.now <= s'.clock
      && (q.batch.Keyed() ==> q.batch == content(q.batch.batchId.value))
    {
      var k :| 0 <= k < |s'.requests| && s'.requests[k] == q;
      if k == i {
        if phase.Done? && phase.response.Ack? {
          var row := s.ledger[q.batch.batchId.value];
          IngestedStays(c, s, s', q.batch, row.received, row.accepted, row.dropped);
        }
      } else {
        assert q == s.requests[k];
        AckStays(c, s, s', q);
      }
    }
  }

  lemma InsertHonest(c: Config, s: Server, i: nat, content: string -> Batch)
    requires Honest(c, s, content) && i < |s.requests|
    ensures Honest(c, Insert(c, s, i), content)
  {
    var q := s.requests[i];
    var s' := Insert(c, s, i);
    assert s'.requests[i] in s'.requests;
    assert IngestedAt(c, s', q.batch, q.now, BatchCounts(c, q.now, q.batch), BatchDropped(c, q.now, q.batch));
    forall id | id in s'.ledger
      ensures IngestedAt(c, s', content(id), s'.ledger[id].received, s'.ledger[id].accepted, s'.ledger[id].dropped)
    {
      if !(q.batch.Keyed() && id == q.batch.batchId.value) {
        IngestedStays(c, s, s', content(id), s.ledger[id].received, s.ledger[id].accepted, s.ledger[id].dropped);
      }
    }
    forall p | p in s'.requests ensures AckBacked(c, s', p) && p.now <= s'.clock
      && (p.batch.Keyed() ==> p.batch == content(p.batch.batchId.value))
    {
      var k :| 0 <= k < |s'.requests| && s'.requests[k] == p;
      if k != i {
        assert p == s.requests[k];
        AckStays(c, s, s', p);
      }
    }
  }

  lemma StepKeepsHonest(c: Config, s: Server, a: Action, content: string -> Batch)
    requires Honest(c, s, content)
    requires a.Start? && a.batch.Keyed() ==> a.batch == content(a.batch.batchId.value)
    ensures Honest(c, Step(c, s, a), content)
  {
    var s' := Step(c, s, a);
    if s' == s {
    } else if a.Check? {
      AdvanceHonest(c, s, a.request, s'.requests[a.request].phase, content);
    } else if a.Recheck? {
      AdvanceHonest(c, s, a.request, s'.requests[a.request].phase, content);
    } else if a.Commit? {
      if s.InLedger(s.requests[a.request].batch) {
        AdvanceHonest(c, s, a.request, Conflicted, content);
      } else {
        InsertHonest(c, s, a.request, content);
      }
    } else {
      LedgerStays(c, s, s', content);
      forall q | q in s'.requests ensures AckBacked(c, s', q) {
        if q in s.requests { AckStays(c, s, s', q); }
      }
    }
  }

  lemma {:induction false} RunKeepsHonest(c: Config, s: Server, actions: seq<Action>, content: string -> Batch)
    requires Honest(c, s, content) && FixedContent(actions, content)
    ensures Honest(c, Run(c, s, actions), content)
    decreases |actions|
  {
    if actions != [] {
      assert actions[0] in actions;
      StepKeepsHonest(c, s, actions[0], content);
      assert forall a :: a in actions[1..] ==> a in actions;
      RunKeepsHonest(c, Step(c, s, actions[0]), actions[1..], content);
    }
  }

  /** Exactly once: when a keyed batch is acknowledged, whether by the insert, the
      ledger or the lost race, there is a request that carried this batch such
      that the counts answered are those of the instant it read, and every item
      valid at that instant has been inserted exactly once. */
  lemma AcknowledgedExactlyOnce(c: Config, clock: int, actions: seq<Action>, content: string -> Batch, q: Request)
    requires HorizonsSuffice(c) && FixedContent(actions, content)
    requires var s := Run(c, Init(clock), actions);
             q in s.requests && q.batch.Keyed() && q.phase.Done? && q.phase.response.Ack?
    ensures var s := Run(c, Init(clock), actions);
            exists r :: IngestedAt(c, s, q.batch, r, q.phase.response.accepted, q.phase.response.dropped)
                        && forall row :: row in BatchRows(c, r, q.batch) ==> multiset(s.log)[row] == 1
  {
    var s := Run(c, Init(clock), actions);
    RunKeepsHonest(c, Init(clock), actions, content);
    RunKeepsInv(c, Init(clock), actions);
    var r :| IngestedAt(c, s, q.batch, r, q.phase.response.accepted, q.phase.response.dropped);
    BatchRowsExact(c, r, q.batch);
    forall row | row in BatchRows(c, r, q.batch) ensures multiset(s.log)[row] == 1 {
      assert IsBatchRow(c, r, q.batch, row);
      OnceEachCount(s.log, row);
    }
  }
}
