/** The server half of the telemetry loop: batch ingest with an idempotency
    ledger (app/services/client_telemetry.py) and the retention purge
    (app/services/retention.py).

    `Server` is the database together with the requests in flight, and `Step`
    performs one database transaction (or lets time pass), so a sequence of
    actions is one interleaving of concurrent requests and purges.  Instants are
    microseconds. */
module ClientTelemetry {
  import opened Collections
  import opened Options

  const MINUTE := 60_000_000
  const DAY := 1440 * MINUTE

  /** The horizons the protocol depends on.  `inFlight` bounds how long a request
      may live between reading the clock and its commit; the source has no such
      bound, so it is a parameter here. */
  datatype Config = Config(
    past: nat, future: nat, batchMax: nat,
    retentionEnabled: bool, factRetention: nat, ledgerRetention: nat,
    inFlight: nat)

  function Shipped(inFlight: nat): Config {
    Config(30 * DAY, 5 * MINUTE, 600, true, 90 * DAY, 35 * DAY, inFlight)
  }

  /** `iso` keeps milliseconds, so stored instants are compared at that grain. */
  function Iso(t: int): int { t / 1000 }

  datatype Kind = Event | Snapshot | Window

  /** The fact tables `purge_expired` trims before the ledger. */
  const FACT_TABLES := [Event, Snapshot, Window]

  /** A client item; `ts` is `None` when the timestamp does not parse. */
  datatype Item = Item(ts: Option<int>, payload: nat)
  datatype Batch = Batch(
    batchId: Option<string>, events: seq<Item>, snapshots: seq<Item>, windows: seq<Item>)
  {
    /** Python truthiness: a missing and an empty id are both "no id". */
    predicate Keyed() { batchId.Some? && batchId.value != "" }

    function Total(): nat { |events| + |snapshots| + |windows| }
  }

  /** A stored fact row, tagged with the batch position it came from. */
  datatype Row = Row(batchId: Option<string>, kind: Kind, index: nat, ts: int, payload: nat)
  {
    predicate Keyed() { batchId.Some? && batchId.value != "" }
  }

  predicate ValidTs(c: Config, ts: Option<int>, now: int) {
    ts.Some? && now - c.past <= ts.value <= now + c.future
  }

  // ── row building ─────────────────────────────────────────────────────────

  /** The rows for the first `n` items of one list. */
  function AcceptedRows(c: Config, now: int, id: Option<string>, kind: Kind, items: seq<Item>, n: nat): (rows: seq<Row>)
    requires n <= |items|
    ensures |rows| <= n
  {
    if n == 0 then []
    else
      var rest := AcceptedRows(c, now, id, kind, items, n - 1);
      var item := items[n - 1];
      if ValidTs(c, item.ts, now) then rest + [Row(id, kind, n - 1, item.ts.value, item.payload)] else rest
  }

  function EventRows(c: Config, now: int, b: Batch): seq<Row> {
    AcceptedRows(c, now, b.batchId, Event, b.events, |b.events|)
  }

  function SnapshotRows(c: Config, now: int, b: Batch): seq<Row> {
    AcceptedRows(c, now, b.batchId, Snapshot, b.snapshots, |b.snapshots|)
  }

  function WindowRows(c: Config, now: int, b: Batch): seq<Row> {
    AcceptedRows(c, now, b.batchId, Window, b.windows, |b.windows|)
  }

  function BatchRows(c: Config, now: int, b: Batch): seq<Row> {
    EventRows(c, now, b) + SnapshotRows(c, now, b) + WindowRows(c, now, b)
  }

  datatype Counts = Counts(events: nat, snapshots: nat, windows: nat)

  function BatchCounts(c: Config, now: int, b: Batch): Counts {
    Counts(|EventRows(c, now, b)|, |SnapshotRows(c, now, b)|, |WindowRows(c, now, b)|)
  }

  function BatchDropped(c: Config, now: int, b: Batch): nat {
    b.Total() - |BatchRows(c, now, b)|
  }

  ghost predicate IsRowOf(c: Config, now: int, id: Option<string>, kind: Kind, items: seq<Item>, n: nat, r: Row)
    requires n <= |items|
  {
    && r.batchId == id && r.kind == kind && r.index < n
    && ValidTs(c, items[r.index].ts, now)
    && r.ts == items[r.index].ts.value && r.payload == items[r.index].payload
  }

  /** A row is built exactly for each item whose timestamp passes the clamp,
      carrying that item's data, and no row is built twice. */
  lemma {:induction false} AcceptedRowsExact(c: Config, now: int, id: Option<string>, kind: Kind, items: seq<Item>,
                                             n: nat)
    requires n <= |items|
    ensures forall r :: r in AcceptedRows(c, now, id, kind, items, n) <==> IsRowOf(c, now, id, kind, items, n, r)
    ensures NoRepeats(AcceptedRows(c, now, id, kind, items, n))
  {
    if n > 0 {
      AcceptedRowsExact(c, now, id, kind, items, n - 1);
      var rest := AcceptedRows(c, now, id, kind, items, n - 1);
      if ValidTs(c, items[n - 1].ts, now) {
        NoRepeatsConcat(rest, [Row(id, kind, n - 1, items[n - 1].ts.value, items[n - 1].payload)]);
      }
    }
  }

  lemma NoRepeatsConcat(a: seq<Row>, b: seq<Row>)
    requires NoRepeats(a) && NoRepeats(b)
    requires forall r :: r in a ==> r !in b
    ensures NoRepeats(a + b)
  {
    forall i, j | 0 <= i < j < |a + b| ensures (a + b)[i] != (a + b)[j] {
      if i < |a| <= j {
        assert (a + b)[i] in a && (a + b)[j] in b;
      }
    }
  }

  /** What it means for `r` to record one item of `b` accepted at `now`. */
  ghost predicate IsBatchRow(c: Config, now: int, b: Batch, r: Row) {
    match r.kind
    case Event => IsRowOf(c, now, b.batchId, Event, b.events, |b.events|, r)
    case Snapshot => IsRowOf(c, now, b.batchId, Snapshot, b.snapshots, |b.snapshots|, r)
    case Window => IsRowOf(c, now, b.batchId, Window, b.windows, |b.windows|, r)
  }

  lemma BatchRowsExact(c: Config, now: int, b: Batch)
    ensures forall r :: r in BatchRows(c, now, b) <==> IsBatchRow(c, now, b, r)
    ensures NoRepeats(BatchRows(c, now, b))
    ensures |BatchRows(c, now, b)| <= b.Total()
  {
    AcceptedRowsExact(c, now, b.batchId, Event, b.events, |b.events|);
    AcceptedRowsExact(c, now, b.batchId, Snapshot, b.snapshots, |b.snapshots|);
    AcceptedRowsExact(c, now, b.batchId, Window, b.windows, |b.windows|);
    NoRepeatsConcat(EventRows(c, now, b), SnapshotRows(c, now, b));
    NoRepeatsConcat(EventRows(c, now, b) + SnapshotRows(c, now, b), WindowRows(c, now, b));
  }

  /** How many of the items have a timestamp the clamp accepts at `now`. */
  ghost function ValidItems(c: Config, now: int, items: seq<Item>): set<nat> {
    set i: nat | i < |items| && ValidTs(c, items[i].ts, now)
  }

  lemma {:induction false} AcceptedCount(c: Config, now: int, id: Option<string>, kind: Kind, items: seq<Item>, n: nat)
    requires n <= |items|
    ensures |AcceptedRows(c, now, id, kind, items, n)| == |ValidItems(c, now, items[..n])|
  {
    if n > 0 {
      AcceptedCount(c, now, id, kind, items, n - 1);
      var before, after := ValidItems(c, now, items[..n - 1]), ValidItems(c, now, items[..n]);
      if ValidTs(c, items[n - 1].ts, now) {
        assert after == before + {n - 1};
      } else {
        assert after == before;
      }
    }
  }

  /** What an ingest adds to the tables: each valid item once, and nothing else. */
  ghost predicate RowsOf(c: Config, now: int, b: Batch, rows: seq<Row>) {
    NoRepeats(rows) && forall r :: r in rows <==> IsBatchRow(c, now, b, r)
  }

  /** The counts of the valid items, list by list, and of all the others. */
  ghost predicate CountsOf(c: Config, now: int, b: Batch, accepted: Counts, dropped: nat) {
    && accepted.events == |ValidItems(c, now, b.events)|
    && accepted.snapshots == |ValidItems(c, now, b.snapshots)|
    && accepted.windows == |ValidItems(c, now, b.windows)|
    && dropped + accepted.events + accepted.snapshots + accepted.windows == b.Total()
  }

  lemma BatchCountsExact(c: Config, now: int, b: Batch)
    ensures CountsOf(c, now, b, BatchCounts(c, now, b), BatchDropped(c, now, b))
  {
    AcceptedCount(c, now, b.batchId, Event, b.events, |b.events|);
    AcceptedCount(c, now, b.batchId, Snapshot, b.snapshots, |b.snapshots|);
    AcceptedCount(c, now, b.batchId, Window, b.windows, |b.windows|);
    assert b.events[..|b.events|] == b.events && b.snapshots[..|b.snapshots|] == b.snapshots;
    assert b.windows[..|b.windows|] == b.windows;
  }

  // ── the database and its transactions ────────────────────────────────────

  datatype LedgerRow = LedgerRow(received: int, accepted: Counts, dropped: nat)
  datatype Response = Ack(accepted: Counts, dropped: nat) | TooLarge | Raised
  /** Where a request stands between its database accesses. */
  datatype Phase = Started | PriorAbsent | Conflicted | Done(response: Response)
  datatype Request = Request(batch: Batch, now: int, phase: Phase)

  /** `log` is every row ever committed; `facts` are the rows still stored. */
  datatype Server = Server(
    clock: int, log: seq<Row>, facts: seq<Row>,
    ledger: map<string, LedgerRow>, requests: seq<Request>)
  {
    predicate InLedger(b: Batch) { b.Keyed() && b.batchId.value in ledger }

    function Prior(b: Batch): Response
      requires InLedger(b)
    {
      var row := ledger[b.batchId.value];
      Ack(row.accepted, row.dropped)
    }

    function Advance(i: nat, phase: Phase): Server
      requires i < |requests|
    {
      this.(requests := requests[i := requests[i].(phase := phase)])
    }
  }

  datatype Action =
    | Tick(elapsed: nat)
    | Start(batch: Batch)
    | Check(request: nat)
    | Commit(request: nat)
    | Recheck(request: nat)
    | Purge

  function Init(clock: int): Server { Server(clock, [], [], map[], []) }

  /** Insert the rows and the ledger row in one transaction. */
  function Insert(c: Config, s: Server, i: nat): Server
    requires i < |s.requests|
  {
    var q := s.requests[i];
    var rows := BatchRows(c, q.now, q.batch);
    var counts := BatchCounts(c, q.now, q.batch);
    var dropped := BatchDropped(c, q.now, q.batch);
    s.(log := s.log + rows,
       facts := s.facts + rows,
       ledger := if q.batch.Keyed()
                 then s.ledger[q.batch.batchId.value := LedgerRow(q.now, counts, dropped)]
                 else s.ledger)
    .Advance(i, Done(Ack(counts, dropped)))
  }

  /** What an ingest that inserts leaves behind: its valid items at the end of the
      fact tables, once each, its counts in the answer and, for a batch with an id,
      in the ledger. */
  ghost predicate Inserted(c: Config, now: int, b: Batch, s: Server, s': Server, response: Response) {
    && response.Ack? && CountsOf(c, now, b, response.accepted, response.dropped)
    && s.facts <= s'.facts && RowsOf(c, now, b, s'.facts[|s.facts|..])
    && s'.log == s.log + s'.facts[|s.facts|..]
    && s'.ledger == if b.Keyed()
                    then s.ledger[b.batchId.value := LedgerRow(now, response.accepted, response.dropped)]
                    else s.ledger
  }

  lemma InsertExact(c: Config, s: Server, i: nat)
    requires i < |s.requests|
    ensures var q, s' := s.requests[i], Insert(c, s, i);
            s'.requests[i].phase.Done? && Inserted(c, q.now, q.batch, s, s', s'.requests[i].phase.response)
  {
    var q := s.requests[i];
    BatchRowsExact(c, q.now, q.batch);
    BatchCountsExact(c, q.now, q.batch);
    assert (s.facts + BatchRows(c, q.now, q.batch))[|s.facts|..] == BatchRows(c, q.now, q.batch);
  }

  function FreshRows(facts: seq<Row>, kinds: seq<Kind>, cutoff: int): seq<Row> {
    if facts == [] then []
    else
      var rest := FreshRows(facts[1..], kinds, cutoff);
      if facts[0].kind in kinds && Iso(facts[0].ts) < Iso(cutoff) then rest else [facts[0]] + rest
  }

  function FreshLedger(ledger: map<string, LedgerRow>, cutoff: int): map<string, LedgerRow> {
    map id | id in ledger && Iso(ledger[id].received) >= Iso(cutoff) :: ledger[id]
  }

  function PurgeExpired(c: Config, s: Server): Server {
    if c.retentionEnabled then
      s.(facts := FreshRows(s.facts, FACT_TABLES, s.clock - c.factRetention),
         ledger := FreshLedger(s.ledger, s.clock - c.ledgerRetention))
    else s
  }

  /** One action; an action that is not enabled leaves the state alone. */
  function Step(c: Config, s: Server, a: Action): Server {
    match a
    case Tick(elapsed) => s.(clock := s.clock + elapsed)
    case Start(b) =>
      var phase := if b.Total() > c.batchMax then Done(TooLarge) else Started;
      s.(requests := s.requests + [Request(b, s.clock, phase)])
    case Check(i) =>
      if i < |s.requests| && s.requests[i].phase == Started then
        s.Advance(i, if s.InLedger(s.requests[i].batch) then Done(s.Prior(s.requests[i].batch)) else PriorAbsent)
      else s
    case Commit(i) =>
      if i < |s.requests| && s.requests[i].phase == PriorAbsent && s.clock - s.requests[i].now <= c.inFlight then
        if s.InLedger(s.requests[i].batch) then s.Advance(i, Conflicted) else Insert(c, s, i)
      else s
    case Recheck(i) =>
      if i < |s.requests| && s.requests[i].phase == Conflicted then
        s.Advance(i, Done(if s.InLedger(s.requests[i].batch) then s.Prior(s.requests[i].batch) else Raised))
      else s
    case Purge => PurgeExpired(c, s)
  }

  function Run(c: Config, s: Server, actions: seq<Action>): Server
    decreases |actions|
  {
    if actions == [] then s
    else Run(c, Step(c, s, actions[0]), actions[1..])
  }

  // ── the store as the handlers update it ──────────────────────────────────

  class TelemetryStore {
    const config: Config
    var log: seq<Row>
    var facts: seq<Row>
    var ledger: map<string, LedgerRow>

    constructor (c: Config)
      ensures config == c && log == [] && facts == [] && ledger == map[]
    {
      config, log, facts, ledger := c, [], [], map[];
    }

    /** The database at instant `clock` with `requests` in flight. */
    ghost function At(clock: int, requests: seq<Request>): Server
      reads this
    {
      Server(clock, log, facts, ledger, requests)
    }

    /** One of the three item loops of `ingest_batch`. */
    method BuildRows(now: int, id: Option<string>, kind: Kind, items: seq<Item>)
      returns (rows: seq<Row>, accepted: nat, dropped: nat)
      ensures rows == AcceptedRows(config, now, id, kind, items, |items|)
      ensures accepted == |rows| && dropped == |items| - |rows|
    {
      rows, accepted, dropped := [], 0, 0;
      for i := 0 to |items|
        invariant rows == AcceptedRows(config, now, id, kind, items, i)
        invariant accepted == |rows| && dropped == i - |rows|
      {
        if !ValidTs(config, items[i].ts, now) {
          dropped := dropped + 1;
        } else {
          rows := rows + [Row(id, kind, i, items[i].ts.value, items[i].payload)];
          accepted := accepted + 1;
        }
      }
    }

    /** `ingest_batch` with no other transaction in between: the protocol's
        Start, Check and Commit back to back.  A batch with too many items is
        refused, one in the ledger is answered from there, and any other leaves
        its valid items in the fact tables and its counts in the ledger. */
    method IngestBatch(batch: Batch, now: int) returns (response: Response)
      modifies this
      ensures response == TooLarge <==> |batch.events| + |batch.snapshots| + |batch.windows| > config.batchMax
      ensures response == TooLarge || (batch.Keyed() && batch.batchId.value in old(ledger)) ==>
                log == old(log) && facts == old(facts) && ledger == old(ledger)
      ensures response != TooLarge && batch.Keyed() && batch.batchId.value in old(ledger) ==>
                response == Ack(old(ledger)[batch.batchId.value].accepted, old(ledger)[batch.batchId.value].dropped)
      ensures response != TooLarge && !(batch.Keyed() && batch.batchId.value in old(ledger)) ==>
                Inserted(config, now, batch, old(At(now, [])), At(now, []), response)
      ensures var s := Run(config, old(At(now, [])), [Start(batch), Check(0), Commit(0)]);
              s == At(now, [Request(batch, now, Done(response))])
    {
      IngestRun(config, At(now, []), batch);
      if batch.Total() > config.batchMax {
        return TooLarge;
      }
      if batch.Keyed() && batch.batchId.value in ledger {
        var prior := ledger[batch.batchId.value];
        return Ack(prior.accepted, prior.dropped);
      }
      var events, e, d0 := BuildRows(now, batch.batchId, Event, batch.events);
      var snapshots, n, d1 := BuildRows(now, batch.batchId, Snapshot, batch.snapshots);
      var windows, w, d2 := BuildRows(now, batch.batchId, Window, batch.windows);
      var rows := events + snapshots + windows;
      InsertExact(config, At(now, [Request(batch, now, PriorAbsent)]), 0);
      log := log + rows;
      facts := facts + rows;
      if batch.Keyed() {
        ledger := ledger[batch.batchId.value := LedgerRow(now, Counts(e, n, w), d0 + d1 + d2)];
      }
      return Ack(Counts(e, n, w), d0 + d1 + d2);
    }

    /** One DELETE per fact table; what that leaves is `FreshRowsExact`. */
    static method DeleteExpired(rows: seq<Row>, cutoff: int) returns (remaining: seq<Row>)
      ensures remaining == FreshRows(rows, FACT_TABLES, cutoff) && |remaining| <= |rows|
    {
      remaining := rows;
      FreshRowsNone(rows, cutoff);
      for t := 0 to |FACT_TABLES|
        invariant remaining == FreshRows(rows, FACT_TABLES[..t], cutoff)
      {
        FreshRowsTwice(rows, FACT_TABLES[..t], [FACT_TABLES[t]], cutoff);
        assert FACT_TABLES[..t] + [FACT_TABLES[t]] == FACT_TABLES[..t + 1];
        remaining := FreshRows(remaining, [FACT_TABLES[t]], cutoff);
      }
      assert FACT_TABLES[..|FACT_TABLES|] == FACT_TABLES;
      FreshRowsShrinks(rows, FACT_TABLES, cutoff);
    }

    /** The DELETE on the ledger. */
    static method ExpireLedger(ledger: map<string, LedgerRow>, cutoff: int) returns (live: map<string, LedgerRow>)
      ensures OnlyExpiredForgotten(ledger, live, cutoff)
      ensures live == FreshLedger(ledger, cutoff) && |live| <= |ledger|
    {
      live := FreshLedger(ledger, cutoff);
      SubsetSize(live.Keys, ledger.Keys);
      assert |live| == |live.Keys| && |ledger| == |ledger.Keys|;
    }

    /** `purge_expired`; returns the number of rows deleted. */
    method Purge(now: int) returns (deleted: nat)
      modifies this
      ensures Purged(config, old(At(now, [])), At(now, []))
      ensures At(now, []) == PurgeExpired(config, old(At(now, [])))
      ensures deleted == old(|facts|) - |facts| + old(|ledger|) - |ledger|
    {
      ghost var before := At(now, []);
      if !config.retentionEnabled {
        PurgeExact(config, before);
        return 0;
      }
      var remaining := DeleteExpired(facts, now - config.factRetention);
      var live := ExpireLedger(ledger, now - config.ledgerRetention);
      deleted := (|facts| - |remaining|) + (|ledger| - |live|);
      facts, ledger := remaining, live;
      assert At(now, []) == PurgeExpired(config, before);
      PurgeExact(config, before);
    }
  }

  /** `part` is `whole` without some of its rows. */
  ghost predicate InOrder(part: seq<Row>, whole: seq<Row>) {
    exists at: seq<nat> :: Picks(at, part, whole)
  }

  ghost predicate Picks(at: seq<nat>, part: seq<Row>, whole: seq<Row>) {
    && |at| == |part|
    && (forall i :: 0 <= i < |at| ==> at[i] < |whole| && part[i] == whole[at[i]])
    && forall i, j :: 0 <= i < j < |at| ==> at[i] < at[j]
  }

  /** Rows whose stored instant lies before the cutoff are gone, whatever their
      table; the others are there as often as before, in the same order. */
  ghost predicate OnlyExpiredGone(before: seq<Row>, after: seq<Row>, cutoff: int) {
    (forall r :: GoneIfExpired(before, after, cutoff, r)) && InOrder(after, before)
  }

  ghost predicate GoneIfExpired(before: seq<Row>, after: seq<Row>, cutoff: int, r: Row) {
    multiset(after)[r] == if Iso(r.ts) < Iso(cutoff) then 0 else multiset(before)[r]
  }

  ghost predicate OnlyExpiredForgotten(before: map<string, LedgerRow>, after: map<string, LedgerRow>, cutoff: int) {
    && (forall id :: id in after <==> id in before && Iso(before[id].received) >= Iso(cutoff))
    && forall id :: id in after ==> after[id] == before[id]
  }

  /** What a retention pass leaves: with retention off everything, otherwise all
      but the expired facts and ledger rows. */
  ghost predicate Purged(c: Config, s: Server, s': Server) {
    if c.retentionEnabled then
      && s' == s.(facts := s'.facts, ledger := s'.ledger)
      && OnlyExpiredGone(s.facts, s'.facts, s.clock - c.factRetention)
      && OnlyExpiredForgotten(s.ledger, s'.ledger, s.clock - c.ledgerRetention)
    else s' == s
  }

  lemma PurgeExact(c: Config, s: Server)
    ensures Purged(c, s, PurgeExpired(c, s))
  {
    FreshRowsExact(s.facts, s.clock - c.factRetention);
  }

  lemma {:induction false} FreshRowsExact(facts: seq<Row>, cutoff: int)
    ensures OnlyExpiredGone(facts, FreshRows(facts, FACT_TABLES, cutoff), cutoff)
  {
    var after := FreshRows(facts, FACT_TABLES, cutoff);
    if facts == [] {
      assert Picks([], after, facts);
    } else {
      FreshRowsExact(facts[1..], cutoff);
      assert facts == [facts[0]] + facts[1..];
      assert facts[0].kind in FACT_TABLES by { KindIsTable(facts[0].kind); }
      FreshRowsPicks(facts, cutoff);
      forall r ensures GoneIfExpired(facts, after, cutoff, r) {
        assert GoneIfExpired(facts[1..], FreshRows(facts[1..], FACT_TABLES, cutoff), cutoff, r);
      }
    }
  }

  lemma KindIsTable(k: Kind)
    ensures k in FACT_TABLES
  {
    assert FACT_TABLES[0] == Event && FACT_TABLES[1] == Snapshot && FACT_TABLES[2] == Window;
  }

  lemma FreshRowsPicks(facts: seq<Row>, cutoff: int)
    requires facts != [] && InOrder(FreshRows(facts[1..], FACT_TABLES, cutoff), facts[1..])
    ensures InOrder(FreshRows(facts, FACT_TABLES, cutoff), facts)
  {
    var rest := FreshRows(facts[1..], FACT_TABLES, cutoff);
    var at :| Picks(at, rest, facts[1..]);
    var moved: seq<nat> := seq(|at|, i requires 0 <= i < |at| => at[i] + 1);
    PicksLater(at, moved, rest, facts);
    if FreshRows(facts, FACT_TABLES, cutoff) != rest { PicksFirst(moved, rest, facts); }
  }

  lemma PicksLater(at: seq<nat>, moved: seq<nat>, part: seq<Row>, whole: seq<Row>)
    requires whole != [] && Picks(at, part, whole[1..])
    requires |moved| == |at| && forall i :: 0 <= i < |at| ==> moved[i] == at[i] + 1
    ensures Picks(moved, part, whole) && forall i :: 0 <= i < |moved| ==> moved[i] > 0
  {
    forall i | 0 <= i < |moved| ensures moved[i] < |whole| && part[i] == whole[moved[i]] {
      assert whole[1..][at[i]] == whole[moved[i]];
    }
  }

  lemma PicksFirst(at: seq<nat>, part: seq<Row>, whole: seq<Row>)
    requires whole != [] && Picks(at, part, whole) && forall i :: 0 <= i < |at| ==> at[i] > 0
    ensures Picks([0] + at, [whole[0]] + part, whole)
  {
  }

  /** The three transactions of one request alone. */
  lemma IngestRun(c: Config, s: Server, b: Batch)
    requires s.requests == []
    ensures Run(c, s, [Start(b), Check(0), Commit(0)])
         == if b.Total() > c.batchMax then s.(requests := [Request(b, s.clock, Done(TooLarge))])
            else if s.InLedger(b) then s.(requests := [Request(b, s.clock, Done(s.Prior(b)))])
            else Insert(c, s.(requests := [Request(b, s.clock, PriorAbsent)]), 0)
  {
    RunThree(c, s, Start(b), Check(0), Commit(0));
  }

  lemma RunThree(c: Config, s: Server, a: Action, b: Action, d: Action)
    ensures Run(c, s, [a, b, d]) == Step(c, Step(c, Step(c, s, a), b), d)
  {
    var s1 := Step(c, s, a);
    var s2 := Step(c, s1, b);
    assert Run(c, s, [a, b, d]) == Run(c, s1, [b, d]) by { assert [a, b, d][1..] == [b, d]; }
    assert Run(c, s1, [b, d]) == Run(c, s2, [d]) by { assert [b, d][1..] == [d]; }
    assert Run(c, s2, [d]) == Run(c, Step(c, s2, d), []) by { assert [d][1..] == []; }
  }

  lemma {:induction false} FreshRowsNone(facts: seq<Row>, cutoff: int)
    ensures FreshRows(facts, [], cutoff) == facts
  {
    if facts != [] { FreshRowsNone(facts[1..], cutoff); }
  }

  lemma {:induction false} FreshRowsTwice(facts: seq<Row>, a: seq<Kind>, b: seq<Kind>, cutoff: int)
    ensures FreshRows(FreshRows(facts, a, cutoff), b, cutoff) == FreshRows(facts, a + b, cutoff)
  {
    if facts != [] {
      FreshRowsTwice(facts[1..], a, b, cutoff);
      var rest := FreshRows(facts[1..], a, cutoff);
      if !(facts[0].kind in a && Iso(facts[0].ts) < Iso(cutoff)) {
        assert ([facts[0]] + rest)[1..] == rest;
      }
    }
  }

  lemma {:induction false} FreshRowsShrinks(facts: seq<Row>, kinds: seq<Kind>, cutoff: int)
    ensures |FreshRows(facts, kinds, cutoff)| <= |facts|
    ensures multiset(FreshRows(facts, kinds, cutoff)) <= multiset(facts)
  {
    if facts != [] {
      assert facts == [facts[0]] + facts[1..];
      FreshRowsShrinks(facts[1..], kinds, cutoff);
    }
  }
}
