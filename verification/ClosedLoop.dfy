/** The closed loop end to end: one reporter, the network between, and the
    server, interleaved freely.  A send may be repeated, overlap with itself, be
    answered late or never; only what the server really acknowledged is deleted. */
module ClosedLoop {
  import opened Options
  import R = Reporter
  import C = Conservation
  import S = ClientTelemetry
  import E = ExactlyOnce
  import opened Decimals

  datatype Loop = Loop(w: C.World, s: S.Server, drained: seq<R.Batch>)

  datatype Act = Client(op: C.Op) | Server(a: S.Action)

  /** The fixed surroundings of a run: the server's horizons, the timestamp each
      item carries, and the content each batch id will name. */
  datatype Setting = Setting(config: S.Config, stamp: nat -> Option<int>, content: string -> S.Batch)

  function Items(stamp: nat -> Option<int>, ids: seq<nat>): seq<S.Item> {
    seq(|ids|, i requires 0 <= i < |ids| => S.Item(stamp(ids[i]), ids[i]))
  }

  /** The POST body of a drained batch. */
  function Wire(stamp: nat -> Option<int>, b: R.Batch): S.Batch {
    S.Batch(Some(Decimal(b.id)), Items(stamp, b.events), Items(stamp, b.snapshots), Items(stamp, b.windows))
  }

  ghost predicate IsAck(q: S.Request) { q.phase.Done? && q.phase.response.Ack? }

  ghost predicate Acked(g: Setting, s: S.Server, b: R.Batch) {
    exists q :: q in s.requests && q.batch == Wire(g.stamp, b) && IsAck(q)
  }

  ghost predicate Sendable(g: Setting, l: Loop, b: S.Batch) {
    exists d :: d in l.drained && b == Wire(g.stamp, d)
  }

  ghost predicate ClientMay(g: Setting, l: Loop, op: C.Op) {
    && C.Enabled(l.w, op)
    && match op
       case SendSegment(_, b, o) => o.Acked? ==> Acked(g, l.s, b)
       case SendHeld(o) => o.Acked? ==> Acked(g, l.s, l.w.c.memPending[0])
       case Flush(t) => g.content(Decimal(t.id)) == Wire(g.stamp, R.Drained(l.w.c, t.id))
       case _ => true
  }

  ghost predicate Enabled(g: Setting, l: Loop, act: Act) {
    match act
    case Client(op) => ClientMay(g, l, op)
    case Server(a) => a.Start? ==> Sendable(g, l, a.batch)
  }

  ghost function Step(g: Setting, l: Loop, act: Act): Loop
    requires Enabled(g, l, act)
  {
    match act
    case Client(op) =>
      l.(w := C.Step(l.w, op),
         drained := if op.Flush? && R.Buffered(l.w.c) > 0 then l.drained + [R.Drained(l.w.c, op.turn.id)]
             else l.drained)
    case Server(a) => l.(s := S.Step(g.config, l.s, a))
  }

  ghost function Run(g: Setting, l: Loop, acts: seq<Act>): Loop
    decreases |acts|
  {
    if acts == [] then l
    else Run(g, if Enabled(g, l, acts[0]) then Step(g, l, acts[0]) else l, acts[1..])
  }

  ghost function Boot(cap: nat, clientClock: nat, spoolUsable: bool, serverClock: int): Loop {
    Loop(C.Boot(cap, clientClock, spoolUsable), S.Init(serverClock), [])
  }

  // ── the invariant ────────────────────────────────────────────────────────

  /** Each recorded event is drained into at most one batch, at one position. */
  ghost predicate DrainedOnce(l: Loop) {
    multiset(l.w.c.events) + C.EventsOf(l.drained) <= l.w.recorded
  }

  ghost predicate RowOfDrained(g: Setting, l: Loop, r: S.Row) {
    exists d :: d in l.drained && RowOf(g, d, r)
  }

  ghost predicate RowOf(g: Setting, d: R.Batch, r: S.Row) {
    && r.batchId == Some(Decimal(d.id))
    && (r.kind.Event? ==> r.index < |d.events| && r.payload == d.events[r.index] && g.stamp(r.payload) == Some(r.ts))
  }

  ghost predicate FinishedAcked(g: Setting, l: Loop, e: nat) {
    exists b :: Acked(g, l.s, b) && e in b.events
  }

  ghost predicate Inv(g: Setting, l: Loop) {
    && C.Inv(l.w) && E.Inv(g.config, l.s) && E.Honest(g.config, l.s, g.content)
    && DrainedOnce(l) && DrainedFit(g, l) && RequestsDrained(g, l) && RowsDrained(g, l) && AllAcked(g, l)
    && (g.config.batchMax >= R.BATCH_MAX ==> NoneTooLarge(l.s))
  }

  /** Batch ids fix contents, and contents fit. */
  ghost predicate DrainedFit(g: Setting, l: Loop) {
    forall d :: d in l.drained ==> g.content(Decimal(d.id)) == Wire(g.stamp, d) && d.Total() <= R.BATCH_MAX
  }

  ghost predicate RequestsDrained(g: Setting, l: Loop) {
    forall q :: q in l.s.requests ==> Sendable(g, l, q.batch)
  }

  ghost predicate RowsDrained(g: Setting, l: Loop) { forall r :: r in l.s.log ==> RowOfDrained(g, l, r) }

  ghost predicate AllAcked(g: Setting, l: Loop) { forall e :: e in l.w.finished ==> FinishedAcked(g, l, e) }

  ghost predicate NoneTooLarge(s: S.Server) { forall q :: q in s.requests ==> q.phase != S.Done(S.TooLarge) }

  // client steps

  lemma FlushEffect(g: Setting, l: Loop, t: R.Turn)
    requires ClientMay(g, l, C.Flush(t)) && R.Buffered(l.w.c) > 0
    ensures var l' := Step(g, l, Client(C.Flush(t)));
            l'.w.c.events == l.w.c.events[R.EventShare(l.w.c)..] && l'.w.recorded == l.w.recorded
            && l'.drained == l.drained + [R.Drained(l.w.c, t.id)]
  {
    R.PersistKeepsBuffers(R.AfterDrain(l.w.c), l.w.cap, l.w.clock, R.Drained(l.w.c, t.id), t.write);
  }

  lemma FlushDrainsOnce(g: Setting, l: Loop, t: R.Turn)
    requires DrainedOnce(l) && ClientMay(g, l, C.Flush(t)) && R.Buffered(l.w.c) > 0
    ensures DrainedOnce(Step(g, l, Client(C.Flush(t))))
  {
    var b := R.Drained(l.w.c, t.id);
    var rest := l.w.c.events[R.EventShare(l.w.c)..];
    C.EventsOfConcat(l.drained, [b]);
    FlushEffect(g, l, t);
    assert l.w.c.events == b.events + rest;
  }

  lemma RecordDrainsNone(g: Setting, l: Loop, e: nat)
    requires DrainedOnce(l) && ClientMay(g, l, C.Record(e))
    ensures DrainedOnce(Step(g, l, Client(C.Record(e))))
  {
    var tail := if |l.w.c.events| >= R.QUEUE_MAX then l.w.c.events[1..] else l.w.c.events;
    if |l.w.c.events| >= R.QUEUE_MAX {
      assert l.w.c.events == [l.w.c.events[0]] + tail;
    }
    assert multiset(tail) <= multiset(l.w.c.events);
    var l' := Step(g, l, Client(C.Record(e)));
    assert multiset(l'.w.c.events) == multiset(tail) + multiset{e};
    assert l'.drained == l.drained && l'.w.recorded == l.w.recorded + multiset{e};
  }

  lemma DrainedOnceStep(g: Setting, l: Loop, op: C.Op)
    requires DrainedOnce(l) && ClientMay(g, l, op)
    ensures DrainedOnce(Step(g, l, Client(op)))
  {
    if op.Record? {
      RecordDrainsNone(g, l, op.e);
    } else if op.Flush? && R.Buffered(l.w.c) > 0 {
      FlushDrainsOnce(g, l, op.turn);
    } else {
      var l' := Step(g, l, Client(op));
      assert l'.drained == l.drained && l'.w.recorded == l.w.recorded;
      assert l'.w.c.events == l.w.c.events || l'.w.c.events == [];
    }
  }

  lemma DrainedGrows(g: Setting, l: Loop, l': Loop)
    requires l'.s == l.s && l.drained <= l'.drained && RequestsDrained(g, l) && RowsDrained(g, l)
    ensures RequestsDrained(g, l') && RowsDrained(g, l')
  {
    forall q | q in l'.s.requests ensures Sendable(g, l', q.batch) {
      var d :| d in l.drained && q.batch == Wire(g.stamp, d);
      assert d in l'.drained;
    }
    forall r | r in l'.s.log ensures RowOfDrained(g, l', r) {
      var d :| d in l.drained && RowOf(g, d, r);
      assert d in l'.drained;
    }
  }

  lemma FinishedStep(g: Setting, l: Loop, op: C.Op, e: nat)
    requires AllAcked(g, l) && ClientMay(g, l, op) && e in C.Step(l.w, op).finished
    ensures FinishedAcked(g, l, e)
  {
    if e !in l.w.finished {
      if op.SendSegment? {
        assert Acked(g, l.s, op.b) && e in op.b.events;
      } else {
        var b := l.w.c.memPending[0];
        assert Acked(g, l.s, b) && e in b.events;
      }
    }
  }

  lemma ClientDrained(g: Setting, l: Loop, op: C.Op, d: R.Batch)
    requires DrainedFit(g, l) && C.Sized(l.w.c) && ClientMay(g, l, op) && d in Step(g, l, Client(op)).drained
    ensures g.content(Decimal(d.id)) == Wire(g.stamp, d) && d.Total() <= R.BATCH_MAX
  {
    if d !in l.drained {
      assert d == R.Drained(l.w.c, op.turn.id);
      C.DrainedFits(l.w.c, op.turn.id);
    }
  }

  lemma ClientFinished(g: Setting, l: Loop, op: C.Op, e: nat)
    requires AllAcked(g, l) && ClientMay(g, l, op) && e in Step(g, l, Client(op)).w.finished
    ensures FinishedAcked(g, Step(g, l, Client(op)), e)
  {
    FinishedStep(g, l, op, e);
    var b :| Acked(g, l.s, b) && e in b.events;
    assert Acked(g, Step(g, l, Client(op)).s, b);
  }

  lemma ClientKeepsInv(g: Setting, l: Loop, op: C.Op)
    requires Inv(g, l) && ClientMay(g, l, op)
    ensures Inv(g, Step(g, l, Client(op)))
  {
    var l' := Step(g, l, Client(op));
    assert C.Inv(l'.w) by { C.StepKeepsInv(l.w, op); }
    DrainedOnceStep(g, l, op);
    assert l'.s == l.s && l.drained <= l'.drained;
    DrainedGrows(g, l, l');
    ClientKeepsRest(g, l, op);
  }

  lemma ClientKeepsRest(g: Setting, l: Loop, op: C.Op)
    requires AllAcked(g, l) && DrainedFit(g, l) && C.Sized(l.w.c) && ClientMay(g, l, op)
    ensures AllAcked(g, Step(g, l, Client(op))) && DrainedFit(g, Step(g, l, Client(op)))
  {
    var l' := Step(g, l, Client(op));
    forall e | e in l'.w.finished ensures FinishedAcked(g, l', e) { ClientFinished(g, l, op, e); }
    forall d | d in l'.drained ensures g.content(Decimal(d.id)) == Wire(g.stamp, d) && d.Total() <= R.BATCH_MAX {
      ClientDrained(g, l, op, d);
    }
  }

  // server steps

  lemma AckStays(g: Setting, s: S.Server, a: S.Action, b: R.Batch)
    requires Acked(g, s, b)
    ensures Acked(g, S.Step(g.config, s, a), b)
  {
    var q :| q in s.requests && q.batch == Wire(g.stamp, b) && IsAck(q);
    var k :| 0 <= k < |s.requests| && s.requests[k] == q;
    var s' := S.Step(g.config, s, a);
    assert s'.requests[k] == q;
    assert q in s'.requests;
  }

  lemma WireRows(g: Setting, d: R.Batch, now: int, r: S.Row)
    requires r in S.BatchRows(g.config, now, Wire(g.stamp, d))
    ensures RowOf(g, d, r)
  {
    S.BatchRowsExact(g.config, now, Wire(g.stamp, d));
    assert S.IsBatchRow(g.config, now, Wire(g.stamp, d), r);
  }

  /** A new row is one of a request's batch at the instant the request read. */
  lemma NewRow(c: S.Config, s: S.Server, a: S.Action, r: S.Row) returns (p: S.Request)
    requires r in S.Step(c, s, a).log && r !in s.log
    ensures p in s.requests && r in S.BatchRows(c, p.now, p.batch)
  {
    p :| p in s.requests && r in S.BatchRows(c, p.now, p.batch);
  }

  /** A request after a step carries the batch of one before, or has just started. */
  lemma OldBatch(c: S.Config, s: S.Server, a: S.Action, q: S.Request)
    requires q in S.Step(c, s, a).requests
    ensures (exists p :: p in s.requests && p.batch == q.batch) || (a.Start? && q.batch == a.batch)
  {
    var s' := S.Step(c, s, a);
    var k :| 0 <= k < |s'.requests| && s'.requests[k] == q;
    if k < |s.requests| { assert s.requests[k] in s.requests && s.requests[k].batch == q.batch; }
  }

  lemma ServerRows(g: Setting, l: Loop, a: S.Action, r: S.Row)
    requires RequestsDrained(g, l) && RowsDrained(g, l) && r in S.Step(g.config, l.s, a).log
    ensures RowOfDrained(g, l, r)
  {
    if r !in l.s.log {
      var p := NewRow(g.config, l.s, a, r);
      assert Sendable(g, l, p.batch);
      var d :| d in l.drained && p.batch == Wire(g.stamp, d);
      WireRows(g, d, p.now, r);
    }
  }

  lemma ServerRequests(g: Setting, l: Loop, a: S.Action, q: S.Request)
    requires RequestsDrained(g, l) && Enabled(g, l, Server(a)) && q in S.Step(g.config, l.s, a).requests
    ensures Sendable(g, l, q.batch)
  {
    OldBatch(g.config, l.s, a, q);
    if exists p :: p in l.s.requests && p.batch == q.batch {
      var p :| p in l.s.requests && p.batch == q.batch;
      assert Sendable(g, l, p.batch);
    }
  }

  /** The client's 450-item batches pass the server's cap. */
  lemma StartedNotTooLarge(g: Setting, l: Loop, b: S.Batch)
    requires DrainedFit(g, l) && Enabled(g, l, Server(S.Start(b))) && g.config.batchMax >= R.BATCH_MAX
    ensures b.Total() <= g.config.batchMax
  {
    var d :| d in l.drained && b == Wire(g.stamp, d);
    assert b.Total() == d.Total();
  }

  lemma ServerNeverTooLarge(g: Setting, l: Loop, a: S.Action, q: S.Request)
    requires DrainedFit(g, l) && NoneTooLarge(l.s) && Enabled(g, l, Server(a)) && g.config.batchMax >= R.BATCH_MAX
    requires q in S.Step(g.config, l.s, a).requests
    ensures q.phase != S.Done(S.TooLarge)
  {
    if a.Start? {
      StartedNotTooLarge(g, l, a.batch);
    } else {
      var s' := S.Step(g.config, l.s, a);
      var k :| 0 <= k < |s'.requests| && s'.requests[k] == q;
      assert l.s.requests[k] in l.s.requests;
    }
  }

  lemma ServerKeepsInv(g: Setting, l: Loop, a: S.Action)
    requires Inv(g, l) && Enabled(g, l, Server(a)) && E.HorizonsSuffice(g.config)
    ensures Inv(g, Step(g, l, Server(a)))
  {
    E.StepKeepsInv(g.config, l.s, a);
    if a.Start? && a.batch.Keyed() {
      var d :| d in l.drained && a.batch == Wire(g.stamp, d);
      assert a.batch == g.content(a.batch.batchId.value);
    }
    E.StepKeepsHonest(g.config, l.s, a, g.content);
    ServerKeepsDrained(g, l, a);
    ServerKeepsRest(g, l, a);
  }

  lemma ServerKeepsDrained(g: Setting, l: Loop, a: S.Action)
    requires RequestsDrained(g, l) && RowsDrained(g, l) && Enabled(g, l, Server(a))
    ensures RequestsDrained(g, Step(g, l, Server(a))) && RowsDrained(g, Step(g, l, Server(a)))
  {
    var l' := Step(g, l, Server(a));
    forall q | q in l'.s.requests ensures Sendable(g, l', q.batch) {
      ServerRequests(g, l, a, q);
      var d :| d in l.drained && q.batch == Wire(g.stamp, d);
      assert d in l'.drained;
    }
    forall r | r in l'.s.log ensures RowOfDrained(g, l', r) {
      ServerRows(g, l, a, r);
      var d :| d in l.drained && RowOf(g, d, r);
      assert d in l'.drained;
    }
  }

  lemma ServerKeepsRest(g: Setting, l: Loop, a: S.Action)
    requires AllAcked(g, l) && DrainedFit(g, l) && Enabled(g, l, Server(a))
    requires g.config.batchMax >= R.BATCH_MAX ==> NoneTooLarge(l.s)
    ensures var l' := Step(g, l, Server(a));
            AllAcked(g, l') && DrainedFit(g, l') && (g.config.batchMax >= R.BATCH_MAX ==> NoneTooLarge(l'.s))
  {
    var l' := Step(g, l, Server(a));
    forall e | e in l'.w.finished ensures FinishedAcked(g, l', e) {
      var b :| Acked(g, l.s, b) && e in b.events;
      AckStays(g, l.s, a, b);
    }
    forall q | q in l'.s.requests && g.config.batchMax >= R.BATCH_MAX ensures q.phase != S.Done(S.TooLarge) {
      ServerNeverTooLarge(g, l, a, q);
    }
  }

  lemma StepKeepsInv(g: Setting, l: Loop, act: Act)
    requires Inv(g, l) && Enabled(g, l, act) && E.HorizonsSuffice(g.config)
    ensures Inv(g, Step(g, l, act))
  {
    if act.Client? { ClientKeepsInv(g, l, act.op); } else { ServerKeepsInv(g, l, act.a); }
  }

  lemma {:induction false} RunKeepsInv(g: Setting, l: Loop, acts: seq<Act>)
    requires Inv(g, l) && E.HorizonsSuffice(g.config)
    ensures Inv(g, Run(g, l, acts))
    decreases |acts|
  {
    if acts != [] {
      if Enabled(g, l, acts[0]) {
        StepKeepsInv(g, l, acts[0]);
        RunKeepsInv(g, Step(g, l, acts[0]), acts[1..]);
      } else {
        RunKeepsInv(g, l, acts[1..]);
      }
    }
  }

  // ── end to end ───────────────────────────────────────────────────────────

  ghost predicate Records(r: S.Row, e: nat) { r.kind.Event? && r.payload == e }

  lemma {:induction false} OccursTwice(batches: seq<R.Batch>, a: nat, i: nat, b: nat, j: nat, e: nat)
    requires a < |batches| && i < |batches[a].events| && batches[a].events[i] == e
    requires b < |batches| && j < |batches[b].events| && batches[b].events[j] == e
    requires a < b || (a == b && i < j)
    ensures C.EventsOf(batches)[e] >= 2
  {
    C.SplitHead(batches);
    if a > 0 {
      OccursTwice(batches[1..], a - 1, i, b - 1, j, e);
    } else if b == 0 {
      var events := batches[0].events;
      assert events == events[..j] + events[j..];
      assert events[..j][i] == e && events[j..][0] == e;
      assert e in multiset(events[..j]) && e in multiset(events[j..]);
    } else {
      assert e in multiset(batches[0].events);
      OccursIn(batches[1..], b - 1, j, e);
    }
  }

  lemma {:induction false} OccursIn(batches: seq<R.Batch>, b: nat, j: nat, e: nat)
    requires b < |batches| && j < |batches[b].events| && batches[b].events[j] == e
    ensures C.EventsOf(batches)[e] >= 1
  {
    C.SplitHead(batches);
    if b > 0 { OccursIn(batches[1..], b - 1, j, e); }
  }

  /** Two rows for one event are one and the same row. */
  lemma SameRow(g: Setting, l: Loop, x: S.Row, y: S.Row, e: nat)
    requires Inv(g, l) && x in l.s.log && y in l.s.log && Records(x, e) && Records(y, e)
    ensures x == y
  {
    var d :| d in l.drained && RowOf(g, d, x);
    var f :| f in l.drained && RowOf(g, f, y);
    var a :| 0 <= a < |l.drained| && l.drained[a] == d;
    var b :| 0 <= b < |l.drained| && l.drained[b] == f;
    assert C.EventsOf(l.drained)[e] <= l.w.recorded[e] <= 1;
    if a < b || (a == b && x.index < y.index) {
      OccursTwice(l.drained, a, x.index, b, y.index, e);
    } else if b < a || (a == b && y.index < x.index) {
      OccursTwice(l.drained, b, y.index, a, x.index, e);
    }
  }

  /** A request that carried a drained batch with `e` in it read the clock at an
      instant whose clamp does not accept the event's timestamp. */
  ghost predicate RefusedOnArrival(g: Setting, l: Loop, e: nat) {
    exists q, d :: q in l.s.requests && d in l.drained && q.batch == Wire(g.stamp, d) && e in d.events
                   && !S.ValidTs(g.config, g.stamp(e), q.now)
  }

  /** One body is the wire form of one list of events. */
  lemma WireEvents(stamp: nat -> Option<int>, a: R.Batch, b: R.Batch)
    requires Wire(stamp, a) == Wire(stamp, b)
    ensures a.events == b.events
  {
    assert |Items(stamp, a.events)| == |Items(stamp, b.events)|;
    forall i | 0 <= i < |a.events| ensures a.events[i] == b.events[i] {
      assert Items(stamp, a.events)[i] == Items(stamp, b.events)[i];
    }
  }

  /** An acknowledged batch's event is in the log unless its timestamp was outside
      the clamp when a request carrying the batch arrived. */
  lemma AckedStored(g: Setting, l: Loop, b: R.Batch, e: nat)
    requires Inv(g, l) && Acked(g, l.s, b) && e in b.events
    ensures (exists r :: r in l.s.log && Records(r, e))
            || RefusedOnArrival(g, l, e)
  {
    var q :| q in l.s.requests && q.batch == Wire(g.stamp, b) && IsAck(q);
    assert E.AckBacked(g.config, l.s, q);
    var t :| E.IngestedAt(g.config, l.s, q.batch, t, q.phase.response.accepted, q.phase.response.dropped);
    var i :| 0 <= i < |b.events| && b.events[i] == e;
    if S.ValidTs(g.config, g.stamp(e), t) {
      var r := S.Row(q.batch.batchId, S.Event, i, g.stamp(e).value, e);
      S.BatchRowsExact(g.config, t, q.batch);
      assert S.IsBatchRow(g.config, t, q.batch, r);
      assert r in l.s.log && Records(r, e);
    } else {
      var p :| p in l.s.requests && p.batch == q.batch && p.now == t;
      assert Sendable(g, l, p.batch);
      var d :| d in l.drained && p.batch == Wire(g.stamp, d);
      WireEvents(g.stamp, b, d);
    }
  }

  /** Over every run of the whole loop: no event is ever inserted twice, and an
      event the client recorded is still held there, was given up on and counted
      (or wiped by a crash), or has been inserted and stays in the fact tables
      until retention is due, unless its timestamp was outside the server's clamp
      when a request carrying its batch arrived. */
  lemma EndToEnd(g: Setting, cap: nat, clientClock: nat, spoolUsable: bool, serverClock: int, acts: seq<Act>, e: nat)
    requires E.HorizonsSuffice(g.config)
    ensures var l := Run(g, Boot(cap, clientClock, spoolUsable, serverClock), acts);
            forall i, j :: 0 <= i < j < |l.s.log| && Records(l.s.log[i], e) ==> !Records(l.s.log[j], e)
    ensures var l := Run(g, Boot(cap, clientClock, spoolUsable, serverClock), acts);
            e in l.w.recorded && e !in C.Held(l.w.c) && e !in l.w.lost && e !in l.w.wiped ==>
              || (exists r :: r in l.s.log && Records(r, e) && (E.Retained(g.config, l.s.clock, r) ==> r in l.s.facts))
              || RefusedOnArrival(g, l, e)
    ensures var l := Run(g, Boot(cap, clientClock, spoolUsable, serverClock), acts);
            |l.w.lost| <= R.BATCH_MAX * l.w.Dropped()
  {
    var l0 := Boot(cap, clientClock, spoolUsable, serverClock);
    RunKeepsInv(g, l0, acts);
    var l := Run(g, l0, acts);
    LoggedOnce(g, l, e);
    if e in l.w.recorded && e !in C.Held(l.w.c) && e !in l.w.lost && e !in l.w.wiped {
      assert l.w.recorded[e] == C.Held(l.w.c)[e] + l.w.finished[e] + l.w.lost[e] + l.w.wiped[e];
      assert FinishedAcked(g, l, e);
      var b :| Acked(g, l.s, b) && e in b.events;
      AckedStored(g, l, b, e);
      RunKeepsStored(g, l0, acts);
      if r :| r in l.s.log && Records(r, e) { LoggedIsStored(g, l.s, r); }
    }
  }

  lemma LoggedOnce(g: Setting, l: Loop, e: nat)
    requires Inv(g, l)
    ensures forall i, j :: 0 <= i < j < |l.s.log| && Records(l.s.log[i], e) ==> !Records(l.s.log[j], e)
  {
    forall i, j | 0 <= i < j < |l.s.log| && Records(l.s.log[i], e) ensures !Records(l.s.log[j], e) {
      assert RowOfDrained(g, l, l.s.log[i]);
      assert l.s.log[i].Keyed();
      if Records(l.s.log[j], e) {
        SameRow(g, l, l.s.log[i], l.s.log[j], e);
      }
    }
  }

  lemma LoggedIsStored(g: Setting, s: S.Server, r: S.Row)
    requires E.Kept(g.config, s) && r in s.log
    ensures E.Retained(g.config, s.clock, r) ==> r in s.facts
  {
    assert E.StoredAsLogged(g.config, s, r);
    assert multiset(s.log)[r] > 0;
    assert r in s.facts <==> multiset(s.facts)[r] > 0;
  }

  lemma {:induction false} RunKeepsStored(g: Setting, l: Loop, acts: seq<Act>)
    requires E.Kept(g.config, l.s)
    ensures E.Kept(g.config, Run(g, l, acts).s)
    decreases |acts|
  {
    if acts != [] {
      var l' := if Enabled(g, l, acts[0]) then Step(g, l, acts[0]) else l;
      if Enabled(g, l, acts[0]) && acts[0].Server? { E.StepKeepsStored(g.config, l.s, acts[0].a); }
      RunKeepsStored(g, l', acts[1..]);
    }
  }

  /** The reporter is never told `batch_too_large` by the shipped server. */
  lemma NeverTooLarge(g: Setting, cap: nat, clientClock: nat, spoolUsable: bool, serverClock: int, acts: seq<Act>,
                      q: S.Request)
    requires g.config == S.Shipped(g.config.inFlight) && E.HorizonsSuffice(g.config)
    requires q in Run(g, Boot(cap, clientClock, spoolUsable, serverClock), acts).s.requests
    ensures q.phase != S.Done(S.TooLarge)
  {
    RunKeepsInv(g, Boot(cap, clientClock, spoolUsable, serverClock), acts);
  }
}
