/** The Node telemetry reporter (clients/node/src/telemetry.ts): bounded queues,
    batching, the durable spool and the in-memory fallback.

    `Client` is the reporter's fields together with its spool directory.  What
    the file system and the network answer comes in as parameters. */
module Reporter {
  import opened Options

  const QUEUE_MAX := 10_000
  const BATCH_MAX := 450
  const SIDE_MAX := 64
  const MEM_PENDING_MAX := 64

  datatype Batch = Batch(id: nat, events: seq<nat>, snapshots: seq<nat>, windows: seq<nat>)
  {
    function Total(): nat { |events| + |snapshots| + |windows| }
  }

  /** `seg-<ms>-<serial>.json`; directory listings are sorted by this name. */
  datatype Name = Name(ms: nat, serial: nat)
  {
    predicate Before(other: Name) { ms < other.ms || (ms == other.ms && serial < other.serial) }
  }
  datatype Segment = Segment(name: Name, batch: Batch, bytes: nat)

  datatype Client = Client(
    events: seq<nat>, snapshots: seq<nat>, windows: seq<nat>,
    memPending: seq<Batch>, dropped: nat,
    spool: bool, disk: seq<Segment>, serial: nat)

  datatype WriteResult = Written(bytes: nat) | WriteFailed
  /** A 2xx answer, a 4xx that can never succeed, or anything worth a retry. */
  datatype Outcome = Acked | Rejected | Transient

  // ── recording ────────────────────────────────────────────────────────────

  function RecordEvent(c: Client, e: nat): Client {
    if |c.events| >= QUEUE_MAX then c.(events := c.events[1..] + [e], dropped := c.dropped + 1)
    else c.(events := c.events + [e])
  }

  function PushCapped(buffer: seq<nat>, x: nat): seq<nat> {
    if |buffer| + 1 > SIDE_MAX then (buffer + [x])[1..] else buffer + [x]
  }

  // ── draining ─────────────────────────────────────────────────────────────

  /** Events taken once all snapshots and windows are in the batch. */
  function EventShare(c: Client): nat {
    var budget := if BATCH_MAX >= |c.snapshots| + |c.windows| then BATCH_MAX - |c.snapshots| - |c.windows| else 0;
    if budget < |c.events| then budget else |c.events|
  }

  function Drained(c: Client, id: nat): Batch {
    Batch(id, c.events[..EventShare(c)], c.snapshots, c.windows)
  }

  function AfterDrain(c: Client): Client {
    c.(events := c.events[EventShare(c)..], snapshots := [], windows := [])
  }

  function Buffered(c: Client): nat { |c.events| + |c.snapshots| + |c.windows| }

  // ── the spool ────────────────────────────────────────────────────────────

  function Bytes(disk: seq<Segment>): nat {
    if disk == [] then 0 else disk[0].bytes + Bytes(disk[1..])
  }

  /** How many of the oldest segments `enforceSpoolCap` evicts. */
  function Evictions(disk: seq<Segment>, cap: nat): (n: nat)
    ensures n <= |disk|
  {
    if disk != [] && Bytes(disk) > cap then 1 + Evictions(disk[1..], cap) else 0
  }

  function EnforceSpoolCap(c: Client, cap: nat): Client {
    var n := Evictions(c.disk, cap);
    c.(disk := c.disk[n..], dropped := c.dropped + n)
  }

  predicate OnDisk(disk: seq<Segment>, name: Name) {
    exists i :: 0 <= i < |disk| && disk[i].name == name
  }

  /** Rename the finished file into place: an existing file of that name is
      replaced, otherwise the listing gains an entry at its sorted position. */
  function Store(disk: seq<Segment>, seg: Segment): seq<Segment> {
    if disk == [] then [seg]
    else if disk[0].name == seg.name then [seg] + disk[1..]
    else if disk[0].name.Before(seg.name) then [disk[0]] + Store(disk[1..], seg)
    else [seg] + disk
  }

  function Remove(disk: seq<Segment>, name: Name): seq<Segment> {
    if disk == [] then []
    else if disk[0].name == name then disk[1..]
    else [disk[0]] + Remove(disk[1..], name)
  }

  function SpoolWrite(c: Client, cap: nat, now: nat, b: Batch, w: WriteResult): Client {
    var c1 := EnforceSpoolCap(c, cap).(serial := c.serial + 1);
    if w.Written? then c1.(disk := Store(c1.disk, Segment(Name(now, c1.serial), b, w.bytes))) else c1
  }

  function HoldInMemory(c: Client, b: Batch): Client {
    if |c.memPending| >= MEM_PENDING_MAX then
      c.(memPending := c.memPending[1..] + [b], dropped := c.dropped + 1)
    else c.(memPending := c.memPending + [b])
  }

  function Persist(c: Client, cap: nat, now: nat, b: Batch, w: WriteResult): Client {
    if c.spool then
      var c1 := SpoolWrite(c, cap, now, b, w);
      if w.Written? then c1 else HoldInMemory(c1, b)
    else HoldInMemory(c, b)
  }

  /** What one turn of the drain loop is given: a fresh batch id and the result of
      the write. */
  datatype Turn = Turn(id: nat, write: WriteResult)

  function FlushToStorage(c: Client, cap: nat, now: nat, t: Turn): Client {
    if Buffered(c) == 0 then c
    else Persist(AfterDrain(c), cap, now, Drained(c, t.id), t.write)
  }

  /** `drainAllToStorage`: one batch per turn until nothing is buffered. */
  function DrainAll(c: Client, cap: nat, now: nat, turns: seq<Turn>): Client
    decreases |turns|
  {
    if Buffered(c) == 0 || turns == [] then c
    else DrainAll(FlushToStorage(c, cap, now, turns[0]), cap, now, turns[1..])
  }

  // ── sending ──────────────────────────────────────────────────────────────

  /** `dropped` after a permanent rejection of `b`. */
  function Settle(c: Client, b: Batch, o: Outcome): Client {
    if o.Rejected? then c.(dropped := c.dropped + |b.events|) else c
  }

  /** An answer that never comes counts as a transient failure. */
  predicate Unanswered(answers: seq<Outcome>) { answers == [] || answers[0].Transient? }

  function SendDisk(c: Client, answers: seq<Outcome>): (r: (Client, bool))
    decreases |c.disk|
  {
    if c.disk == [] then (c, true)
    else if Unanswered(answers) then (c, false)
    else SendDisk(Settle(c, c.disk[0].batch, answers[0]).(disk := c.disk[1..]), answers[1..])
  }

  function SendMemory(c: Client, answers: seq<Outcome>): (r: (Client, bool))
    decreases |c.memPending|
  {
    if c.memPending == [] then (c, true)
    else if Unanswered(answers) then (c, false)
    else SendMemory(Settle(c, c.memPending[0], answers[0]).(memPending := c.memPending[1..]), answers[1..])
  }

  /** What the network answers during one pass: for the segments, then for the
      in-memory batches. */
  datatype Answers = Answers(disk: seq<Outcome>, memory: seq<Outcome>)

  /** `sendPending` */
  function SendPass(c: Client, a: Answers): (r: (Client, bool)) {
    var afterDisk := if c.spool then SendDisk(c, a.disk) else (c, true);
    if afterDisk.1 then SendMemory(afterDisk.0, a.memory) else afterDisk
  }

  /** The passes of `close` until one gets everything through or time is up. */
  function SendAll(c: Client, tries: seq<Answers>): Client
    decreases |tries|
  {
    if tries == [] then c
    else
      var pass := SendPass(c, tries[0]);
      if pass.1 then pass.0 else SendAll(pass.0, tries[1..])
  }

  function WithWindow(c: Client, w: Option<nat>): Client {
    if w.Some? then c.(windows := PushCapped(c.windows, w.value)) else c
  }

  /** `close`: a last snapshot and window, everything drained, then sent. */
  function Closed(c: Client, cap: nat, now: nat, snapshot: nat, window: Option<nat>, turns: seq<Turn>,
                  tries: seq<Answers>): Client
  {
    var c1 := WithWindow(c.(snapshots := PushCapped(c.snapshots, snapshot)), window);
    SendAll(DrainAll(c1, cap, now, turns), tries)
  }

  // ── the reporter as the code updates it ──────────────────────────────────

  class AstraTelemetryReporter {
    const cap: nat
    var events: seq<nat>
    var snapshots: seq<nat>
    var windows: seq<nat>
    var memPending: seq<Batch>
    var dropped: nat
    var spool: bool
    var disk: seq<Segment>
    var serial: nat

    /** A fresh process over the segments an earlier one left behind. */
    constructor (spoolMaxBytes: nat, spoolUsable: bool, leftover: seq<Segment>)
      ensures cap == spoolMaxBytes
      ensures View() == Client([], [], [], [], 0, spoolUsable, leftover, 0)
    {
      cap := spoolMaxBytes;
      events, snapshots, windows, memPending, dropped := [], [], [], [], 0;
      spool, disk, serial := spoolUsable, leftover, 0;
    }

    ghost function View(): Client
      reads this
    {
      Client(events, snapshots, windows, memPending, dropped, spool, disk, serial)
    }

    /** The newest events stay, at most `QUEUE_MAX`; each one pushed out is counted. */
    method Record(e: nat)
      modifies this
      ensures events == (old(events) + [e])[if |old(events)| >= QUEUE_MAX then 1 else 0..]
      ensures dropped == if |old(events)| >= QUEUE_MAX then old(dropped) + 1 else old(dropped)
      ensures snapshots == old(snapshots) && windows == old(windows) && memPending == old(memPending)
      ensures disk == old(disk) && serial == old(serial) && spool == old(spool)
      ensures View() == RecordEvent(old(View()), e)
    {
      if |events| >= QUEUE_MAX {
        events := events[1..];
        dropped := dropped + 1;
      }
      events := events + [e];
    }

    method TakeSnapshot(x: nat)
      modifies this
      ensures snapshots == (old(snapshots) + [x])[if |old(snapshots)| >= SIDE_MAX then 1 else 0..]
      ensures View() == old(View()).(snapshots := PushCapped(old(snapshots), x))
    {
      snapshots := snapshots + [x];
      if |snapshots| > SIDE_MAX { snapshots := snapshots[1..]; }
    }

    /** `w` is what the aggregator flushed, if anything. */
    method TakeWindow(w: Option<nat>)
      modifies this
      ensures windows == if w.None? then old(windows)
                         else (old(windows) + [w.value])[if |old(windows)| >= SIDE_MAX then 1 else 0..]
      ensures View() == WithWindow(old(View()), w)
    {
      if w.Some? {
        windows := windows + [w.value];
        if |windows| > SIDE_MAX { windows := windows[1..]; }
      }
    }

    /** All snapshots and windows, and the oldest events the rest of the budget
        holds; nothing but the three queues changes. */
    method DrainToBatch(id: nat) returns (batch: Option<Batch>)
      modifies this
      ensures batch.None? <==> old(events) == [] && old(snapshots) == [] && old(windows) == []
      ensures batch.None? ==> View() == old(View())
      ensures batch.Some? ==>
                && batch.value.id == id
                && batch.value.snapshots == old(snapshots) && batch.value.windows == old(windows)
                && batch.value.events + events == old(events)
                && (events == [] || |batch.value.events| + |old(snapshots)| + |old(windows)| >= BATCH_MAX)
                && (batch.value.events == [] || batch.value.Total() <= BATCH_MAX)
                && View() == old(View()).(events := events, snapshots := [], windows := [])
      ensures if Buffered(old(View())) == 0 then batch == None && View() == old(View())
              else batch == Some(Drained(old(View()), id)) && View() == AfterDrain(old(View()))
    {
      var takenSnapshots, takenWindows := snapshots, windows;
      snapshots, windows := [], [];
      var room: int := BATCH_MAX - |takenSnapshots| - |takenWindows|;
      var budget := if room < 0 then 0 else room;
      var n := if budget < |events| then budget else |events|;
      var taken := events[..n];
      assert events == taken + events[n..];
      events := events[n..];
      if taken == [] && takenSnapshots == [] && takenWindows == [] {
        return None;
      }
      return Some(Batch(id, taken, takenSnapshots, takenWindows));
    }

    method EnforceCap()
      modifies this
      ensures View() == EnforceSpoolCap(old(View()), cap)
    {
      var total := 0;
      for k := 0 to |disk|
        invariant total + Bytes(disk[k..]) == Bytes(disk)
        invariant View() == old(View())
      {
        total := total + disk[k].bytes;
      }
      var segs := disk;
      var i := 0;
      while total > cap && i < |segs|
        invariant i <= |segs| && total == Bytes(segs[i..])
        invariant i + Evictions(segs[i..], cap) == Evictions(segs, cap)
        invariant segs == old(disk) && View() == old(View()).(disk := segs[i..], dropped := old(dropped) + i)
        decreases |segs| - i
      {
        total := total - segs[i].bytes;
        disk := Remove(disk, segs[i].name);
        dropped := dropped + 1;
        i := i + 1;
      }
    }

    method Write(now: nat, b: Batch, w: WriteResult) returns (ok: bool)
      modifies this
      ensures View() == SpoolWrite(old(View()), cap, now, b, w) && ok == w.Written?
      ensures serial == old(serial) + 1 && memPending == old(memPending)
      ensures ok ==> Segment(Name(now, serial), b, w.bytes) in disk
    {
      EnforceCap();
      serial := serial + 1;
      if w.WriteFailed? {
        return false;
      }
      StoredIsListed(disk, Segment(Name(now, serial), b, w.bytes));
      disk := Store(disk, Segment(Name(now, serial), b, w.bytes));
      return true;
    }

    method PersistBatch(now: nat, b: Batch, w: WriteResult)
      modifies this
      ensures events == old(events) && snapshots == old(snapshots) && windows == old(windows)
      ensures if old(spool) && w.Written? then
                memPending == old(memPending) && Segment(Name(now, old(serial) + 1), b, w.bytes) in disk
              else
                memPending == old(memPending)[if |old(memPending)| >= MEM_PENDING_MAX then 1 else 0..] + [b]
      ensures View() == Persist(old(View()), cap, now, b, w)
    {
      if spool {
        var ok := Write(now, b, w);
        if ok { return; }
      }
      if |memPending| >= MEM_PENDING_MAX {
        memPending := memPending[1..];
        dropped := dropped + 1;
      }
      memPending := memPending + [b];
    }

    /** The drain loop of `close`; `turns` supplies ids and write results. */
    method DrainAllToStorage(now: nat, turns: seq<Turn>)
      requires |turns| >= Buffered(View())
      modifies this
      ensures View() == DrainAll(old(View()), cap, now, turns)
      ensures events == [] && snapshots == [] && windows == []
    {
      var i := 0;
      while true
        invariant i <= |turns| && |turns| - i >= Buffered(View())
        invariant DrainAll(old(View()), cap, now, turns) == DrainAll(View(), cap, now, turns[i..])
        decreases Buffered(View())
      {
        ghost var before := View();
        var id := if i < |turns| then turns[i].id else 0;
        var batch := DrainToBatch(id);
        if batch.None? { break; }
        DrainShrinks(before);
        assert turns[i..][0] == turns[i] && turns[i..][1..] == turns[i + 1..];
        PersistBatch(now, batch.value, turns[i].write);
        PersistKeepsBuffers(AfterDrain(before), cap, now, batch.value, turns[i].write);
        i := i + 1;
      }
    }

    /** One flush pass, oldest segment first, then the in-memory batches. */
    method SendPending(a: Answers) returns (all: bool)
      modifies this
      ensures (View(), all) == SendPass(old(View()), a)
    {
      var answers := a.disk;
      if spool {
        var segs := disk;
        for i := 0 to |segs|
          invariant spool && disk == segs[i..] && memPending == old(memPending)
          invariant SendDisk(old(View()), a.disk) == SendDisk(View(), answers)
        {
          if Unanswered(answers) {
            return false;
          }
          assert disk[0] == segs[i] && disk[1..] == segs[i + 1..];
          if answers[0].Rejected? {
            dropped := dropped + |segs[i].batch.events|;
          }
          disk := Remove(disk, segs[i].name);
          answers := answers[1..];
        }
      }
      ghost var mid := View();
      answers := a.memory;
      while |memPending| > 0
        invariant SendMemory(mid, a.memory) == SendMemory(View(), answers)
        decreases |memPending|
      {
        if Unanswered(answers) {
          return false;
        }
        if answers[0].Rejected? {
          dropped := dropped + |memPending[0].events|;
        }
        memPending := memPending[1..];
        answers := answers[1..];
      }
      return true;
    }

    /** `close`, called once; `tries` are the passes the time budget allows. */
    method Close(now: nat, snapshot: nat, window: Option<nat>, turns: seq<Turn>, tries: seq<Answers>)
      requires |turns| >= Buffered(View()) + 2
      modifies this
      ensures View() == Closed(old(View()), cap, now, snapshot, window, turns, tries)
    {
      TakeSnapshot(snapshot);
      TakeWindow(window);
      DrainAllToStorage(now, turns);
      ghost var drained := View();
      var i := 0;
      while i < |tries|
        invariant i <= |tries|
        invariant SendAll(drained, tries) == SendAll(View(), tries[i..])
      {
        var all := SendPending(tries[i]);
        assert tries[i..][0] == tries[i] && tries[i..][1..] == tries[i + 1..];
        if all { return; }
        i := i + 1;
      }
    }
  }

  // ── properties of the pieces ─────────────────────────────────────────────

  /** The fewest of the oldest segments whose eviction brings the spool under the
      cap, or all of them. */
  lemma {:induction false} EvictionsExact(disk: seq<Segment>, cap: nat)
    ensures var n := Evictions(disk, cap);
            && (disk[n..] == [] || Bytes(disk[n..]) <= cap)
            && forall k :: 0 <= k < n ==> Bytes(disk[k..]) > cap
  {
    if disk != [] && Bytes(disk) > cap {
      EvictionsExact(disk[1..], cap);
      var n := Evictions(disk, cap);
      assert disk[n..] == disk[1..][n - 1..];
      forall k | 0 <= k < n ensures Bytes(disk[k..]) > cap {
        if k > 0 { assert disk[k..] == disk[1..][k - 1..]; } else { assert disk[0..] == disk; }
      }
    }
  }

  /** How many of these batches a pass settles: those before the first transient or
      missing answer. */
  ghost function SettledBy(pending: nat, answers: seq<Outcome>): (n: nat)
    ensures n <= pending && n <= |answers|
  {
    if pending == 0 || answers == [] || answers[0] == Transient then 0 else 1 + SettledBy(pending - 1, answers[1..])
  }

  /** Events of the batches that were rejected for good. */
  ghost function RejectedEvents(batches: seq<Batch>, answers: seq<Outcome>): nat
    requires |batches| <= |answers|
  {
    if batches == [] then 0
    else (if answers[0] == Rejected then |batches[0].events| else 0) + RejectedEvents(batches[1..], answers[1..])
  }

  /** A pass over the in-memory queue that ends in this client and verdict took out
      exactly the batches before the first transient answer, counted exactly the
      rejected ones' events, and reports success when none is left. */
  ghost predicate MemoryPassed(c: Client, answers: seq<Outcome>, after: Client, all: bool) {
    var n := SettledBy(|c.memPending|, answers);
    && after == c.(memPending := c.memPending[n..],
                   dropped := c.dropped + RejectedEvents(c.memPending[..n], answers))
    && (all <==> n == |c.memPending|)
  }

  lemma {:induction false} SendMemoryExact(c: Client, answers: seq<Outcome>)
    ensures MemoryPassed(c, answers, SendMemory(c, answers).0, SendMemory(c, answers).1)
    decreases |c.memPending|
  {
    if c.memPending == [] || Unanswered(answers) {
      assert SettledBy(|c.memPending|, answers) == 0 && c.memPending[0..] == c.memPending;
      return;
    }
    var c1 := Settle(c, c.memPending[0], answers[0]).(memPending := c.memPending[1..]);
    SendMemoryExact(c1, answers[1..]);
    BatchSettled(c, answers, c1, SendMemory(c1, answers[1..]).0, SendMemory(c1, answers[1..]).1);
  }

  lemma BatchSettled(c: Client, answers: seq<Outcome>, c1: Client, after: Client, all: bool)
    requires c.memPending != [] && !Unanswered(answers)
    requires c1 == Settle(c, c.memPending[0], answers[0]).(memPending := c.memPending[1..])
    requires MemoryPassed(c1, answers[1..], after, all)
    ensures MemoryPassed(c, answers, after, all)
  {
    var n := SettledBy(|c.memPending|, answers);
    RejectedStep(c.memPending, answers, n);
    assert SettledBy(|c1.memPending|, answers[1..]) == n - 1;
    assert c.memPending[1..][n - 1..] == c.memPending[n..];
  }

  lemma RejectedStep(batches: seq<Batch>, answers: seq<Outcome>, n: nat)
    requires 0 < n <= |batches| && n <= |answers|
    ensures RejectedEvents(batches[..n], answers)
         == (if answers[0] == Rejected then |batches[0].events| else 0)
            + RejectedEvents(batches[1..][..n - 1], answers[1..])
  {
    assert batches[..n][1..] == batches[1..][..n - 1];
  }

  function Batches(disk: seq<Segment>): seq<Batch> { seq(|disk|, k requires 0 <= k < |disk| => disk[k].batch) }

  /** A pass over the spool that ends in this client and verdict did the same, oldest
      segment first. */
  ghost predicate SpoolPassed(c: Client, answers: seq<Outcome>, after: Client, all: bool) {
    var n := SettledBy(|c.disk|, answers);
    && after == c.(disk := c.disk[n..], dropped := c.dropped + RejectedEvents(Batches(c.disk[..n]), answers))
    && (all <==> n == |c.disk|)
  }

  lemma {:induction false} SendDiskExact(c: Client, answers: seq<Outcome>)
    ensures SpoolPassed(c, answers, SendDisk(c, answers).0, SendDisk(c, answers).1)
    decreases |c.disk|
  {
    if c.disk == [] || Unanswered(answers) {
      assert SettledBy(|c.disk|, answers) == 0 && c.disk[0..] == c.disk;
      return;
    }
    var c1 := Settle(c, c.disk[0].batch, answers[0]).(disk := c.disk[1..]);
    SendDiskExact(c1, answers[1..]);
    SegmentSettled(c, answers, c1, SendDisk(c1, answers[1..]).0, SendDisk(c1, answers[1..]).1);
  }

  lemma SegmentSettled(c: Client, answers: seq<Outcome>, c1: Client, after: Client, all: bool)
    requires c.disk != [] && !Unanswered(answers)
    requires c1 == Settle(c, c.disk[0].batch, answers[0]).(disk := c.disk[1..])
    requires SpoolPassed(c1, answers[1..], after, all)
    ensures SpoolPassed(c, answers, after, all)
  {
    var n := SettledBy(|c.disk|, answers);
    RejectedSegments(c.disk, answers, n);
    assert SettledBy(|c1.disk|, answers[1..]) == n - 1;
    assert c.disk[1..][n - 1..] == c.disk[n..];
  }

  lemma RejectedSegments(disk: seq<Segment>, answers: seq<Outcome>, n: nat)
    requires 0 < n <= |disk| && n <= |answers|
    ensures RejectedEvents(Batches(disk[..n]), answers)
         == (if answers[0] == Rejected then |disk[0].batch.events| else 0)
            + RejectedEvents(Batches(disk[1..][..n - 1]), answers[1..])
  {
    assert Batches(disk[..n])[1..] == Batches(disk[1..][..n - 1]);
  }

  lemma {:induction false} StoredIsListed(disk: seq<Segment>, seg: Segment)
    ensures seg in Store(disk, seg)
  {
    if disk != [] { StoredIsListed(disk[1..], seg); }
  }

  /** Draining always makes progress, so the loop in `close` ends. */
  lemma DrainShrinks(c: Client)
    requires Buffered(c) > 0
    ensures Buffered(AfterDrain(c)) < Buffered(c)
  {
  }

  lemma PersistKeepsBuffers(c: Client, cap: nat, now: nat, b: Batch, w: WriteResult)
    ensures var c' := Persist(c, cap, now, b, w);
            c'.events == c.events && c'.snapshots == c.snapshots && c'.windows == c.windows
  {
  }
}
