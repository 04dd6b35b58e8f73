/** Event conservation and spool discipline over every run of the reporter:
    recording, flushing, sending, crashes and restarts in any order. */
module Conservation {
  import opened Options
  import opened Reporter

  // ── where events are ─────────────────────────────────────────────────────

  ghost function EventsOf(batches: seq<Batch>): multiset<nat> {
    if batches == [] then multiset{} else multiset(batches[0].events) + EventsOf(batches[1..])
  }

  ghost function DiskEvents(disk: seq<Segment>): multiset<nat> {
    if disk == [] then multiset{} else multiset(disk[0].batch.events) + DiskEvents(disk[1..])
  }

  ghost function Held(c: Client): multiset<nat> {
    multiset(c.events) + EventsOf(c.memPending) + DiskEvents(c.disk)
  }

  lemma {:induction false} EventsOfConcat(a: seq<Batch>, b: seq<Batch>)
    ensures EventsOf(a + b) == EventsOf(a) + EventsOf(b)
  {
    if a == [] {
      assert a + b == b;
    } else {
      assert (a + b)[1..] == a[1..] + b;
      EventsOfConcat(a[1..], b);
    }
  }

  lemma {:induction false} DiskConcat(a: seq<Segment>, b: seq<Segment>)
    ensures DiskEvents(a + b) == DiskEvents(a) + DiskEvents(b)
  {
    if a == [] {
      assert a + b == b;
    } else {
      assert (a + b)[1..] == a[1..] + b;
      DiskConcat(a[1..], b);
    }
  }

  lemma OneSegment(s: Segment)
    ensures DiskEvents([s]) == multiset(s.batch.events)
  {
    assert DiskEvents([s][1..]) == multiset{};
  }

  lemma SplitHead(batches: seq<Batch>)
    requires batches != []
    ensures EventsOf(batches) == multiset(batches[0].events) + EventsOf(batches[1..])
  {
  }

  // ── runs ─────────────────────────────────────────────────────────────────

  /** The client with the accounts of its whole history, across restarts. */
  datatype World = World(
    c: Client, cap: nat, clock: nat,
    recorded: multiset<nat>, finished: multiset<nat>, lost: multiset<nat>, wiped: multiset<nat>,
    earlierDropped: nat)
  {
    /** The drop count summed over this process and the ones before it. */
    function Dropped(): nat { c.dropped + earlierDropped }
  }

  datatype Op =
    | Tick(elapsed: nat)
    | Record(e: nat)
    | Snapshot(x: nat)
    | Window(x: nat)
    | Flush(turn: Turn)
    /** The answer to a segment read earlier as `b`; it may be gone by now. */
    | SendSegment(name: Name, b: Batch, o: Outcome)
    /** The answer to the oldest in-memory batch, with one flush at a time. */
    | SendHeld(o: Outcome)
    /** The process dies and a new one starts over the same spool. */
    | Restart(spoolUsable: bool)

  ghost predicate NamedBefore(disk: seq<Segment>, name: Name) {
    forall s :: s in disk ==> s.name.Before(name)
  }

  ghost predicate Ordered(disk: seq<Segment>) {
    forall i, j :: 0 <= i < j < |disk| ==> disk[i].name.Before(disk[j].name)
  }

  /** What the operation itself needs. */
  ghost predicate Possible(w: World, op: Op) {
    match op
    case Record(e) => e !in w.recorded
    case SendHeld(_) => w.c.memPending != []
    case _ => true
  }

  /** Operations as they go when a segment still holds what was read from it, and
      a new process starts in a later millisecond than its leftovers were written
      (or with higher sequence numbers); `Interference` lifts both. */
  ghost predicate Enabled(w: World, op: Op) {
    && Possible(w, op)
    && match op
       case SendSegment(name, b, _) => forall s :: s in w.c.disk && s.name == name ==> s.batch == b
       case Restart(_) => NamedBefore(w.c.disk, Name(w.clock, 1))
       case _ => true
  }

  /** Events of segments the byte cap evicts before a write. */
  ghost function Evicted(w: World): multiset<nat> {
    DiskEvents(w.c.disk[..Evictions(w.c.disk, w.cap)])
  }

  ghost function Overflowed(c: Client): multiset<nat> {
    if |c.memPending| >= MEM_PENDING_MAX then multiset(c.memPending[0].events) else multiset{}
  }

  /** What a flush gives up on: evictions if the spool is used, and the oldest
      in-memory batch if the new one has to be held there. */
  ghost function FlushLoss(w: World, t: Turn): multiset<nat> {
    (if w.c.spool then Evicted(w) else multiset{})
    + (if w.c.spool && t.write.Written? then multiset{} else Overflowed(w.c))
  }

  ghost function Step(w: World, op: Op): World
    requires Possible(w, op)
  {
    match op
    case Tick(elapsed) => w.(clock := w.clock + elapsed)
    case Record(e) =>
      w.(c := RecordEvent(w.c, e),
         recorded := w.recorded + multiset{e},
         lost := if |w.c.events| >= QUEUE_MAX then w.lost + multiset{w.c.events[0]} else w.lost)
    case Snapshot(x) => w.(c := w.c.(snapshots := PushCapped(w.c.snapshots, x)))
    case Window(x) => w.(c := w.c.(windows := PushCapped(w.c.windows, x)))
    case Flush(t) =>
      if Buffered(w.c) == 0 then w
      else w.(c := FlushToStorage(w.c, w.cap, w.clock, t), lost := w.lost + FlushLoss(w, t))
    case SendSegment(name, b, o) =>
      var there := OnDisk(w.c.disk, name);
      var moved := if there then multiset(b.events) else multiset{};
      if o.Transient? then w
      else
        w.(c := Settle(w.c, b, o).(disk := Remove(w.c.disk, name)),
           finished := if o.Acked? then w.finished + moved else w.finished,
           lost := if o.Rejected? then w.lost + moved else w.lost)
    case SendHeld(o) =>
      var moved := multiset(w.c.memPending[0].events);
      if o.Transient? then w
      else
        w.(c := Settle(w.c, w.c.memPending[0], o).(memPending := w.c.memPending[1..]),
           finished := if o.Acked? then w.finished + moved else w.finished,
           lost := if o.Rejected? then w.lost + moved else w.lost)
    case Restart(spoolUsable) =>
      w.(c := Client([], [], [], [], 0, spoolUsable, w.c.disk, 0),
         wiped := w.wiped + multiset(w.c.events) + EventsOf(w.c.memPending),
         earlierDropped := w.earlierDropped + w.c.dropped)
  }

  /** A run; operations that are not enabled do not happen. */
  ghost function Run(w: World, ops: seq<Op>): World
    decreases |ops|
  {
    if ops == [] then w
    else Run(if Enabled(w, ops[0]) then Step(w, ops[0]) else w, ops[1..])
  }

  ghost function Boot(cap: nat, clock: nat, spoolUsable: bool): World {
    World(Client([], [], [], [], 0, spoolUsable, [], 0), cap, clock,
          multiset{}, multiset{}, multiset{}, multiset{}, 0)
  }

  // ── the invariant ────────────────────────────────────────────────────────

  ghost predicate Conserved(w: World) {
    w.recorded == Held(w.c) + w.finished + w.lost + w.wiped
  }

  ghost predicate Sized(c: Client) {
    && |c.snapshots| <= SIDE_MAX && |c.windows| <= SIDE_MAX
    && (forall b :: b in c.memPending ==> b.Total() <= BATCH_MAX)
    && (forall s :: s in c.disk ==> s.batch.Total() <= BATCH_MAX)
  }

  ghost predicate Named(w: World) {
    Ordered(w.c.disk) && NamedBefore(w.c.disk, Name(w.clock, w.c.serial + 1))
  }

  ghost predicate LossCounted(w: World) {
    |w.lost| <= BATCH_MAX * w.Dropped()
  }

  ghost predicate Inv(w: World) {
    && Conserved(w) && Sized(w.c) && Named(w) && LossCounted(w)
    && (forall e :: w.recorded[e] <= 1)
  }

  /** The batch of a drain never exceeds the combined budget. */
  lemma DrainedFits(c: Client, id: nat)
    requires |c.snapshots| <= SIDE_MAX && |c.windows| <= SIDE_MAX
    ensures Drained(c, id).Total() <= BATCH_MAX
  {
  }

  lemma StoreAppends(disk: seq<Segment>, seg: Segment)
    requires NamedBefore(disk, seg.name)
    ensures Store(disk, seg) == disk + [seg]
  {
    if disk != [] {
      assert disk[0] in disk;
      forall s | s in disk[1..] ensures s.name.Before(seg.name) { assert s in disk; }
      StoreAppends(disk[1..], seg);
      assert disk + [seg] == [disk[0]] + (disk[1..] + [seg]);
    }
  }

  lemma {:induction false} RemoveShape(disk: seq<Segment>, name: Name) returns (i: nat)
    ensures if OnDisk(disk, name)
            then i < |disk| && disk[i].name == name && Remove(disk, name) == disk[..i] + disk[i + 1..]
            else Remove(disk, name) == disk
  {
    i := 0;
    if disk != [] { OnDiskTail(disk, name); }
    if disk != [] && disk[0].name != name {
      var k := RemoveShape(disk[1..], name);
      if OnDisk(disk, name) {
        i := k + 1;
        CutTail(disk, k);
      }
    }
  }

  lemma OnDiskTail(disk: seq<Segment>, name: Name)
    requires disk != []
    ensures OnDisk(disk, name) <==> disk[0].name == name || OnDisk(disk[1..], name)
  {
    if j :| 0 <= j < |disk| && disk[j].name == name {
      if j > 0 { assert disk[1..][j - 1].name == name; }
    }
    if j :| 0 <= j < |disk[1..]| && disk[1..][j].name == name { assert disk[j + 1].name == name; }
  }

  lemma CutTail(disk: seq<Segment>, k: nat)
    requires k < |disk| - 1
    ensures [disk[0]] + (disk[1..][..k] + disk[1..][k + 1..]) == disk[..k + 1] + disk[k + 2..]
    ensures disk[1..][k] == disk[k + 1]
  {
  }

  lemma RemoveEvents(disk: seq<Segment>, name: Name, b: Batch)
    requires forall s :: s in disk && s.name == name ==> s.batch == b
    ensures DiskEvents(disk)
         == DiskEvents(Remove(disk, name)) + if OnDisk(disk, name) then multiset(b.events) else multiset{}
  {
    var i := RemoveShape(disk, name);
    if OnDisk(disk, name) {
      assert disk[i] in disk;
      WithoutOne(disk[..i], disk[i], disk[i + 1..]);
      assert disk == disk[..i] + ([disk[i]] + disk[i + 1..]);
    }
  }

  lemma WithoutOne(a: seq<Segment>, s: Segment, b: seq<Segment>)
    ensures DiskEvents(a + ([s] + b)) == DiskEvents(a + b) + multiset(s.batch.events)
  {
    OneSegment(s);
    DiskConcat(a, b);
    DiskConcat([s], b);
    DiskConcat(a, [s] + b);
  }

  lemma RemoveKeepsShape(disk: seq<Segment>, name: Name)
    requires Ordered(disk)
    ensures Ordered(Remove(disk, name))
    ensures forall s :: s in Remove(disk, name) ==> s in disk
    ensures forall s :: s in disk && s.name != name ==> s in Remove(disk, name)
  {
    RemoveMembers(disk, name);
    var i := RemoveShape(disk, name);
    if OnDisk(disk, name) {
      assert forall a, b :: 0 <= a < b < |disk| ==> disk[a].name.Before(disk[b].name);
    }
  }

  lemma {:induction false} RemoveMembers(disk: seq<Segment>, name: Name)
    ensures forall s :: s in Remove(disk, name) ==> s in disk
    ensures forall s :: s in disk && s.name != name ==> s in Remove(disk, name)
  {
    if disk != [] {
      RemoveMembers(disk[1..], name);
      assert forall s :: s in disk <==> s == disk[0] || s in disk[1..];
    }
  }

  lemma {:induction false} DiskCapacity(disk: seq<Segment>)
    requires forall s :: s in disk ==> s.batch.Total() <= BATCH_MAX
    ensures |DiskEvents(disk)| <= BATCH_MAX * |disk|
  {
    if disk != [] {
      assert disk[0] in disk;
      DiskCapacity(disk[1..]);
    }
  }

  lemma HoldKeeps(c: Client, b: Batch)
    ensures Held(HoldInMemory(c, b)) + Overflowed(c) == Held(c) + multiset(b.events)
  {
    var c' := HoldInMemory(c, b);
    if |c.memPending| >= MEM_PENDING_MAX {
      EventsOfConcat(c.memPending[1..], [b]);
      SplitHead(c.memPending);
    } else {
      EventsOfConcat(c.memPending, [b]);
    }
  }

  lemma EvictKeeps(w: World)
    ensures Held(EnforceSpoolCap(w.c, w.cap)) + Evicted(w) == Held(w.c)
  {
    var n := Evictions(w.c.disk, w.cap);
    DiskConcat(w.c.disk[..n], w.c.disk[n..]);
    assert w.c.disk[..n] + w.c.disk[n..] == w.c.disk;
    assert EnforceSpoolCap(w.c, w.cap).disk == w.c.disk[n..];
    Reassociate(multiset(w.c.events) + EventsOf(w.c.memPending), DiskEvents(w.c.disk[..n]), DiskEvents(w.c.disk[n..]));
  }

  lemma Reassociate(a: multiset<nat>, b: multiset<nat>, c: multiset<nat>)
    ensures (a + c) + b == a + (b + c)
  {
  }

  lemma StoreKeeps(c: Client, seg: Segment)
    requires NamedBefore(c.disk, seg.name)
    ensures Held(c.(disk := Store(c.disk, seg))) == Held(c) + multiset(seg.batch.events)
  {
    StoreAppends(c.disk, seg);
    DiskConcat(c.disk, [seg]);
    OneSegment(seg);
  }

  lemma SpoolWriteKeeps(w: World, b: Batch, r: WriteResult)
    requires Named(w)
    ensures Held(SpoolWrite(w.c, w.cap, w.clock, b, r)) + Evicted(w)
         == Held(w.c) + if r.Written? then multiset(b.events) else multiset{}
  {
    EvictKeeps(w);
    var c1 := EnforceSpoolCap(w.c, w.cap).(serial := w.c.serial + 1);
    assert Held(c1) == Held(EnforceSpoolCap(w.c, w.cap));
    if r.Written? {
      forall s | s in c1.disk ensures s.name.Before(Name(w.clock, c1.serial)) { assert s in w.c.disk; }
      StoreKeeps(c1, Segment(Name(w.clock, c1.serial), b, r.bytes));
    }
  }

  lemma PersistOnDisk(w: World, b: Batch, t: Turn)
    requires Named(w) && w.c.spool
    ensures Held(Persist(w.c, w.cap, w.clock, b, t.write)) + FlushLoss(w, t) == Held(w.c) + multiset(b.events)
  {
    SpoolWriteKeeps(w, b, t.write);
    var c1 := SpoolWrite(w.c, w.cap, w.clock, b, t.write);
    if t.write.WriteFailed? {
      HoldKeeps(c1, b);
      assert Overflowed(c1) == Overflowed(w.c);
      Regroup(Held(HoldInMemory(c1, b)), Overflowed(c1), Held(c1), Evicted(w), Held(w.c), multiset(b.events));
    }
  }

  lemma Regroup(x: multiset<nat>, over: multiset<nat>, y: multiset<nat>, evicted: multiset<nat>, z: multiset<nat>,
                b: multiset<nat>)
    requires x + over == y + b && y + evicted == z
    ensures x + (evicted + over) == z + b
  {
    assert x + (evicted + over) == (x + over) + evicted;
    assert (y + b) + evicted == (y + evicted) + b;
  }

  /** Persisting a batch moves its events into storage and gives up exactly what
      `FlushLoss` says. */
  lemma PersistKeeps(w: World, b: Batch, t: Turn)
    requires Named(w)
    ensures Held(Persist(w.c, w.cap, w.clock, b, t.write)) + FlushLoss(w, t) == Held(w.c) + multiset(b.events)
  {
    if w.c.spool { PersistOnDisk(w, b, t); } else { HoldKeeps(w.c, b); }
  }

  lemma DrainKeeps(c: Client, id: nat)
    ensures Held(AfterDrain(c)) + multiset(Drained(c, id).events) == Held(c)
  {
    assert c.events == c.events[..EventShare(c)] + c.events[EventShare(c)..];
  }

  lemma AppendOrdered(disk: seq<Segment>, seg: Segment)
    requires Ordered(disk) && NamedBefore(disk, seg.name)
    ensures Ordered(disk + [seg])
  {
    forall i, j | 0 <= i < j < |disk + [seg]|
      ensures (disk + [seg])[i].name.Before((disk + [seg])[j].name)
    {
      if j == |disk| { assert disk[i] in disk; }
    }
  }

  /** The spool after a write: survivors of the cap, then the new segment. */
  lemma WriteShape(w: World, b: Batch, bytes: nat)
    requires Named(w)
    ensures var n := Evictions(w.c.disk, w.cap);
            SpoolWrite(w.c, w.cap, w.clock, b, Written(bytes)).disk
            == w.c.disk[n..] + [Segment(Name(w.clock, w.c.serial + 1), b, bytes)]
    ensures Ordered(SpoolWrite(w.c, w.cap, w.clock, b, Written(bytes)).disk)
  {
    var n := Evictions(w.c.disk, w.cap);
    var seg := Segment(Name(w.clock, w.c.serial + 1), b, bytes);
    forall s | s in w.c.disk[n..] ensures s.name.Before(seg.name) { assert s in w.c.disk; }
    StoreAppends(w.c.disk[n..], seg);
    AppendOrdered(w.c.disk[n..], seg);
  }

  lemma SpoolWriteShape(w: World, b: Batch, r: WriteResult)
    requires Named(w) && Sized(w.c) && b.Total() <= BATCH_MAX
    ensures var c' := SpoolWrite(w.c, w.cap, w.clock, b, r);
            Sized(c') && Named(w.(c := c'))
  {
    var c' := SpoolWrite(w.c, w.cap, w.clock, b, r);
    var n := Evictions(w.c.disk, w.cap);
    if r.Written? { WriteShape(w, b, r.bytes); }
    forall s | s in c'.disk
      ensures s.batch.Total() <= BATCH_MAX && s.name.Before(Name(w.clock, c'.serial + 1))
    {
      if s in w.c.disk[n..] { assert s in w.c.disk; }
    }
  }

  lemma PersistShape(w: World, b: Batch, t: Turn)
    requires Named(w) && Sized(w.c) && b.Total() <= BATCH_MAX
    ensures var c' := Persist(w.c, w.cap, w.clock, b, t.write);
            Sized(c') && Named(w.(c := c'))
  {
    if w.c.spool { SpoolWriteShape(w, b, t.write); }
  }

  lemma FlushLossCounted(w: World, b: Batch, t: Turn)
    requires Sized(w.c)
    ensures var c' := Persist(w.c, w.cap, w.clock, b, t.write);
            c'.dropped >= w.c.dropped && |FlushLoss(w, t)| <= BATCH_MAX * (c'.dropped - w.c.dropped)
  {
    var n := Evictions(w.c.disk, w.cap);
    forall s | s in w.c.disk[..n] ensures s.batch.Total() <= BATCH_MAX { assert s in w.c.disk; }
    DiskCapacity(w.c.disk[..n]);
    if w.c.memPending != [] { assert w.c.memPending[0] in w.c.memPending; }
    assert |Overflowed(w.c)| <= BATCH_MAX;
  }

  /** A flush is a drain and a write, and gives up what the write gives up. */
  lemma FlushIsPersist(w: World, t: Turn)
    requires Buffered(w.c) > 0
    ensures var w1 := w.(c := AfterDrain(w.c));
            Step(w, Flush(t)).c == Persist(w1.c, w.cap, w.clock, Drained(w.c, t.id), t.write)
            && FlushLoss(w1, t) == FlushLoss(w, t)
  {
  }

  lemma FlushBounded(w: World, t: Turn)
    requires Sized(w.c) && LossCounted(w) && Buffered(w.c) > 0
    ensures LossCounted(Step(w, Flush(t)))
  {
    var w1 := w.(c := AfterDrain(w.c));
    FlushIsPersist(w, t);
    FlushLossCounted(w1, Drained(w.c, t.id), t);
    assert |w.lost + FlushLoss(w, t)| == |w.lost| + |FlushLoss(w, t)|;
  }

  lemma FlushConserves(w: World, t: Turn)
    requires Conserved(w) && Named(w) && Buffered(w.c) > 0
    ensures Conserved(Step(w, Flush(t)))
  {
    var b := Drained(w.c, t.id);
    var w1 := w.(c := AfterDrain(w.c));
    FlushIsPersist(w, t);
    DrainKeeps(w.c, t.id);
    PersistKeeps(w1, b, t);
    Given(w.recorded, Held(w.c), Held(Step(w, Flush(t)).c), FlushLoss(w, t), w.finished, w.lost, w.wiped);
  }

  lemma FlushKeepsInv(w: World, t: Turn)
    requires Inv(w) && Buffered(w.c) > 0
    ensures Inv(Step(w, Flush(t)))
  {
    FlushConserves(w, t);
    FlushBounded(w, t);
    FlushShape(w, t);
    assert Step(w, Flush(t)).recorded == w.recorded;
  }

  lemma FlushShape(w: World, t: Turn)
    requires Sized(w.c) && Named(w) && Buffered(w.c) > 0
    ensures Sized(Step(w, Flush(t)).c) && Named(Step(w, Flush(t)))
  {
    FlushIsPersist(w, t);
    DrainedFits(w.c, t.id);
    PersistShape(w.(c := AfterDrain(w.c)), Drained(w.c, t.id), t);
  }

  /** What a flush keeps and what it gives up are together what was held. */
  lemma Given(recorded: multiset<nat>, held: multiset<nat>, kept: multiset<nat>, loss: multiset<nat>,
              finished: multiset<nat>, lost: multiset<nat>, wiped: multiset<nat>)
    requires recorded == held + finished + lost + wiped && kept + loss == held
    ensures recorded == kept + finished + (lost + loss) + wiped && |lost + loss| == |lost| + |loss|
  {
  }

  /** Events `m` leave the client for one of the accounts. */
  lemma Moved(recorded: multiset<nat>, held: multiset<nat>, held1: multiset<nat>, m: multiset<nat>,
              finished: multiset<nat>, lost: multiset<nat>, wiped: multiset<nat>)
    requires recorded == held + finished + lost + wiped && held == held1 + m
    ensures recorded == held1 + (finished + m) + lost + wiped
    ensures recorded == held1 + finished + (lost + m) + wiped
  {
  }

  lemma SendSegmentConserves(w: World, name: Name, b: Batch, o: Outcome)
    requires Conserved(w) && Enabled(w, SendSegment(name, b, o)) && !o.Transient?
    ensures Conserved(Step(w, SendSegment(name, b, o)))
  {
    var w' := Step(w, SendSegment(name, b, o));
    var moved := if OnDisk(w.c.disk, name) then multiset(b.events) else multiset{};
    RemoveEvents(w.c.disk, name, b);
    assert Held(w'.c) == multiset(w.c.events) + EventsOf(w.c.memPending) + DiskEvents(Remove(w.c.disk, name));
    assert Held(w.c) == Held(w'.c) + moved;
    Moved(w.recorded, Held(w.c), Held(w'.c), moved, w.finished, w.lost, w.wiped);
  }

  lemma SendSegmentKeepsInv(w: World, name: Name, b: Batch, o: Outcome)
    requires Inv(w) && Enabled(w, SendSegment(name, b, o))
    ensures Inv(Step(w, SendSegment(name, b, o)))
  {
    if !o.Transient? {
      SendSegmentConserves(w, name, b, o);
      RemoveKeepsShape(w.c.disk, name);
    }
  }

  /** What recording pushes out of a full queue. */
  ghost function Pushed(c: Client): multiset<nat> {
    if |c.events| >= QUEUE_MAX then multiset{c.events[0]} else multiset{}
  }

  lemma QueueCounts(c: Client, e: nat)
    ensures multiset(RecordEvent(c, e).events) + Pushed(c) == multiset(c.events) + multiset{e}
    ensures RecordEvent(c, e).memPending == c.memPending && RecordEvent(c, e).disk == c.disk
  {
    if |c.events| >= QUEUE_MAX { assert c.events == [c.events[0]] + c.events[1..]; }
  }

  lemma RecordConserves(w: World, e: nat)
    requires Conserved(w) && Enabled(w, Record(e))
    ensures Conserved(Step(w, Record(e)))
  {
    var c' := RecordEvent(w.c, e);
    QueueCounts(w.c, e);
    assert Step(w, Record(e)).lost == w.lost + Pushed(w.c);
    Added(multiset(w.c.events), multiset(c'.events), multiset{e}, Pushed(w.c), EventsOf(w.c.memPending),
          DiskEvents(w.c.disk), w.finished, w.lost, w.wiped);
  }

  /** One event in, the oldest out into the lost ones. */
  lemma Added(queue: multiset<nat>, queue': multiset<nat>, e: multiset<nat>, out: multiset<nat>, held: multiset<nat>,
              disk: multiset<nat>, finished: multiset<nat>, lost: multiset<nat>, wiped: multiset<nat>)
    requires queue' + out == queue + e
    ensures (queue + held + disk + finished + lost + wiped) + e
         == queue' + held + disk + finished + (lost + out) + wiped
  {
    var rest := held + disk + finished + lost + wiped;
    assert (queue + held + disk + finished + lost + wiped) + e == (queue + e) + rest;
    assert queue' + held + disk + finished + (lost + out) + wiped == (queue' + out) + rest;
  }

  lemma RecordKeepsInv(w: World, e: nat)
    requires Inv(w) && Enabled(w, Record(e))
    ensures Inv(Step(w, Record(e)))
  {
    RecordConserves(w, e);
    RecordBounded(w, e);
    RecordShape(w, e);
  }

  lemma RecordShape(w: World, e: nat)
    requires Sized(w.c) && Named(w) && Enabled(w, Record(e))
    ensures Sized(Step(w, Record(e)).c) && Named(Step(w, Record(e)))
  {
    QueueCounts(w.c, e);
    SideSized(w.c, RecordEvent(w.c, e));
    assert RecordEvent(w.c, e).serial == w.c.serial;
  }

  lemma RecordBounded(w: World, e: nat)
    requires LossCounted(w) && (forall x :: w.recorded[x] <= 1) && Enabled(w, Record(e))
    ensures LossCounted(Step(w, Record(e))) && forall x :: Step(w, Record(e)).recorded[x] <= 1
  {
    var w' := Step(w, Record(e));
    assert |w'.lost| == |w.lost| + if |w.c.events| >= QUEUE_MAX then 1 else 0;
    assert w'.Dropped() == w.Dropped() + if |w.c.events| >= QUEUE_MAX then 1 else 0;
  }

  lemma SendHeldConserves(w: World, o: Outcome)
    requires Conserved(w) && Enabled(w, SendHeld(o)) && !o.Transient?
    ensures Conserved(Step(w, SendHeld(o)))
  {
    var w' := Step(w, SendHeld(o));
    var moved := multiset(w.c.memPending[0].events);
    SplitHead(w.c.memPending);
    assert Held(w'.c) == multiset(w.c.events) + EventsOf(w.c.memPending[1..]) + DiskEvents(w.c.disk);
    assert Held(w.c) == Held(w'.c) + moved;
    Moved(w.recorded, Held(w.c), Held(w'.c), moved, w.finished, w.lost, w.wiped);
  }

  lemma SendHeldKeepsInv(w: World, o: Outcome)
    requires Inv(w) && Enabled(w, SendHeld(o))
    ensures Inv(Step(w, SendHeld(o)))
  {
    if !o.Transient? {
      SendHeldConserves(w, o);
      forall b | b in w.c.memPending[1..] ensures b.Total() <= BATCH_MAX { assert b in w.c.memPending; }
    }
  }

  lemma RestartKeepsInv(w: World, spoolUsable: bool)
    requires Inv(w) && Enabled(w, Restart(spoolUsable))
    ensures Inv(Step(w, Restart(spoolUsable)))
  {
    var c' := Client([], [], [], [], 0, spoolUsable, w.c.disk, 0);
    assert Held(c') == DiskEvents(w.c.disk);
  }

  lemma StepKeepsInv(w: World, op: Op)
    requires Inv(w) && Enabled(w, op)
    ensures Inv(Step(w, op))
  {
    match op
    case Record(e) => RecordKeepsInv(w, e);
    case Flush(t) => if Buffered(w.c) > 0 { FlushKeepsInv(w, t); }
    case SendSegment(name, b, o) => SendSegmentKeepsInv(w, name, b, o);
    case SendHeld(o) => SendHeldKeepsInv(w, o);
    case Restart(usable) => RestartKeepsInv(w, usable);
    case Tick(_) => TickKeepsInv(w, op);
    case Snapshot(_) => SideKeepsInv(w, op);
    case Window(_) => SideKeepsInv(w, op);
  }

  lemma TickKeepsInv(w: World, op: Op)
    requires Inv(w) && op.Tick?
    ensures Inv(Step(w, op))
  {
  }

  lemma SideKeepsInv(w: World, op: Op)
    requires Inv(w) && (op.Snapshot? || op.Window?)
    ensures Inv(Step(w, op))
  {
    var w' := Step(w, op);
    HeldSame(w.c, w'.c);
    SideSized(w.c, w'.c);
    assert w' == w.(c := w'.c) && w'.Dropped() == w.Dropped();
  }

  lemma HeldSame(c: Client, c': Client)
    requires c'.events == c.events && c'.memPending == c.memPending && c'.disk == c.disk
    ensures Held(c') == Held(c)
  {
  }

  lemma SideSized(c: Client, c': Client)
    requires Sized(c) && c'.memPending == c.memPending && c'.disk == c.disk
    requires |c'.snapshots| <= SIDE_MAX && |c'.windows| <= SIDE_MAX
    ensures Sized(c')
  {
  }

  lemma {:induction false} RunKeepsInv(w: World, ops: seq<Op>)
    requires Inv(w)
    ensures Inv(Run(w, ops))
    decreases |ops|
  {
    if ops != [] {
      if Enabled(w, ops[0]) {
        StepKeepsInv(w, ops[0]);
        RunKeepsInv(Step(w, ops[0]), ops[1..]);
      } else {
        RunKeepsInv(w, ops[1..]);
      }
    }
  }

  // ── main results ─────────────────────────────────────────────────────────

  ghost function Count(b: bool): nat { if b then 1 else 0 }

  /** In every run, every recorded event is in exactly one place, and the drop
      counters bound what was lost: no drops, nothing lost. */
  lemma EveryEventAccounted(cap: nat, clock: nat, spoolUsable: bool, ops: seq<Op>, e: nat)
    ensures var w := Run(Boot(cap, clock, spoolUsable), ops);
            e in w.recorded ==>
              Count(e in w.c.events) + Count(e in EventsOf(w.c.memPending)) + Count(e in DiskEvents(w.c.disk))
              + Count(e in w.finished) + Count(e in w.lost) + Count(e in w.wiped) == 1
    ensures var w := Run(Boot(cap, clock, spoolUsable), ops);
            |w.lost| <= BATCH_MAX * w.Dropped() && (w.Dropped() == 0 ==> w.lost == multiset{})
  {
    var w0 := Boot(cap, clock, spoolUsable);
    RunKeepsInv(w0, ops);
    var w := Run(w0, ops);
    if e in w.recorded {
      assert w.recorded[e] == multiset(w.c.events)[e] + EventsOf(w.c.memPending)[e] + DiskEvents(w.c.disk)[e]
                              + w.finished[e] + w.lost[e] + w.wiped[e];
      assert e in w.c.events <==> multiset(w.c.events)[e] > 0;
    }
  }

  /** The spool after a flush: the survivors of the byte cap, in order, then the
      new segment if it was written. */
  lemma FlushDisk(w: World, t: Turn)
    requires Named(w) && Buffered(w.c) > 0 && w.c.spool
    ensures var n := Evictions(w.c.disk, w.cap);
            FlushToStorage(w.c, w.cap, w.clock, t).disk
            == w.c.disk[n..] + if t.write.Written?
                               then [Segment(Name(w.clock, w.c.serial + 1), Drained(w.c, t.id), t.write.bytes)] else []
  {
    if t.write.Written? {
      WriteShape(w.(c := AfterDrain(w.c)), Drained(w.c, t.id), t.write.bytes);
    }
  }

  /** Only the oldest segments are evicted, only over the cap, and a write leaves
      at most the cap plus the new segment. */
  lemma FlushDiscipline(w: World, t: Turn, s: Segment)
    requires Named(w) && Buffered(w.c) > 0 && w.c.spool
    ensures var disk' := FlushToStorage(w.c, w.cap, w.clock, t).disk;
            && (s in w.c.disk && s !in disk' ==> Bytes(w.c.disk) > w.cap && s in w.c.disk[..Evictions(w.c.disk, w.cap)])
            && (t.write.Written? ==> Bytes(disk') <= w.cap + t.write.bytes)
  {
    var n := Evictions(w.c.disk, w.cap);
    FlushDisk(w, t);
    EvictedEnough(w.c.disk, w.cap);
    assert w.c.disk == w.c.disk[..n] + w.c.disk[n..];
    if t.write.Written? {
      BytesAppend(w.c.disk[n..], Segment(Name(w.clock, w.c.serial + 1), Drained(w.c, t.id), t.write.bytes));
    }
  }

  /** Why segment `s` is gone after `op`. */
  ghost predicate MayVanish(w: World, op: Op, s: Segment) {
    || (op.SendSegment? && op.name == s.name && !op.o.Transient?)
    || (op.Flush? && w.c.spool && Bytes(w.c.disk) > w.cap && s in w.c.disk[..Evictions(w.c.disk, w.cap)])
  }

  /** A segment leaves the disk only when its own send was acknowledged or
      permanently rejected, or as one of the oldest evicted by the byte cap. */
  lemma SegmentsVanishOnlyWhen(w: World, op: Op, s: Segment)
    requires Inv(w) && Enabled(w, op)
    requires s in w.c.disk && s !in Step(w, op).c.disk
    ensures MayVanish(w, op, s)
  {
    if op.SendSegment? {
      RemoveKeepsShape(w.c.disk, op.name);
    } else if op.Flush? && Buffered(w.c) > 0 && w.c.spool {
      FlushDiscipline(w, op.turn, s);
    } else {
      DiskUntouched(w, op);
    }
  }

  lemma DiskUntouched(w: World, op: Op)
    requires Possible(w, op) && !op.SendSegment? && !(op.Flush? && Buffered(w.c) > 0 && w.c.spool)
    ensures Step(w, op).c.disk == w.c.disk
  {
  }

  /** In every run the listing is oldest first, so a pass over it is too. */
  lemma SpoolStaysOrdered(cap: nat, clock: nat, spoolUsable: bool, ops: seq<Op>)
    ensures Ordered(Run(Boot(cap, clock, spoolUsable), ops).c.disk)
  {
    RunKeepsInv(Boot(cap, clock, spoolUsable), ops);
  }

  lemma {:induction false} EvictedEnough(disk: seq<Segment>, cap: nat)
    ensures Bytes(disk[Evictions(disk, cap)..]) <= cap
    ensures Bytes(disk) <= cap ==> Evictions(disk, cap) == 0
  {
    if disk != [] && Bytes(disk) > cap {
      EvictedEnough(disk[1..], cap);
      assert disk[1..][Evictions(disk[1..], cap)..] == disk[Evictions(disk, cap)..];
    } else {
      assert disk[0..] == disk;
    }
  }

  lemma {:induction false} BytesAppend(disk: seq<Segment>, seg: Segment)
    ensures Bytes(disk + [seg]) == Bytes(disk) + seg.bytes
  {
    if disk == [] {
      assert [seg][1..] == [];
    } else {
      assert (disk + [seg])[1..] == disk[1..] + [seg];
      BytesAppend(disk[1..], seg);
    }
  }

  ghost function RejectedEvents(disk: seq<Segment>, answers: seq<Outcome>, k: nat): nat
    requires k <= |disk| && k <= |answers|
  {
    if k == 0 then 0
    else RejectedEvents(disk, answers, k - 1) + if answers[k - 1].Rejected? then |disk[k - 1].batch.events| else 0
  }

  /** A flush pass removes a prefix of the spool, all of it answered; it stops at
      the first transient failure with that segment and every younger one intact. */
  lemma {:induction false} PassDiscipline(c: Client, answers: seq<Outcome>) returns (k: nat)
    ensures k <= |c.disk| && k <= |answers|
    ensures SendDisk(c, answers).0 == c.(disk := c.disk[k..], dropped := c.dropped + RejectedEvents(c.disk, answers, k))
    ensures forall i :: 0 <= i < k ==> !answers[i].Transient?
    ensures var all := SendDisk(c, answers).1; (all <==> k == |c.disk|) && (!all ==> Unanswered(answers[k..]))
    decreases |c.disk|
  {
    if c.disk == [] || Unanswered(answers) {
      k := 0;
      assert answers[0..] == answers;
    } else {
      var c1 := Settle(c, c.disk[0].batch, answers[0]).(disk := c.disk[1..]);
      var k1 := PassDiscipline(c1, answers[1..]);
      k := k1 + 1;
      RejectedShift(c.disk, answers, k1);
      assert c1.disk[k1..] == c.disk[k..] && answers[1..][k1..] == answers[k..];
      forall i | 0 <= i < k ensures !answers[i].Transient? {
        if i > 0 { assert answers[i] == answers[1..][i - 1]; }
      }
    }
  }

  lemma {:induction false} RejectedShift(disk: seq<Segment>, answers: seq<Outcome>, k: nat)
    requires disk != [] && answers != [] && k + 1 <= |disk| && k + 1 <= |answers|
    ensures RejectedEvents(disk, answers, k + 1)
         == (if answers[0].Rejected? then |disk[0].batch.events| else 0) + RejectedEvents(disk[1..], answers[1..], k)
  {
    if k > 0 { RejectedShift(disk, answers, k - 1); }
  }

  /** The sends of one uninterrupted flush pass over the spool. */
  ghost function PassOps(disk: seq<Segment>, answers: seq<Outcome>): seq<Op>
  {
    if disk == [] || Unanswered(answers) then []
    else [SendSegment(disk[0].name, disk[0].batch, answers[0])] + PassOps(disk[1..], answers[1..])
  }

  /** The pass of `sendPending` is a run of single sends, so everything proved of
      runs holds of it, with recordings in between or not. */
  lemma {:induction false} PassIsARun(w: World, answers: seq<Outcome>)
    requires Ordered(w.c.disk)
    ensures Run(w, PassOps(w.c.disk, answers)).c == SendDisk(w.c, answers).0
    decreases |w.c.disk|
  {
    if w.c.disk != [] && !Unanswered(answers) {
      var head := w.c.disk[0];
      var op := SendSegment(head.name, head.batch, answers[0]);
      assert Enabled(w, op) by {
        forall s | s in w.c.disk && s.name == head.name ensures s.batch == head.batch {
          var k :| 0 <= k < |w.c.disk| && w.c.disk[k] == s;
          assert k > 0 ==> head.name.Before(s.name);
        }
      }
      var w1 := Step(w, op);
      assert w1.c == Settle(w.c, head.batch, answers[0]).(disk := w.c.disk[1..]);
      PassIsARun(w1, answers[1..]);
      var rest := PassOps(w.c.disk[1..], answers[1..]);
      assert ([op] + rest)[0] == op && ([op] + rest)[1..] == rest;
    }
  }

  // ── `close` and the in-memory pass are runs too ──────────────────────────

  /** The flushes of the drain loop in `close`. */
  ghost function DrainOps(turns: seq<Turn>): seq<Op> {
    seq(|turns|, i requires 0 <= i < |turns| => Flush(turns[i]))
  }

  lemma {:induction false} DrainIsARun(w: World, turns: seq<Turn>)
    ensures Run(w, DrainOps(turns)).c == DrainAll(w.c, w.cap, w.clock, turns)
    decreases |turns|
  {
    if turns != [] {
      var ops := DrainOps(turns);
      assert ops[0] == Flush(turns[0]) && ops[1..] == DrainOps(turns[1..]);
      DrainIsARun(Step(w, ops[0]), turns[1..]);
    }
  }

  /** The sends of one uninterrupted pass over the in-memory batches. */
  ghost function HeldOps(held: seq<Batch>, answers: seq<Outcome>): seq<Op>
  {
    if held == [] || Unanswered(answers) then [] else [SendHeld(answers[0])] + HeldOps(held[1..], answers[1..])
  }

  lemma {:induction false} MemoryPassIsARun(w: World, answers: seq<Outcome>)
    ensures Run(w, HeldOps(w.c.memPending, answers)).c == SendMemory(w.c, answers).0
    decreases |w.c.memPending|
  {
    if w.c.memPending != [] && !Unanswered(answers) {
      var op := SendHeld(answers[0]);
      var rest := HeldOps(w.c.memPending[1..], answers[1..]);
      assert ([op] + rest)[0] == op && ([op] + rest)[1..] == rest;
      MemoryPassIsARun(Step(w, op), answers[1..]);
    }
  }

  lemma {:induction false} RunConcat(w: World, a: seq<Op>, b: seq<Op>)
    ensures Run(w, a + b) == Run(Run(w, a), b)
    decreases |a|
  {
    if a == [] {
      assert a + b == b;
    } else {
      assert (a + b)[0] == a[0] && (a + b)[1..] == a[1..] + b;
      RunConcat(if Enabled(w, a[0]) then Step(w, a[0]) else w, a[1..], b);
    }
  }

  lemma SendPassIsARun(w: World, a: Answers) returns (ops: seq<Op>)
    requires Ordered(w.c.disk)
    ensures Run(w, ops).c == SendPass(w.c, a).0
  {
    ops := if w.c.spool then PassOps(w.c.disk, a.disk) else [];
    if w.c.spool { PassIsARun(w, a.disk); }
    var afterDisk := if w.c.spool then SendDisk(w.c, a.disk) else (w.c, true);
    if afterDisk.1 {
      var w1 := Run(w, ops);
      MemoryPassIsARun(w1, a.memory);
      RunConcat(w, ops, HeldOps(w1.c.memPending, a.memory));
      ops := ops + HeldOps(w1.c.memPending, a.memory);
    }
  }

  lemma {:induction false} SendAllIsARun(w: World, tries: seq<Answers>) returns (ops: seq<Op>)
    requires Inv(w)
    ensures Run(w, ops).c == SendAll(w.c, tries)
    decreases |tries|
  {
    ops := [];
    if tries != [] {
      ops := SendPassIsARun(w, tries[0]);
      if !SendPass(w.c, tries[0]).1 {
        RunKeepsInv(w, ops);
        var more := SendAllIsARun(Run(w, ops), tries[1..]);
        RunConcat(w, ops, more);
        ops := ops + more;
      }
    }
  }

  lemma {:induction false} DrainsAll(c: Client, cap: nat, now: nat, turns: seq<Turn>)
    requires |turns| >= Buffered(c)
    ensures Buffered(DrainAll(c, cap, now, turns)) == 0
    decreases |turns|
  {
    if Buffered(c) > 0 {
      DrainShrinks(c);
      PersistKeepsBuffers(AfterDrain(c), cap, now, Drained(c, turns[0].id), turns[0].write);
      DrainsAll(FlushToStorage(c, cap, now, turns[0]), cap, now, turns[1..]);
    }
  }

  lemma {:induction false} SendAllKeepsBuffers(c: Client, tries: seq<Answers>)
    ensures Buffered(SendAll(c, tries)) == Buffered(c)
    decreases |tries|
  {
    if tries != [] {
      SendPassKeepsBuffers(c, tries[0]);
      SendAllKeepsBuffers(SendPass(c, tries[0]).0, tries[1..]);
    }
  }

  lemma SendPassKeepsBuffers(c: Client, a: Answers)
    ensures Buffered(SendPass(c, a).0) == Buffered(c)
  {
    var k := PassDiscipline(c, a.disk);
    SendMemoryKeepsBuffers(if c.spool then SendDisk(c, a.disk).0 else c, a.memory);
  }

  lemma {:induction false} SendMemoryKeepsBuffers(c: Client, answers: seq<Outcome>)
    ensures Buffered(SendMemory(c, answers).0) == Buffered(c)
    decreases |c.memPending|
  {
    if c.memPending != [] && !Unanswered(answers) {
      SendMemoryKeepsBuffers(Settle(c, c.memPending[0], answers[0]).(memPending := c.memPending[1..]), answers[1..]);
    }
  }

  /** `close` is a run of the steps above, so it accounts for every event too, and
      it leaves nothing behind in the queues. */
  lemma CloseIsARun(w: World, snapshot: nat, window: Option<nat>, turns: seq<Turn>, tries: seq<Answers>)
    returns (ops: seq<Op>)
    requires Inv(w) && |turns| >= Buffered(w.c) + 2
    ensures Run(w, ops).c == Closed(w.c, w.cap, w.clock, snapshot, window, turns, tries)
    ensures Inv(Run(w, ops)) && Buffered(Run(w, ops).c) == 0
  {
    var last := [Snapshot(snapshot)] + if window.Some? then [Window(window.value)] else [];
    var w1 := Run(w, last);
    LastItems(w, snapshot, window);
    DrainIsARun(w1, turns);
    DrainsAll(w1.c, w.cap, w.clock, turns);
    RunConcat(w, last, DrainOps(turns));
    RunKeepsInv(w, last + DrainOps(turns));
    var w2 := Run(w, last + DrainOps(turns));
    var more := SendAllIsARun(w2, tries);
    SendAllKeepsBuffers(w2.c, tries);
    RunConcat(w, last + DrainOps(turns), more);
    ops := last + DrainOps(turns) + more;
    RunKeepsInv(w, ops);
  }

  lemma LastItems(w: World, snapshot: nat, window: Option<nat>)
    ensures var ops := [Snapshot(snapshot)] + if window.Some? then [Window(window.value)] else [];
            var w1 := Run(w, ops);
            && w1.c == WithWindow(w.c.(snapshots := PushCapped(w.c.snapshots, snapshot)), window)
            && w1.cap == w.cap && w1.clock == w.clock && Buffered(w1.c) <= Buffered(w.c) + 2
  {
    var w0 := Step(w, Snapshot(snapshot));
    if window.Some? {
      var ops := [Snapshot(snapshot)] + [Window(window.value)];
      assert ops[0] == Snapshot(snapshot) && ops[1..] == [Window(window.value)] + [];
      assert ([Window(window.value)] + [])[1..] == [];
      assert Run(w, ops) == Run(w0, [Window(window.value)] + []);
      assert Run(w0, [Window(window.value)] + []) == Run(Step(w0, Window(window.value)), []);
    } else {
      assert [Snapshot(snapshot)] + [] == [Snapshot(snapshot)] && [Snapshot(snapshot)][1..] == [];
      assert Run(w, [Snapshot(snapshot)]) == Run(w0, []);
    }
  }
}
