/** The reporter without the guards of `Conservation`: any number of send passes at
    once (startup recovery and `close` start one without looking at the flag that
    keeps the ticks apart), and restarts in the millisecond of an old segment.

    A pass posts what it read and acts on the answer later, by path for a segment
    and by position for an in-memory batch.  An event goes missing when it leaves
    the client's storage without having been finished, counted as lost or wiped. */
module Interference {
  import opened Reporter
  import opened Conservation

  // ── one write ────────────────────────────────────────────────────────────

  /** Events of the segment of that name. */
  ghost function EventsNamed(disk: seq<Segment>, name: Name): multiset<nat> {
    if disk == [] then multiset{}
    else if disk[0].name == name then multiset(disk[0].batch.events)
    else EventsNamed(disk[1..], name)
  }

  ghost predicate NothingNamed(disk: seq<Segment>, name: Name) {
    forall s :: s in disk && s.name == name ==> s.batch.events == []
  }

  lemma OrderedTail(disk: seq<Segment>)
    requires Ordered(disk) && disk != []
    ensures Ordered(disk[1..]) && forall s :: s in disk[1..] ==> disk[0].name.Before(s.name)
  {
    forall s | s in disk[1..] ensures disk[0].name.Before(s.name) {
      var k :| 0 <= k < |disk[1..]| && disk[1..][k] == s;
      assert disk[k + 1] == s;
    }
  }

  lemma {:induction false} NamedIff(disk: seq<Segment>, name: Name)
    requires Ordered(disk)
    ensures EventsNamed(disk, name) == multiset{} <==> NothingNamed(disk, name)
  {
    if disk != [] {
      OrderedTail(disk);
      NamedIff(disk[1..], name);
      assert forall s :: s in disk <==> s == disk[0] || s in disk[1..];
      var events := disk[0].batch.events;
      if events != [] { assert events[0] in multiset(events); }
    }
  }

  lemma {:induction false} NothingBelow(disk: seq<Segment>, name: Name)
    requires Ordered(disk) && disk != [] && name.Before(disk[0].name)
    ensures EventsNamed(disk, name) == multiset{}
  {
    if |disk| > 1 {
      OrderedTail(disk);
      assert disk[1] in disk[1..];
      NothingBelow(disk[1..], name);
    }
  }

  lemma {:induction false} StoreMembers(disk: seq<Segment>, seg: Segment)
    ensures forall s :: s in Store(disk, seg) ==> s == seg || s in disk
  {
    if disk != [] { StoreMembers(disk[1..], seg); }
  }

  lemma Prepend(head: Segment, rest: seq<Segment>)
    requires Ordered(rest) && forall s :: s in rest ==> head.name.Before(s.name)
    ensures Ordered([head] + rest)
  {
    forall i, j | 0 <= i < j < |[head] + rest| ensures ([head] + rest)[i].name.Before(([head] + rest)[j].name) {
      if i == 0 { assert rest[j - 1] in rest; }
    }
  }

  /** The listing stays sorted. */
  lemma {:induction false} StoreOrdered(disk: seq<Segment>, seg: Segment)
    requires Ordered(disk)
    ensures Ordered(Store(disk, seg))
  {
    if disk != [] {
      OrderedTail(disk);
      if disk[0].name == seg.name {
        Prepend(seg, disk[1..]);
      } else if disk[0].name.Before(seg.name) {
        StoreOrdered(disk[1..], seg);
        StoreMembers(disk[1..], seg);
        Prepend(disk[0], Store(disk[1..], seg));
      } else {
        assert forall s :: s in disk ==> s == disk[0] || s in disk[1..];
        Prepend(seg, disk);
      }
    }
  }

  lemma ConsEvents(s: Segment, rest: seq<Segment>)
    ensures DiskEvents([s] + rest) == multiset(s.batch.events) + DiskEvents(rest)
  {
    assert ([s] + rest)[1..] == rest;
  }

  lemma Behind(head: multiset<nat>, stored: multiset<nat>, replaced: multiset<nat>, kept: multiset<nat>,
               b: multiset<nat>)
    requires stored + replaced == kept + b
    ensures (head + stored) + replaced == (head + kept) + b
  {
    assert (head + stored) + replaced == head + (stored + replaced);
  }

  lemma StoreBehind(disk: seq<Segment>, seg: Segment)
    requires disk != [] && disk[0].name.Before(seg.name)
    requires DiskEvents(Store(disk[1..], seg)) + EventsNamed(disk[1..], seg.name)
          == DiskEvents(disk[1..]) + multiset(seg.batch.events)
    ensures DiskEvents(Store(disk, seg)) + EventsNamed(disk, seg.name) == DiskEvents(disk) + multiset(seg.batch.events)
  {
    ConsEvents(disk[0], Store(disk[1..], seg));
    Behind(multiset(disk[0].batch.events), DiskEvents(Store(disk[1..], seg)), EventsNamed(disk[1..], seg.name),
           DiskEvents(disk[1..]), multiset(seg.batch.events));
  }

  lemma StoreInFront(disk: seq<Segment>, seg: Segment)
    requires Ordered(disk) && disk != [] && seg.name.Before(disk[0].name)
    ensures DiskEvents(Store(disk, seg)) + EventsNamed(disk, seg.name) == DiskEvents(disk) + multiset(seg.batch.events)
  {
    NothingBelow(disk, seg.name);
    ConsEvents(seg, disk);
  }

  /** What the rename replaces is what had the name. */
  lemma {:induction false} StoreReplaces(disk: seq<Segment>, seg: Segment)
    requires Ordered(disk)
    ensures DiskEvents(Store(disk, seg)) + EventsNamed(disk, seg.name) == DiskEvents(disk) + multiset(seg.batch.events)
  {
    if disk == [] {
      OneSegment(seg);
    } else if disk[0].name.Before(seg.name) {
      OrderedTail(disk);
      StoreReplaces(disk[1..], seg);
      StoreBehind(disk, seg);
    } else if disk[0].name != seg.name {
      StoreInFront(disk, seg);
    }
  }

  lemma SameSum(a: multiset<nat>, b: multiset<nat>, gone: multiset<nat>)
    requires a + gone == b
    ensures a == b <==> gone == multiset{}
  {
    if a == b {
      forall e ensures gone[e] == 0 { assert (a + gone)[e] == a[e] + gone[e]; }
    }
  }

  /** The rename adds the segment and keeps every other event if and only if no
      segment of that name holds an event. */
  lemma StoreSafeIff(disk: seq<Segment>, seg: Segment)
    requires Ordered(disk)
    ensures DiskEvents(Store(disk, seg)) == DiskEvents(disk) + multiset(seg.batch.events)
            <==> NothingNamed(disk, seg.name)
  {
    StoreReplaces(disk, seg);
    NamedIff(disk, seg.name);
    SameSum(DiskEvents(Store(disk, seg)), DiskEvents(disk) + multiset(seg.batch.events), EventsNamed(disk, seg.name));
  }

  /** The segments a write finds once the byte cap has been enforced. */
  ghost function Survivors(c: Client, cap: nat): seq<Segment> { c.disk[Evictions(c.disk, cap)..] }

  ghost function WriteName(c: Client, now: nat): Name { Name(now, c.serial + 1) }

  lemma SurvivorsOrdered(c: Client, cap: nat)
    requires Ordered(c.disk)
    ensures Ordered(Survivors(c, cap))
  {
  }

  /** A spool write conserves all events, evicted ones counted, if and only if no
      surviving segment of the new name holds one: checkable before the write. */
  lemma WriteSafeIff(c: Client, cap: nat, now: nat, b: Batch, bytes: nat)
    requires Ordered(c.disk)
    ensures Held(SpoolWrite(c, cap, now, b, Written(bytes))) + DiskEvents(c.disk[..Evictions(c.disk, cap)])
            == Held(c) + multiset(b.events)
            <==> NothingNamed(Survivors(c, cap), WriteName(c, now))
  {
    SurvivorsOrdered(c, cap);
    WriteBalance(c, cap, now, b, bytes);
    NamedIff(Survivors(c, cap), WriteName(c, now));
    SameSum(Held(SpoolWrite(c, cap, now, b, Written(bytes))) + DiskEvents(c.disk[..Evictions(c.disk, cap)]),
            Held(c) + multiset(b.events), EventsNamed(Survivors(c, cap), WriteName(c, now)));
  }

  lemma WriteBalance(c: Client, cap: nat, now: nat, b: Batch, bytes: nat)
    requires Ordered(c.disk)
    ensures Held(SpoolWrite(c, cap, now, b, Written(bytes))) + DiskEvents(c.disk[..Evictions(c.disk, cap)])
            + EventsNamed(Survivors(c, cap), WriteName(c, now))
            == Held(c) + multiset(b.events)
  {
    var n := Evictions(c.disk, cap);
    var seg := Segment(WriteName(c, now), b, bytes);
    SurvivorsOrdered(c, cap);
    StoreReplaces(Survivors(c, cap), seg);
    SplitEvents(c.disk, n);
    Balance(multiset(c.events) + EventsOf(c.memPending), DiskEvents(Store(Survivors(c, cap), seg)),
            DiskEvents(c.disk[..n]), DiskEvents(c.disk[n..]), EventsNamed(Survivors(c, cap), seg.name),
            multiset(b.events));
  }

  lemma SplitEvents(disk: seq<Segment>, n: nat)
    requires n <= |disk|
    ensures DiskEvents(disk) == DiskEvents(disk[..n]) + DiskEvents(disk[n..])
  {
    DiskConcat(disk[..n], disk[n..]);
    assert disk[..n] + disk[n..] == disk;
  }

  lemma Balance(rest: multiset<nat>, stored: multiset<nat>, evicted: multiset<nat>, kept: multiset<nat>,
                replaced: multiset<nat>, b: multiset<nat>)
    requires stored + replaced == kept + b
    ensures (rest + stored) + evicted + replaced == (rest + (evicted + kept)) + b
  {
    assert (rest + stored) + evicted + replaced == rest + evicted + (stored + replaced);
  }

  // ── free runs ────────────────────────────────────────────────────────────

  /** A POST whose answer is outstanding. */
  datatype Sending = FromDisk(name: Name, batch: Batch) | FromMemory(batch: Batch)

  datatype Free = Free(w: World, posted: seq<Sending>)

  datatype FreeOp =
    /** Recording, flushing, time and restarts, a restart in any millisecond. */
    | Plain(op: Op)
    /** A pass reads the segment at position `k` of the listing and posts it. */
    | PostSegment(k: nat)
    /** A pass posts the head of the in-memory queue. */
    | PostHeld
    /** The answer to the `i`-th outstanding POST. */
    | Answer(i: nat, o: Outcome)

  ghost predicate MayDo(f: Free, op: FreeOp) {
    match op
    case Plain(p) => Possible(f.w, p) && !p.SendSegment? && !p.SendHeld?
    case PostSegment(k) => k < |f.w.c.disk|
    case PostHeld => f.w.c.memPending != []
    case Answer(i, _) => i < |f.posted|
  }

  /** What an answer that settles its batch takes out of storage: the segment at
      that path, or whatever heads the in-memory queue by now. */
  ghost function Removed(c: Client, s: Sending): multiset<nat> {
    match s
    case FromDisk(name, _) => EventsNamed(c.disk, name)
    case FromMemory(_) => if c.memPending == [] then multiset{} else multiset(c.memPending[0].events)
  }

  ghost function AfterAnswer(c: Client, s: Sending, o: Outcome): Client {
    match s
    case FromDisk(name, b) => Settle(c, b, o).(disk := Remove(c.disk, name))
    case FromMemory(b) => Settle(c, b, o).(memPending := if c.memPending == [] then [] else c.memPending[1..])
  }

  ghost function FreeStep(f: Free, op: FreeOp): Free
    requires MayDo(f, op)
  {
    match op
    case Plain(p) => Free(Step(f.w, p), if p.Restart? then [] else f.posted)
    case PostSegment(k) => f.(posted := f.posted + [FromDisk(f.w.c.disk[k].name, f.w.c.disk[k].batch)])
    case PostHeld => f.(posted := f.posted + [FromMemory(f.w.c.memPending[0])])
    case Answer(i, o) =>
      var s := f.posted[i];
      var posted := f.posted[..i] + f.posted[i + 1..];
      if o.Transient? then Free(f.w, posted)
      else
        Free(f.w.(c := AfterAnswer(f.w.c, s, o),
                  finished := if o.Acked? then f.w.finished + multiset(s.batch.events) else f.w.finished,
                  lost := if o.Rejected? then f.w.lost + multiset(s.batch.events) else f.w.lost), posted)
  }

  ghost function Next(f: Free, op: FreeOp): Free { if MayDo(f, op) then FreeStep(f, op) else f }

  ghost function FreeRun(f: Free, ops: seq<FreeOp>): Free
    decreases |ops|
  {
    if ops == [] then f else FreeRun(Next(f, ops[0]), ops[1..])
  }

  ghost function FreeBoot(cap: nat, clock: nat, spoolUsable: bool): Free { Free(Boot(cap, clock, spoolUsable), []) }

  ghost predicate Settled(w: World, e: nat) { e in w.finished || e in w.lost || e in w.wiped }

  /** Recorded, no longer stored, and not accounted for. */
  ghost predicate Missing(f: Free, e: nat) {
    e in f.w.recorded && e !in Held(f.w.c) && !Settled(f.w, e)
  }

  // ── what one step takes away ─────────────────────────────────────────────

  /** Events of a segment the rename of a flush replaces. */
  ghost function Overwritten(w: World, t: Turn): multiset<nat> {
    if w.c.spool && t.write.Written? then EventsNamed(Survivors(w.c, w.cap), WriteName(w.c, w.clock)) else multiset{}
  }

  ghost function Gone(f: Free, op: FreeOp): multiset<nat>
    requires MayDo(f, op)
  {
    match op
    case Answer(i, o) => if o.Transient? then multiset{} else Removed(f.w.c, f.posted[i])
    case Plain(p) => if p.Flush? && Buffered(f.w.c) > 0 then Overwritten(f.w, p.turn) else multiset{}
    case _ => multiset{}
  }

  /** `e` leaves storage by this step without the step accounting for it: it is in
      what an answer removes but not in the batch that was answered, or in a
      segment a flush overwrites. */
  ghost predicate VanishesAt(f: Free, op: FreeOp, e: nat)
    requires MayDo(f, op)
  {
    e in Gone(f, op) && (op.Answer? ==> e !in f.posted[op.i].batch.events)
  }

  lemma FailedPersist(w: World, b: Batch, t: Turn)
    requires !(w.c.spool && t.write.Written?)
    ensures Held(Persist(w.c, w.cap, w.clock, b, t.write)) + FlushLoss(w, t) == Held(w.c) + multiset(b.events)
  {
    if w.c.spool {
      EvictKeeps(w);
      var c1 := SpoolWrite(w.c, w.cap, w.clock, b, t.write);
      assert Held(c1) == Held(EnforceSpoolCap(w.c, w.cap));
      HoldKeeps(c1, b);
      assert Overflowed(c1) == Overflowed(w.c);
      Regroup(Held(HoldInMemory(c1, b)), Overflowed(c1), Held(c1), Evicted(w), Held(w.c), multiset(b.events));
    } else {
      HoldKeeps(w.c, b);
    }
  }

  lemma PersistBalance(w: World, b: Batch, t: Turn)
    requires Ordered(w.c.disk)
    ensures Held(Persist(w.c, w.cap, w.clock, b, t.write)) + FlushLoss(w, t) + Overwritten(w, t)
         == Held(w.c) + multiset(b.events)
  {
    if w.c.spool && t.write.Written? {
      WriteBalance(w.c, w.cap, w.clock, b, t.write.bytes);
    } else {
      FailedPersist(w, b, t);
    }
  }

  lemma FlushBalance(w: World, t: Turn)
    requires Ordered(w.c.disk) && Buffered(w.c) > 0
    ensures Held(FlushToStorage(w.c, w.cap, w.clock, t)) + FlushLoss(w, t) + Overwritten(w, t) == Held(w.c)
  {
    var w1 := w.(c := AfterDrain(w.c));
    DrainKeeps(w.c, t.id);
    PersistBalance(w1, Drained(w.c, t.id), t);
    DrainSparesStorage(w, t);
  }

  /** Draining touches neither the spool nor the in-memory batches. */
  lemma DrainSparesStorage(w: World, t: Turn)
    ensures var w1 := w.(c := AfterDrain(w.c));
            FlushLoss(w1, t) == FlushLoss(w, t) && Overwritten(w1, t) == Overwritten(w, t)
  {
  }

  lemma {:induction false} RemoveTakes(disk: seq<Segment>, name: Name)
    ensures DiskEvents(Remove(disk, name)) + EventsNamed(disk, name) == DiskEvents(disk)
  {
    if disk != [] && disk[0].name != name {
      RemoveTakes(disk[1..], name);
      ConsEvents(disk[0], Remove(disk[1..], name));
      Behind(multiset(disk[0].batch.events), DiskEvents(Remove(disk[1..], name)), EventsNamed(disk[1..], name),
             DiskEvents(disk[1..]), multiset{});
    }
  }

  lemma AnswerBalance(c: Client, s: Sending, o: Outcome)
    ensures Held(AfterAnswer(c, s, o)) + Removed(c, s) == Held(c)
  {
    var c' := AfterAnswer(c, s, o);
    if s.FromDisk? {
      RemoveTakes(c.disk, s.name);
      ThirdPart(multiset(c.events), EventsOf(c.memPending), DiskEvents(c'.disk), Removed(c, s), DiskEvents(c.disk));
    } else if c.memPending != [] {
      SplitHead(c.memPending);
      SecondPart(multiset(c.events), EventsOf(c'.memPending), DiskEvents(c.disk), Removed(c, s),
                 EventsOf(c.memPending));
    }
  }

  lemma ThirdPart(a: multiset<nat>, b: multiset<nat>, c': multiset<nat>, gone: multiset<nat>, c: multiset<nat>)
    requires c' + gone == c
    ensures a + b + c' + gone == a + b + c
  {
    assert a + b + c' + gone == a + b + (c' + gone);
  }

  lemma SecondPart(a: multiset<nat>, b': multiset<nat>, c: multiset<nat>, gone: multiset<nat>, b: multiset<nat>)
    requires b == gone + b'
    ensures a + b' + c + gone == a + b + c
  {
    assert a + b' + c + gone == a + (gone + b') + c;
  }

  // ── event by event ───────────────────────────────────────────────────────

  /** The spool is sorted and every event is recorded and stored at most once. */
  ghost predicate Sane(f: Free) {
    && Ordered(f.w.c.disk)
    && forall e :: Held(f.w.c)[e] <= f.w.recorded[e] <= 1
  }

  lemma PlainOrdered(w: World, p: Op)
    requires Ordered(w.c.disk) && Possible(w, p) && !p.SendSegment? && !p.SendHeld?
    ensures Ordered(Step(w, p).c.disk)
  {
    if p.Flush? && Buffered(w.c) > 0 && w.c.spool && p.turn.write.Written? {
      SurvivorsOrdered(w.c, w.cap);
      StoreOrdered(Survivors(w.c, w.cap),
                   Segment(WriteName(w.c, w.clock), Drained(w.c, p.turn.id), p.turn.write.bytes));
    } else if p.Flush? {
      SurvivorsOrdered(w.c, w.cap);
    }
  }

  /** How one event's count in storage changes, and where it went. */
  lemma PlainCounts(w: World, p: Op, e: nat)
    requires Ordered(w.c.disk) && Possible(w, p) && !p.SendSegment? && !p.SendHeld?
    ensures var w' := Step(w, p);
            && w'.finished == w.finished
            && Held(w'.c)[e] + (w'.lost[e] - w.lost[e]) + (w'.wiped[e] - w.wiped[e]) + Gone(Free(w, []), Plain(p))[e]
               == Held(w.c)[e] + (w'.recorded[e] - w.recorded[e])
            && w'.lost[e] >= w.lost[e] && w'.wiped[e] >= w.wiped[e]
            && w'.recorded[e] == w.recorded[e] + if p == Record(e) then 1 else 0
  {
    match p
    case Record(x) => RecordCount(w, x, e);
    case Flush(t) => if Buffered(w.c) > 0 { FlushBalance(w, t); }
    case Restart(_) =>
    case Tick(_) =>
    case Snapshot(_) =>
    case Window(_) =>
  }

  lemma Plus3(a: multiset<nat>, b: multiset<nat>, c: multiset<nat>, e: nat)
    ensures (a + b + c)[e] == a[e] + b[e] + c[e]
  {
  }

  lemma RecordCount(w: World, x: nat, e: nat)
    requires x !in w.recorded
    ensures var w' := Step(w, Record(x));
            && Held(w'.c)[e] + (w'.lost[e] - w.lost[e]) == Held(w.c)[e] + (if x == e then 1 else 0)
            && w'.lost[e] >= w.lost[e]
  {
    var w' := Step(w, Record(x));
    var tail := if |w.c.events| >= QUEUE_MAX then w.c.events[1..] else w.c.events;
    var out := if |w.c.events| >= QUEUE_MAX then multiset{w.c.events[0]} else multiset{};
    if |w.c.events| >= QUEUE_MAX { assert w.c.events == [w.c.events[0]] + tail; }
    assert multiset(w.c.events) == multiset(tail) + out;
    assert multiset(w'.c.events) == multiset(tail) + multiset{x};
    assert w'.lost == w.lost + out;
    Plus3(multiset(w.c.events), EventsOf(w.c.memPending), DiskEvents(w.c.disk), e);
    Plus3(multiset(w'.c.events), EventsOf(w.c.memPending), DiskEvents(w.c.disk), e);
  }

  lemma AnswerCounts(f: Free, i: nat, o: Outcome, e: nat)
    requires i < |f.posted|
    ensures var f' := FreeStep(f, Answer(i, o));
            && Held(f'.w.c)[e] + Gone(f, Answer(i, o))[e] == Held(f.w.c)[e]
            && f'.w.recorded == f.w.recorded
            && (Settled(f'.w, e) <==> Settled(f.w, e) || (!o.Transient? && e in f.posted[i].batch.events))
  {
    if !o.Transient? {
      RemovedCounts(f.w.c, f.posted[i], o, e);
      AnswerSettles(f, i, o, e);
    }
  }

  lemma RemovedCounts(c: Client, s: Sending, o: Outcome, e: nat)
    ensures Held(AfterAnswer(c, s, o))[e] + Removed(c, s)[e] == Held(c)[e]
  {
    AnswerBalance(c, s, o);
    Plus2(Held(AfterAnswer(c, s, o)), Removed(c, s), e);
  }

  lemma Plus2(a: multiset<nat>, b: multiset<nat>, e: nat)
    ensures (a + b)[e] == a[e] + b[e]
  {
  }

  lemma AnswerSettles(f: Free, i: nat, o: Outcome, e: nat)
    requires i < |f.posted| && !o.Transient?
    ensures Settled(FreeStep(f, Answer(i, o)).w, e) <==> Settled(f.w, e) || e in f.posted[i].batch.events
  {
    assert e in f.posted[i].batch.events <==> multiset(f.posted[i].batch.events)[e] > 0;
  }

  lemma StepKeepsSane(f: Free, op: FreeOp)
    requires Sane(f) && MayDo(f, op)
    ensures Sane(FreeStep(f, op))
  {
    var f' := FreeStep(f, op);
    StepOrdered(f, op);
    forall e ensures Held(f'.w.c)[e] <= f'.w.recorded[e] <= 1 { StoredOnce(f, op, e); }
  }

  lemma StepOrdered(f: Free, op: FreeOp)
    requires Ordered(f.w.c.disk) && MayDo(f, op)
    ensures Ordered(FreeStep(f, op).w.c.disk)
  {
    if op.Plain? { PlainOrdered(f.w, op.op); }
    if op.Answer? && f.posted[op.i].FromDisk? { RemoveKeepsShape(f.w.c.disk, f.posted[op.i].name); }
  }

  lemma StoredOnce(f: Free, op: FreeOp, e: nat)
    requires Ordered(f.w.c.disk) && Held(f.w.c)[e] <= f.w.recorded[e] <= 1 && MayDo(f, op)
    ensures Held(FreeStep(f, op).w.c)[e] <= FreeStep(f, op).w.recorded[e] <= 1
  {
    if op.Plain? {
      PlainCounts(f.w, op.op, e);
      assert op.op == Record(e) ==> f.w.recorded[e] == 0;
    } else if op.Answer? {
      AnswerCounts(f, op.i, op.o, e);
    }
  }

  /** Which events one step makes missing, exactly. */
  lemma StepLosesExactly(f: Free, op: FreeOp, e: nat)
    requires Sane(f) && MayDo(f, op) && !Missing(f, e)
    ensures Missing(FreeStep(f, op), e) <==> VanishesAt(f, op, e) && !Settled(f.w, e)
  {
    var f' := FreeStep(f, op);
    assert Held(f.w.c)[e] <= f.w.recorded[e] <= 1;
    if op.Plain? {
      PlainCounts(f.w, op.op, e);
      assert Gone(Free(f.w, []), op) == Gone(f, op);
      assert op.op == Record(e) ==> f.w.recorded[e] == 0;
    } else if op.Answer? {
      AnswerCounts(f, op.i, op.o, e);
    }
  }

  // ── where posted events lie ──────────────────────────────────────────────

  /** A posted event that is still stored lies where the answer will remove it. */
  ghost predicate Reached(c: Client, s: Sending, e: nat) {
    e in s.batch.events && e in Held(c) ==> e in Removed(c, s)
  }

  /** Stored events are not settled, settled and posted ones are recorded. */
  ghost predicate Tidy(f: Free) {
    && (forall e :: e in Held(f.w.c) ==> !Settled(f.w, e))
    && (forall e :: Settled(f.w, e) ==> e in f.w.recorded)
    && (forall s, e :: s in f.posted && e in s.batch.events ==> e in f.w.recorded)
    && (forall s, e :: s in f.posted ==> Reached(f.w.c, s, e))
  }

  lemma {:induction false} SegmentNamed(disk: seq<Segment>, k: nat)
    requires Ordered(disk) && k < |disk|
    ensures EventsNamed(disk, disk[k].name) == multiset(disk[k].batch.events)
  {
    if k > 0 {
      OrderedTail(disk);
      assert disk[1..][k - 1] == disk[k];
      SegmentNamed(disk[1..], k - 1);
    }
  }

  /** A named segment is evicted with the first `n` or stays. */
  lemma {:induction false} NamedPast(disk: seq<Segment>, n: nat, name: Name, e: nat)
    requires n <= |disk| && e in EventsNamed(disk, name)
    ensures e in DiskEvents(disk[..n]) || e in EventsNamed(disk[n..], name)
  {
    if n > 0 {
      assert disk[..n][1..] == disk[1..][..n - 1] && disk[1..][n - 1..] == disk[n..];
      if disk[0].name != name { NamedPast(disk[1..], n - 1, name, e); }
    }
  }

  lemma {:induction false} NamedAfterStore(disk: seq<Segment>, seg: Segment, name: Name)
    requires name != seg.name
    ensures EventsNamed(Store(disk, seg), name) == EventsNamed(disk, name)
  {
    if disk != [] && disk[0].name.Before(seg.name) { NamedAfterStore(disk[1..], seg, name); }
  }

  lemma {:induction false} NamedAfterRemove(disk: seq<Segment>, gone: Name, name: Name)
    requires name != gone
    ensures EventsNamed(Remove(disk, gone), name) == EventsNamed(disk, name)
  {
    if disk != [] && disk[0].name != gone { NamedAfterRemove(disk[1..], gone, name); }
  }

  lemma FlushCount(w: World, t: Turn, e: nat)
    requires Ordered(w.c.disk) && Buffered(w.c) > 0
    ensures Held(FlushToStorage(w.c, w.cap, w.clock, t))[e] + FlushLoss(w, t)[e] + Overwritten(w, t)[e] == Held(w.c)[e]
  {
    FlushBalance(w, t);
    Plus3(Held(FlushToStorage(w.c, w.cap, w.clock, t)), FlushLoss(w, t), Overwritten(w, t), e);
  }

  /** A flush leaves a stored event that was posted where it was. */
  lemma FlushReaches(w: World, t: Turn, s: Sending, e: nat)
    requires Ordered(w.c.disk) && Buffered(w.c) > 0 && Held(w.c)[e] <= 1
    requires e in Removed(w.c, s) && e in Held(FlushToStorage(w.c, w.cap, w.clock, t))
    ensures e in Removed(FlushToStorage(w.c, w.cap, w.clock, t), s)
  {
    FlushCount(w, t, e);
    match s
    case FromMemory(_) =>
      assert !(w.c.spool && t.write.Written?) ==> e !in Overflowed(w.c);
    case FromDisk(name, _) => FlushSpares(w, t, name, e);
  }

  lemma FlushSpares(w: World, t: Turn, name: Name, e: nat)
    requires Ordered(w.c.disk) && Buffered(w.c) > 0
    requires e in EventsNamed(w.c.disk, name) && e !in FlushLoss(w, t) && e !in Overwritten(w, t)
    ensures e in EventsNamed(FlushToStorage(w.c, w.cap, w.clock, t).disk, name)
  {
    if w.c.spool {
      NamedPast(w.c.disk, Evictions(w.c.disk, w.cap), name, e);
      assert e in EventsNamed(Survivors(w.c, w.cap), name);
      if t.write.Written? {
        NamedAfterStore(Survivors(w.c, w.cap),
                        Segment(WriteName(w.c, w.clock), Drained(w.c, t.id), t.write.bytes), name);
      }
    }
  }

  lemma AnswerReaches(c: Client, s: Sending, o: Outcome, other: Sending, e: nat)
    requires Held(c)[e] <= 1 && e in Removed(c, other) && e in Held(AfterAnswer(c, s, o))
    ensures e in Removed(AfterAnswer(c, s, o), other)
  {
    RemovedCounts(c, s, o, e);
    if s.FromDisk? && other.FromDisk? { NamedAfterRemove(c.disk, s.name, other.name); }
  }

  lemma PlainReaches(f: Free, p: Op, s: Sending, e: nat)
    requires Sane(f) && Tidy(f) && MayDo(f, Plain(p)) && !p.Restart? && s in f.posted
    ensures Reached(Step(f.w, p).c, s, e)
  {
    if e in s.batch.events && e in Held(Step(f.w, p).c) {
      PlainStored(f, p, e);
      assert Reached(f.w.c, s, e);
      if p.Flush? && Buffered(f.w.c) > 0 {
        FlushReaches(f.w, p.turn, s, e);
      } else {
        RemovedSame(f.w, p, s);
      }
    }
  }

  /** Nothing but recording brings an event into storage. */
  lemma PlainStored(f: Free, p: Op, e: nat)
    requires Sane(f) && MayDo(f, Plain(p)) && e in f.w.recorded && e in Held(Step(f.w, p).c)
    ensures e in Held(f.w.c) && Held(f.w.c)[e] <= 1
  {
    PlainCounts(f.w, p, e);
    assert Held(f.w.c)[e] <= f.w.recorded[e] <= 1;
  }

  lemma RemovedSame(w: World, p: Op, s: Sending)
    requires Possible(w, p) && !p.SendSegment? && !p.SendHeld? && !p.Restart? && (p.Flush? ==> Buffered(w.c) == 0)
    ensures Removed(Step(w, p).c, s) == Removed(w.c, s)
  {
  }

  lemma PlainUnsettles(f: Free, p: Op, e: nat)
    requires Sane(f) && MayDo(f, Plain(p))
    requires (e in Held(f.w.c) ==> !Settled(f.w, e)) && (Settled(f.w, e) ==> e in f.w.recorded)
    ensures var w := Step(f.w, p);
            (e in Held(w.c) ==> !Settled(w, e)) && (Settled(w, e) ==> e in w.recorded)
            && (e in f.w.recorded ==> e in w.recorded)
  {
    PlainCounts(f.w, p, e);
    assert Held(f.w.c)[e] <= f.w.recorded[e] <= 1;
  }

  lemma PlainKeepsTidy(f: Free, p: Op)
    requires Sane(f) && Tidy(f) && MayDo(f, Plain(p))
    ensures Tidy(FreeStep(f, Plain(p)))
  {
    var f' := FreeStep(f, Plain(p));
    forall e
      ensures (e in Held(f'.w.c) ==> !Settled(f'.w, e)) && (Settled(f'.w, e) ==> e in f'.w.recorded)
              && (e in f.w.recorded ==> e in f'.w.recorded)
    {
      PlainUnsettles(f, p, e);
    }
    forall s, e | s in f'.posted ensures Reached(f'.w.c, s, e) { PlainReaches(f, p, s, e); }
  }

  lemma PostKeepsTidy(f: Free, op: FreeOp)
    requires Sane(f) && Tidy(f) && MayDo(f, op) && (op.PostSegment? || op.PostHeld?)
    ensures Tidy(FreeStep(f, op))
  {
    var c := f.w.c;
    var s := if op.PostHeld? then FromMemory(c.memPending[0]) else FromDisk(c.disk[op.k].name, c.disk[op.k].batch);
    if op.PostSegment? { SegmentNamed(c.disk, op.k); }
    assert Removed(c, s) == multiset(s.batch.events);
    forall e | e in s.batch.events ensures e in f.w.recorded { RemovedIsStored(f, s, e); }
    var posted := f.posted + [s];
    assert FreeStep(f, op) == f.(posted := posted);
    forall other, e | other in posted && e in other.batch.events ensures e in f.w.recorded {
      assert other in f.posted || other == s;
    }
    forall other, e | other in posted ensures Reached(c, other, e) { assert other in f.posted || other == s; }
  }

  lemma RemovedIsStored(f: Free, s: Sending, e: nat)
    requires Sane(f) && e in Removed(f.w.c, s)
    ensures e in Held(f.w.c) && e in f.w.recorded
  {
    RemovedCounts(f.w.c, s, Acked, e);
    assert Held(f.w.c)[e] <= f.w.recorded[e];
  }

  lemma AnswerUnsettles(f: Free, i: nat, o: Outcome, e: nat)
    requires Sane(f) && Tidy(f) && i < |f.posted| && !o.Transient?
    ensures var f' := FreeStep(f, Answer(i, o));
            (e in Held(f'.w.c) ==> !Settled(f'.w, e)) && (Settled(f'.w, e) ==> e in f'.w.recorded)
  {
    AnswerCounts(f, i, o, e);
    var s := f.posted[i];
    assert s in f.posted && Reached(f.w.c, s, e);
    assert Held(f.w.c)[e] <= f.w.recorded[e] <= 1;
  }

  lemma AnswerFinds(f: Free, i: nat, o: Outcome, other: Sending, e: nat)
    requires Sane(f) && Tidy(f) && i < |f.posted| && !o.Transient? && other in f.posted
    ensures Reached(AfterAnswer(f.w.c, f.posted[i], o), other, e)
  {
    assert Reached(f.w.c, other, e);
    assert Held(f.w.c)[e] <= f.w.recorded[e] <= 1;
    var c' := AfterAnswer(f.w.c, f.posted[i], o);
    if e in other.batch.events && e in Held(c') {
      RemovedCounts(f.w.c, f.posted[i], o, e);
      AnswerReaches(f.w.c, f.posted[i], o, other, e);
    }
  }

  lemma AnswerKeepsTidy(f: Free, i: nat, o: Outcome)
    requires Sane(f) && Tidy(f) && i < |f.posted| && !o.Transient?
    ensures Tidy(FreeStep(f, Answer(i, o)))
  {
    var f' := FreeStep(f, Answer(i, o));
    forall e ensures (e in Held(f'.w.c) ==> !Settled(f'.w, e)) && (Settled(f'.w, e) ==> e in f'.w.recorded) {
      AnswerUnsettles(f, i, o, e);
    }
    forall other, e | other in f'.posted ensures Reached(f'.w.c, other, e) {
      assert other in f.posted;
      AnswerFinds(f, i, o, other, e);
    }
  }

  /** Every operation keeps this, lossy ones included. */
  lemma StepKeepsTidy(f: Free, op: FreeOp)
    requires Sane(f) && Tidy(f) && MayDo(f, op)
    ensures Tidy(FreeStep(f, op))
  {
    match op
    case Plain(p) => PlainKeepsTidy(f, p);
    case PostSegment(_) => PostKeepsTidy(f, op);
    case PostHeld => PostKeepsTidy(f, op);
    case Answer(i, o) => if !o.Transient? { AnswerKeepsTidy(f, i, o); }
  }

  /** What vanishes was stored, so it was not settled before. */
  lemma VanishingIsUnsettled(f: Free, op: FreeOp, e: nat)
    requires Sane(f) && Tidy(f) && MayDo(f, op) && VanishesAt(f, op, e)
    ensures !Settled(f.w, e)
  {
    if op.Answer? {
      AnswerCounts(f, op.i, op.o, e);
    } else {
      FlushCount(f.w, op.op.turn, e);
    }
    assert e in Held(f.w.c);
  }

  // ── the guards ───────────────────────────────────────────────────────────

  /** What a reporter could look at before the operation: whether what an answer
      is about to remove is what was answered, and whether the name a write is
      about to use is free of events. */
  ghost predicate Spares(f: Free, op: FreeOp)
    requires MayDo(f, op)
  {
    match op
    case Answer(i, o) => o.Transient? || RemovesOnlyItsOwn(f.w.c, f.posted[i])
    case Plain(p) =>
      p.Flush? && Buffered(f.w.c) > 0 && f.w.c.spool && p.turn.write.Written? ==>
        NothingNamed(Survivors(f.w.c, f.w.cap), WriteName(f.w.c, f.w.clock))
    case _ => true
  }

  ghost predicate RemovesOnlyItsOwn(c: Client, s: Sending) {
    match s
    case FromMemory(b) => c.memPending == [] || forall e :: e in c.memPending[0].events ==> e in b.events
    case FromDisk(name, b) =>
      forall seg, e :: seg in c.disk && seg.name == name && e in seg.batch.events ==> e in b.events
  }

  lemma {:induction false} NamedMember(disk: seq<Segment>, name: Name, e: nat)
    requires Ordered(disk)
    ensures e in EventsNamed(disk, name) <==> exists seg :: seg in disk && seg.name == name && e in seg.batch.events
  {
    if disk != [] {
      OrderedTail(disk);
      NamedMember(disk[1..], name, e);
      assert forall seg :: seg in disk <==> seg == disk[0] || seg in disk[1..];
    }
  }

  /** An operation takes no event out of storage without accounting for it if and
      only if these hold. */
  lemma SparesIff(f: Free, op: FreeOp)
    requires Ordered(f.w.c.disk) && MayDo(f, op)
    ensures Spares(f, op) <==> forall e :: !VanishesAt(f, op, e)
  {
    match op
    case Answer(i, o) =>
      if !o.Transient? { OwnIff(f.w.c, f.posted[i]); }
      forall e ensures VanishesAt(f, op, e) <==>
                         !o.Transient? && e in Removed(f.w.c, f.posted[i]) && e !in f.posted[i].batch.events {}
    case Plain(p) =>
      forall e ensures VanishesAt(f, op, e) <==> e in Gone(f, op) {}
      EmptyIff(Gone(f, op));
      if p.Flush? && Buffered(f.w.c) > 0 && f.w.c.spool && p.turn.write.Written? {
        SurvivorsOrdered(f.w.c, f.w.cap);
        NamedIff(Survivors(f.w.c, f.w.cap), WriteName(f.w.c, f.w.clock));
        assert Gone(f, op) == EventsNamed(Survivors(f.w.c, f.w.cap), WriteName(f.w.c, f.w.clock));
      } else {
        assert Gone(f, op) == multiset{};
      }
    case _ =>
      forall e ensures !VanishesAt(f, op, e) {}
  }

  lemma EmptyIff(m: multiset<nat>)
    ensures m == multiset{} <==> forall e :: e !in m
  {
    if m != multiset{} { var e :| e in m; }
  }

  lemma OwnIff(c: Client, s: Sending)
    requires Ordered(c.disk)
    ensures RemovesOnlyItsOwn(c, s) <==> forall e :: e in Removed(c, s) ==> e in s.batch.events
  {
    if s.FromDisk? {
      forall e ensures e in Removed(c, s)
                       <==> exists seg :: seg in c.disk && seg.name == s.name && e in seg.batch.events
      {
        NamedMember(c.disk, s.name, e);
      }
    } else if c.memPending != [] {
      assert forall e :: e in Removed(c, s) <==> e in c.memPending[0].events;
    }
  }

  // ── whole runs ───────────────────────────────────────────────────────────

  ghost predicate NoneMissing(f: Free) { forall e :: !Missing(f, e) }

  /** Every event is accounted for at every point of the run. */
  ghost predicate AlwaysAccounted(f: Free, ops: seq<FreeOp>)
    decreases |ops|
  {
    NoneMissing(f) && (ops == [] || AlwaysAccounted(Next(f, ops[0]), ops[1..]))
  }

  /** The guard holds before every operation that takes place. */
  ghost predicate AllSpare(f: Free, ops: seq<FreeOp>)
    decreases |ops|
  {
    ops == [] || ((MayDo(f, ops[0]) ==> Spares(f, ops[0])) && AllSpare(Next(f, ops[0]), ops[1..]))
  }

  lemma StepAccountsIff(f: Free, op: FreeOp)
    requires Sane(f) && Tidy(f) && NoneMissing(f) && MayDo(f, op)
    ensures Spares(f, op) <==> NoneMissing(FreeStep(f, op))
  {
    SparesIff(f, op);
    forall e ensures Missing(FreeStep(f, op), e) <==> VanishesAt(f, op, e) {
      StepLosesExactly(f, op, e);
      if VanishesAt(f, op, e) { VanishingIsUnsettled(f, op, e); }
    }
  }

  lemma {:induction false} AccountedIffSpared(f: Free, ops: seq<FreeOp>)
    requires Sane(f) && Tidy(f) && NoneMissing(f)
    ensures AlwaysAccounted(f, ops) <==> AllSpare(f, ops)
    decreases |ops|
  {
    if ops != [] {
      var f' := Next(f, ops[0]);
      if MayDo(f, ops[0]) {
        StepKeepsSane(f, ops[0]);
        StepKeepsTidy(f, ops[0]);
        StepAccountsIff(f, ops[0]);
      }
      if NoneMissing(f') { AccountedIffSpared(f', ops[1..]); }
    }
  }

  /** Over every run with any number of overlapping passes and restarts at any
      time, every recorded event stays accounted for at every point, if and only if
      before each operation the guard holds: what an answer is about to remove is
      part of what was answered, and the name of a write is free of events. */
  lemma AccountedIff(cap: nat, clock: nat, spoolUsable: bool, ops: seq<FreeOp>)
    ensures AlwaysAccounted(FreeBoot(cap, clock, spoolUsable), ops)
            <==> AllSpare(FreeBoot(cap, clock, spoolUsable), ops)
  {
    AccountedIffSpared(FreeBoot(cap, clock, spoolUsable), ops);
  }

  // ── and without them ─────────────────────────────────────────────────────

  lemma FreeRunStep(f: Free, op: FreeOp, rest: seq<FreeOp>)
    requires MayDo(f, op)
    ensures FreeRun(f, [op] + rest) == FreeRun(FreeStep(f, op), rest)
  {
    assert ([op] + rest)[1..] == rest;
  }

  /** Two events in two batches, held in memory; a tick and `close` both post the
      first batch, and both answers shift the queue. */
  function OverlapRun(a: nat, b: nat, t: Turn): seq<FreeOp> {
    [Plain(Record(a)), Plain(Flush(t)), Plain(Record(b)), Plain(Flush(t)), PostHeld, PostHeld, Answer(0, Acked),
     Answer(0, Acked)]
  }

  ghost function TwoHeld(cap: nat, clock: nat, a: nat, b: nat, id: nat): Free {
    Free(World(Client([], [], [], [Batch(id, [a], [], []), Batch(id, [b], [], [])], 0, false, [], 0), cap, clock,
               multiset{a, b}, multiset{}, multiset{}, multiset{}, 0), [])
  }

  lemma HeldOne(w: World, e: nat, t: Turn)
    requires !w.c.spool && Buffered(w.c) == 0 && |w.c.memPending| < MEM_PENDING_MAX && e !in w.recorded
    ensures Step(Step(w, Record(e)), Flush(t))
         == w.(c := w.c.(memPending := w.c.memPending + [Batch(t.id, [e], [], [])]),
               recorded := w.recorded + multiset{e})
  {
    var w1 := Step(w, Record(e));
    assert w1.c.events == [e] && EventShare(w1.c) == 1;
    assert [e][..1] == [e] && [e][1..] == [];
    assert w1.lost + multiset{} == w1.lost;
  }

  lemma HoldStep(f: Free, e: nat, t: Turn, w': World, rest: seq<FreeOp>)
    requires !f.w.c.spool && Buffered(f.w.c) == 0 && |f.w.c.memPending| < MEM_PENDING_MAX && e !in f.w.recorded
    requires w' == f.w.(c := f.w.c.(memPending := f.w.c.memPending + [Batch(t.id, [e], [], [])]),
                        recorded := f.w.recorded + multiset{e})
    ensures FreeRun(f, [Plain(Record(e)), Plain(Flush(t))] + rest) == FreeRun(Free(w', f.posted), rest)
  {
    HeldOne(f.w, e, t);
    assert [Plain(Record(e)), Plain(Flush(t))] + rest == [Plain(Record(e))] + ([Plain(Flush(t))] + rest);
    FreeRunStep(f, Plain(Record(e)), [Plain(Flush(t))] + rest);
    FreeRunStep(FreeStep(f, Plain(Record(e))), Plain(Flush(t)), rest);
  }

  ghost function OneHeld(cap: nat, clock: nat, a: nat, id: nat): World {
    World(Client([], [], [], [Batch(id, [a], [], [])], 0, false, [], 0), cap, clock,
          multiset{a}, multiset{}, multiset{}, multiset{}, 0)
  }

  lemma TwoHeldRun(cap: nat, clock: nat, a: nat, b: nat, t: Turn, rest: seq<FreeOp>)
    requires a != b
    ensures FreeRun(FreeBoot(cap, clock, false),
                    [Plain(Record(a)), Plain(Flush(t)), Plain(Record(b)), Plain(Flush(t))] + rest)
         == FreeRun(TwoHeld(cap, clock, a, b, t.id), rest)
  {
    var more := [Plain(Record(b)), Plain(Flush(t))] + rest;
    assert [Plain(Record(a)), Plain(Flush(t)), Plain(Record(b)), Plain(Flush(t))] + rest
        == [Plain(Record(a)), Plain(Flush(t))] + more;
    var f0, w1 := FreeBoot(cap, clock, false), OneHeld(cap, clock, a, t.id);
    assert [] + [Batch(t.id, [a], [], [])] == [Batch(t.id, [a], [], [])] && multiset{} + multiset{a} == multiset{a};
    HoldStep(f0, a, t, w1, more);
    assert [Batch(t.id, [a], [], [])] + [Batch(t.id, [b], [], [])] == TwoHeld(cap, clock, a, b, t.id).w.c.memPending;
    assert multiset{a} + multiset{b} == multiset{a, b};
    HoldStep(Free(w1, []), b, t, TwoHeld(cap, clock, a, b, t.id).w, rest);
  }

  /** The second batch is gone, unsent, and nothing was counted as dropped. */
  lemma OverlapLoses(cap: nat, clock: nat, a: nat, b: nat, t: Turn)
    requires a != b
    ensures var f := FreeRun(FreeBoot(cap, clock, false), OverlapRun(a, b, t));
            Missing(f, b) && f.w.Dropped() == 0
  {
    var f0 := TwoHeld(cap, clock, a, b, t.id);
    var u3 := [Answer(0, Acked)];
    var u2 := [Answer(0, Acked)] + u3;
    var u1 := [PostHeld] + u2;
    assert OverlapRun(a, b, t)
        == [Plain(Record(a)), Plain(Flush(t)), Plain(Record(b)), Plain(Flush(t))] + ([PostHeld] + u1);
    TwoHeldRun(cap, clock, a, b, t, [PostHeld] + u1);
    var f2 := f0.(posted := [FromMemory(Batch(t.id, [a], [], [])), FromMemory(Batch(t.id, [a], [], []))]);
    PostTwice(f0, u2, f2);
    FreeRunStep(f2, Answer(0, Acked), u3);
    var f3 := FreeStep(f2, Answer(0, Acked));
    assert u3 == [Answer(0, Acked)] + [];
    FreeRunStep(f3, Answer(0, Acked), []);
    TwoAnswers(f2, a, b, t.id);
  }

  lemma PostTwice(f: Free, rest: seq<FreeOp>, f': Free)
    requires f.w.c.memPending != [] && f.posted == []
    requires f' == f.(posted := [FromMemory(f.w.c.memPending[0]), FromMemory(f.w.c.memPending[0])])
    ensures FreeRun(f, [PostHeld] + ([PostHeld] + rest)) == FreeRun(f', rest)
  {
    FreeRunStep(f, PostHeld, [PostHeld] + rest);
    FreeRunStep(FreeStep(f, PostHeld), PostHeld, rest);
    assert FreeStep(FreeStep(f, PostHeld), PostHeld).posted == f'.posted;
  }

  /** Two answers for the one batch both passes posted. */
  lemma TwoAnswers(f: Free, a: nat, b: nat, id: nat)
    requires f.w.c == Client([], [], [], [Batch(id, [a], [], []), Batch(id, [b], [], [])], 0, false, [], 0)
    requires f.posted == [FromMemory(Batch(id, [a], [], [])), FromMemory(Batch(id, [a], [], []))]
    requires a != b && b in f.w.recorded && f.w.finished == f.w.lost == f.w.wiped == multiset{}
    ensures var f' := FreeStep(FreeStep(f, Answer(0, Acked)), Answer(0, Acked));
            Missing(f', b) && f'.w.Dropped() == f.w.Dropped()
  {
    var f' := FreeStep(FreeStep(f, Answer(0, Acked)), Answer(0, Acked));
    assert f'.w.c.memPending == [];
    assert f'.w.finished == multiset([a]) + multiset([a]);
    assert Held(f'.w.c) == multiset{};
  }

  /** A process spools one event, restarts, and spools another within the same
      millisecond: both segments get sequence number 1. */
  function ReuseRun(a: nat, b: nat, t: Turn): seq<FreeOp> {
    [Plain(Record(a)), Plain(Flush(t)), Plain(Restart(true)), Plain(Record(b)), Plain(Flush(t))]
  }

  ghost function Spooled(cap: nat, clock: nat, recorded: multiset<nat>, e: nat, id: nat, bytes: nat): World {
    World(Client([], [], [], [], 0, true, [Segment(Name(clock, 1), Batch(id, [e], [], []), bytes)], 1), cap, clock,
          recorded, multiset{}, multiset{}, multiset{}, 0)
  }

  lemma SpooledOne(cap: nat, clock: nat, recorded: multiset<nat>, disk: seq<Segment>, e: nat, t: Turn)
    requires t.write.Written? && e !in recorded
    requires disk == [] || (|disk| == 1 && disk[0].name == Name(clock, 1) && disk[0].bytes <= cap)
    ensures var w := World(Client([], [], [], [], 0, true, disk, 0), cap, clock, recorded, multiset{}, multiset{},
                           multiset{}, 0);
            Step(Step(w, Record(e)), Flush(t)) == Spooled(cap, clock, recorded + multiset{e}, e, t.id, t.write.bytes)
  {
    var w := World(Client([], [], [], [], 0, true, disk, 0), cap, clock, recorded, multiset{}, multiset{}, multiset{},
                   0);
    var w1 := Step(w, Record(e));
    assert w1.c.events == [e] && EventShare(w1.c) == 1;
    assert [e][..1] == [e] && [e][1..] == [];
    if disk != [] { assert Bytes(disk) == disk[0].bytes + Bytes(disk[1..]); }
    assert Evictions(disk, cap) == 0 && disk[0..] == disk && disk[..0] == [];
    assert FlushLoss(w1, t) == multiset{};
  }

  /** The new process over the leftover segment. */
  ghost function Restarted(cap: nat, clock: nat, e: nat, id: nat, bytes: nat): World {
    World(Client([], [], [], [], 0, true, [Segment(Name(clock, 1), Batch(id, [e], [], []), bytes)], 0), cap, clock,
          multiset{e}, multiset{}, multiset{}, multiset{}, 0)
  }

  lemma FirstProcess(cap: nat, clock: nat, a: nat, t: Turn, rest: seq<FreeOp>)
    requires t.write.Written?
    ensures FreeRun(FreeBoot(cap, clock, true), [Plain(Record(a)), Plain(Flush(t)), Plain(Restart(true))] + rest)
         == FreeRun(Free(Restarted(cap, clock, a, t.id, t.write.bytes), []), rest)
  {
    var f0 := FreeBoot(cap, clock, true);
    var t2 := [Plain(Restart(true))] + rest;
    var t1 := [Plain(Flush(t))] + t2;
    assert [Plain(Record(a)), Plain(Flush(t)), Plain(Restart(true))] + rest == [Plain(Record(a))] + t1;
    FreeRunStep(f0, Plain(Record(a)), t1);
    var f1 := FreeStep(f0, Plain(Record(a)));
    FreeRunStep(f1, Plain(Flush(t)), t2);
    SpooledOne(cap, clock, multiset{}, [], a, t);
    var f2 := FreeStep(f1, Plain(Flush(t)));
    assert multiset{} + multiset{a} == multiset{a};
    FreeRunStep(f2, Plain(Restart(true)), rest);
    assert f2.w.wiped + multiset(f2.w.c.events) + EventsOf(f2.w.c.memPending) == multiset{};
    assert FreeStep(f2, Plain(Restart(true))).w == Restarted(cap, clock, a, t.id, t.write.bytes);
  }

  lemma NameReuseLoses(cap: nat, clock: nat, a: nat, b: nat, t: Turn)
    requires a != b && t.write.Written? && t.write.bytes <= cap
    ensures var f := FreeRun(FreeBoot(cap, clock, true), ReuseRun(a, b, t));
            Missing(f, a) && f.w.Dropped() == 0
  {
    var t4 := [Plain(Flush(t))];
    var t3 := [Plain(Record(b))] + t4;
    assert ReuseRun(a, b, t) == [Plain(Record(a)), Plain(Flush(t)), Plain(Restart(true))] + t3;
    FirstProcess(cap, clock, a, t, t3);
    var f3 := Free(Restarted(cap, clock, a, t.id, t.write.bytes), []);
    FreeRunStep(f3, Plain(Record(b)), t4);
    var f4 := FreeStep(f3, Plain(Record(b)));
    assert t4 == [Plain(Flush(t))] + [];
    FreeRunStep(f4, Plain(Flush(t)), []);
    SpooledOne(cap, clock, multiset{a}, f3.w.c.disk, b, t);
    var f5 := FreeStep(f4, Plain(Flush(t)));
    assert f5.w == Spooled(cap, clock, multiset{a} + multiset{b}, b, t.id, t.write.bytes);
    SpooledHolds(cap, clock, multiset{a} + multiset{b}, b, t.id, t.write.bytes);
    assert FreeRun(f5, []) == f5;
    assert a in f5.w.recorded && !Settled(f5.w, a);
  }

  lemma SpooledHolds(cap: nat, clock: nat, recorded: multiset<nat>, e: nat, id: nat, bytes: nat)
    ensures Held(Spooled(cap, clock, recorded, e, id, bytes).c) == multiset{e}
  {
    OneSegment(Spooled(cap, clock, recorded, e, id, bytes).c.disk[0]);
  }
}
