/** Throttled sends: one accepted job per slot, over whole runs and across retention sweeps. */
module Throttle {
  import opened Options
  import opened Schema
  import opened Claiming
  import opened Statements
  import opened Effects
  import opened Indexes
  import opened Sending

  /** What is being throttled: one key of one queue, in slots of `seconds`. A send is guarded against its rivals for
      `span` seconds: one slot, or two when sends may also be made for the next slot. */
  datatype Gate = Gate(queue: string, key: string, seconds: int, span: int)

  predicate ValidGate(g: Gate) { 1 <= g.seconds <= g.span <= 2 * g.seconds }

  lemma Stretch(y: real, low: real, t: real, n: real)
    requires t > 0.0 && low <= y < low + 1.0 && n == low * t
    ensures n <= y * t < n + t
  {
    var below, above := y - low, low + 1.0 - y;
    assert below * t >= 0.0 && above * t > 0.0;
    assert below * t == y * t - low * t;
    assert above * t == low * t + t - y * t;
  }

  lemma FloorTimes(y: real, s: int, n: int)
    requires s >= 1 && n == s * y.Floor
    ensures n as real <= y * s as real < (n + s) as real
  {
    ProductOfCasts(s, y.Floor);
    Stretch(y, y.Floor as real, s as real, n as real);
  }

  /** The slot a time falls in. */
  lemma SlotWindow(now: Time, seconds: int, offset: int)
    requires seconds >= 1
    ensures Slot(now, seconds, offset) as real <= now + offset as real < (Slot(now, seconds, offset) + seconds) as real
  {
    var y := (now + offset as real) / seconds as real;
    assert y * seconds as real == now + offset as real;
    FloorTimes(y, seconds, seconds * y.Floor);
  }

  lemma FarFromZero(s: int, d: int)
    requires s >= 1
    ensures d == 0 ==> s * d == 0
    ensures d >= 1 ==> s * d >= s
    ensures d <= -1 ==> s * d <= -s
  {
  }

  /** A slot is a multiple of its width. */
  lemma SlotIsMultiple(now: Time, seconds: int, offset: int)
    requires seconds >= 1
    ensures Slot(now, seconds, offset) % seconds == 0
  {
    var slot := Slot(now, seconds, offset);
    var n := ((now + offset as real) / seconds as real).Floor;
    var q, r := slot / seconds, slot % seconds;
    assert slot == seconds * q + r && slot == seconds * n;
    FarFromZero(seconds, n - q);
    assert seconds * (n - q) == r;
  }

  /** With an offset of at most one slot a time falls in its own slot or the one after it. */
  lemma SlotWithOffset(now: Time, seconds: int, offset: int)
    requires seconds >= 1 && 0 <= offset <= seconds
    ensures || Slot(now, seconds, offset) == Slot(now, seconds, 0)
            || Slot(now, seconds, offset) == Slot(now, seconds, 0) + seconds
    ensures offset == seconds ==> Slot(now, seconds, offset) == Slot(now, seconds, 0) + seconds
  {
    var y, low := (now + offset as real) / seconds as real, (now + 0 as real) / seconds as real;
    Shifted(now, offset as real, seconds as real);
    FloorsAreNear(low, y, offset as real / seconds as real);
    assert seconds * (low.Floor + 1) == seconds * low.Floor + seconds;
  }

  lemma Shifted(now: real, offset: real, seconds: real)
    requires seconds > 0.0 && 0.0 <= offset <= seconds
    ensures (now + offset) / seconds == now / seconds + offset / seconds
    ensures 0.0 <= offset / seconds <= 1.0 && (offset == seconds ==> offset / seconds == 1.0)
  {
  }

  lemma FloorsAreNear(low: real, y: real, d: real)
    requires y == low + d && 0.0 <= d <= 1.0
    ensures y.Floor == low.Floor || y.Floor == low.Floor + 1
    ensures d == 1.0 ==> y.Floor == low.Floor + 1
  {
  }

  /** A row of the gate: one that occupies, or occupied, one of its slots. */
  predicate Gated(g: Gate, k: Key, j: Job) {
    k.queue == g.queue && j.singletonOn.Some? && KeyText(j) == g.key
  }

  /** Its retention reaches past the end of its slot. */
  predicate Covered(g: Gate, j: Job, clock: Time) {
    && j.singletonOn.Some?
    && j.singletonOn.value as real <= j.createdOn + (g.span - g.seconds) as real
    && j.createdOn <= clock
    && (j.deletionSeconds <= 0 || j.deletionSeconds >= g.span)
    && j.keepUntil >= j.createdOn + g.span as real
    && (j.completedOn.Some? ==> j.completedOn.value >= j.createdOn)
  }

  ghost predicate AllCovered(g: Gate, jobs: Jobs, clock: Time) {
    forall k | k in jobs && Gated(g, k, jobs[k]) :: Covered(g, jobs[k], clock)
  }

  predicate Holds(g: Gate, k: Key, j: Job, slot: int) {
    ThrottleEntry(k, j) == Some(SlotEntry(g.queue, slot, g.key))
  }

  /** Every accepted slot that is not over has a row in the throttle index. */
  ghost predicate Held(g: Gate, jobs: Jobs, slots: seq<int>, clock: Time) {
    forall s | s in slots && clock < (s + g.seconds) as real :: exists k :: k in jobs && Holds(g, k, jobs[k], s)
  }

  predicate Distinct(slots: seq<int>) {
    forall i, j | 0 <= i < j < |slots| :: slots[i] != slots[j]
  }

  /** A throttled send of the gate uses its slots, does not start in the past, and is kept for the span. */
  predicate Fits(g: Gate, s: Spec, q: Queue, now: Time) {
    s.singletonSeconds.Some? && s.singletonKey.Or("") == g.key ==>
      && s.singletonSeconds.value == g.seconds
      && 0 <= s.singletonOffset.Or(0) <= g.span - g.seconds
      && StartTime(s, now) >= now
      && (s.deletionSeconds.Or(q.deletionSeconds) <= 0 || s.deletionSeconds.Or(q.deletionSeconds) >= g.span)
      && s.retentionSeconds.Or(q.retentionSeconds) >= g.span
  }

  /** A throttled send with the gate's key fits the gate exactly when it has the gate's width, is for the next slot only
      if the gate spans two, does not start in the past, and its queue keeps jobs for the span. */
  lemma EncodingFitsGate(g: Gate, id: Id, data: Payload, o: SendOptions, q: Queue, now: Time)
    requires ValidGate(g) && o.singletonSeconds.Some? && o.singletonSeconds.value >= 1 && o.singletonKey.Or("") == g.key
    ensures Fits(g, JobPayload(id, data, o), q, now) <==>
            && o.singletonSeconds.value == g.seconds && (o.singletonNextSlot ==> g.span == 2 * g.seconds)
            && (o.startAfter == None || StartTime(JobPayload(id, data, o), now) >= now)
            && (q.deletionSeconds <= 0 || q.deletionSeconds >= g.span) && q.retentionSeconds >= g.span
  {
  }

  /** And its row takes the current slot, or for a next-slot send the one after it. */
  lemma SendTakesSlot(id: Id, data: Payload, o: SendOptions, q: Queue, now: Time)
    requires o.singletonSeconds.Some? && o.singletonSeconds.value >= 1
    ensures var s := o.singletonSeconds.value;
            NewRow(JobPayload(id, data, o), q, now).singletonOn
            == Some(Slot(now, s, 0) + if o.singletonNextSlot then s else 0)
  {
    SlotWithOffset(now, o.singletonSeconds.value, o.singletonSeconds.value);
  }

  /** The statement respects the gate: sends fit it, and none of its rows is cancelled or deleted by hand. */
  predicate Respects(g: Gate, db: Db, e: Event) {
    match e.stmt
    case InsertJobs(queue, specs) =>
      queue == g.queue && queue in db.queues ==> forall s | s in specs :: Fits(g, s, db.queues[queue], e.at)
    case CancelJobs(queue, ids) => forall k | k in Named(db.jobs, queue, ids) :: !Gated(g, k, db.jobs[k])
    case DeleteJobs(queue, ids) => forall k | k in Named(db.jobs, queue, ids) :: !Gated(g, k, db.jobs[k])
    case _ => true
  }

  // ---- one insert ----

  /** The slots an insert takes, in order. */
  function Taken(g: Gate, jobs: Jobs, q: Queue, specs: seq<Spec>, now: Time): seq<int>
    requires Accept(jobs, g.queue, q, specs, now).Ok?
    decreases |specs|
  {
    if specs == [] then [] else
    var k, row := Key(g.queue, specs[0].id), NewRow(specs[0], q, now);
    if Conflicts(jobs, k, row) then Taken(g, jobs, q, specs[1..], now)
    else (if Gated(g, k, row) then [row.singletonOn.value] else [])
         + Taken(g, jobs[k := row], q, specs[1..], now)
  }

  /** A fitting row is covered, and its slot is not yet over. */
  lemma NewRowIsCovered(g: Gate, s: Spec, q: Queue, now: Time)
    requires ValidGate(g) && Fits(g, s, q, now) && s.singletonSeconds.Some? && s.singletonKey.Or("") == g.key
    ensures s.singletonSeconds != Some(0)
    ensures Covered(g, NewRow(s, q, now), now)
    ensures now < (NewRow(s, q, now).singletonOn.value + g.seconds) as real
  {
    SlotWindow(now, g.seconds, s.singletonOffset.Or(0));
  }

  lemma AddRow(g: Gate, jobs: Jobs, k: Key, row: Job, slots: seq<int>, now: Time)
    requires !Conflicts(jobs, k, row) && Distinct(slots) && Held(g, jobs, slots, now) && row.state.Created?
    requires Gated(g, k, row) ==> now < (row.singletonOn.value + g.seconds) as real
    ensures var slots' := slots + if Gated(g, k, row) then [row.singletonOn.value] else [];
            Distinct(slots') && Held(g, jobs[k := row], slots', now)
  {
    var slots' := slots + if Gated(g, k, row) then [row.singletonOn.value] else [];
    var after := jobs[k := row];
    if Gated(g, k, row) {
      var s := row.singletonOn.value;
      forall o | o in jobs ensures !Holds(g, o, jobs[o], s) {
        assert !Clash(k, row, o, jobs[o]);
      }
      assert s !in slots;
    }
    forall s | s in slots' && now < (s + g.seconds) as real ensures exists o :: o in after && Holds(g, o, after[o], s) {
      if s in slots {
        var o :| o in jobs && Holds(g, o, jobs[o], s);
        assert after[o] == jobs[o];
      } else {
        assert Holds(g, k, after[k], s);
      }
    }
  }

  lemma {:induction false} InsertTakesFreeSlots(g: Gate, jobs: Jobs, q: Queue, specs: seq<Spec>,
                                                slots: seq<int>, now: Time)
    requires ValidGate(g) && Accept(jobs, g.queue, q, specs, now).Ok? && forall s | s in specs :: Fits(g, s, q, now)
    requires Distinct(slots) && Held(g, jobs, slots, now) && AllCovered(g, jobs, now)
    ensures var table := Accept(jobs, g.queue, q, specs, now).value;
            var slots' := slots + Taken(g, jobs, q, specs, now);
            Distinct(slots') && Held(g, table, slots', now) && AllCovered(g, table, now)
    decreases |specs|
  {
    if specs == [] {
      assert slots + Taken(g, jobs, q, specs, now) == slots;
    } else {
      var k, row := Key(g.queue, specs[0].id), NewRow(specs[0], q, now);
      if Gated(g, k, row) { NewRowIsCovered(g, specs[0], q, now); }
      if Conflicts(jobs, k, row) {
        InsertTakesFreeSlots(g, jobs, q, specs[1..], slots, now);
      } else {
        var mine := if Gated(g, k, row) then [row.singletonOn.value] else [];
        AddRow(g, jobs, k, row, slots, now);
        InsertTakesFreeSlots(g, jobs[k := row], q, specs[1..], slots + mine, now);
        Regroup(slots, mine, Taken(g, jobs[k := row], q, specs[1..], now));
      }
    }
  }

  // ---- every other statement ----

  /** A row of the gate that is not cancelled stays in its slot through any other change. */
  lemma ChangeKeepsSlot(g: Gate, c: Change, k: Key, j: Job, clock: Time, now: Time)
    requires Gated(g, k, j) && Covered(g, j, clock) && clock <= now && Guard(c, j, now)
    ensures Gated(g, k, Apply(c, k, j, now)) && Covered(g, Apply(c, k, j, now), now)
    ensures !c.Cancel? ==> ThrottleEntry(k, j).Some? ==> ThrottleEntry(k, Apply(c, k, j, now)) == ThrottleEntry(k, j)
  {
    ColumnsKept(c, k, j, now);
    StateMoves(c, k, j, now);
  }

  /** The retention sweep leaves a covered row alone until its slot is over. */
  lemma SweepKeepsSlot(g: Gate, j: Job, clock: Time, now: Time)
    requires ValidGate(g) && Covered(g, j, clock) && TooOld(j, now)
    ensures now > (j.singletonOn.value + g.seconds) as real
  {
  }

  lemma UpdateKeepsGate(g: Gate, db: Db, d: Delta, slots: seq<int>, clock: Time, now: Time)
    requires AllCovered(g, db.jobs, clock) && Held(g, db.jobs, slots, now) && clock <= now
    requires d.Update? && CopiesOf(db, d, now)
    requires forall k | k in d.touched :: k in db.jobs && Guard(d.change, db.jobs[k], now)
    requires d.change.Cancel? ==> forall k | k in d.touched :: !Gated(g, k, db.jobs[k])
    ensures AllCovered(g, Patch(db, d, now).jobs, now) && Held(g, Patch(db, d, now).jobs, slots, now)
  {
    var after := Patch(db, d, now).jobs;
    forall k | k in after && Gated(g, k, after[k]) ensures Covered(g, after[k], now) {
      if k !in d.copies {
        ColumnsKept(d.change, k, db.jobs[k], now);
        if k in d.touched { ChangeKeepsSlot(g, d.change, k, db.jobs[k], clock, now); }
      }
    }
    forall s | s in slots && now < (s + g.seconds) as real ensures exists o :: o in after && Holds(g, o, after[o], s) {
      var o :| o in db.jobs && Holds(g, o, db.jobs[o], s);
      if o in d.touched { ChangeKeepsSlot(g, d.change, o, db.jobs[o], clock, now); }
      assert Holds(g, o, after[o], s);
    }
  }

  lemma DeleteKeepsGate(g: Gate, db: Db, e: Event, slots: seq<int>, clock: Time)
    requires ValidGate(g) && AllCovered(g, db.jobs, clock) && Held(g, db.jobs, slots, e.at) && clock <= e.at
    requires (e.stmt.DeleteOld? || e.stmt.DeleteJobs?) && Respects(g, db, e)
    ensures AllCovered(g, After(db, e).jobs, e.at) && Held(g, After(db, e).jobs, slots, e.at)
  {
    var after := After(db, e).jobs;
    forall s | s in slots && e.at < (s + g.seconds) as real ensures exists o :: o in after && Holds(g, o, after[o], s) {
      var o :| o in db.jobs && Holds(g, o, db.jobs[o], s);
      if TooOld(db.jobs[o], e.at) { SweepKeepsSlot(g, db.jobs[o], clock, e.at); }
      assert o in after && after[o] == db.jobs[o];
    }
  }

  // ---- the theorems ----

  /** The slots a statement takes for the gate. */
  ghost function TakenBy(g: Gate, db: Db, e: Event): seq<int>
    requires Legal(db, e)
  {
    if e.stmt.InsertJobs? && e.stmt.queue == g.queue && g.queue in db.queues && Exec(db, e).Ok?
    then Taken(g, db.jobs, db.queues[g.queue], e.stmt.specs, e.at) else []
  }

  /** The slots of all throttled sends a run accepts for the gate, in order. */
  ghost function Accepted(g: Gate, db: Db, clock: Time, events: seq<Event>): seq<int>
    requires Run(db, clock, events)
    decreases |events|
  {
    if events == [] then [] else
    TakenBy(g, db, events[0]) + Accepted(g, After(db, events[0]), events[0].at, events[1..])
  }

  ghost predicate Respectful(g: Gate, db: Db, clock: Time, events: seq<Event>)
    requires Run(db, clock, events)
    decreases |events|
  {
    events == [] || (Respects(g, db, events[0]) && Respectful(g, After(db, events[0]), events[0].at, events[1..]))
  }

  ghost predicate Gatekept(g: Gate, db: Db, slots: seq<int>, clock: Time) {
    Distinct(slots) && Held(g, db.jobs, slots, clock) && AllCovered(g, db.jobs, clock)
  }

  lemma InsertElsewhereKeepsGate(g: Gate, db: Db, e: Event, slots: seq<int>, clock: Time)
    requires Legal(db, e) && clock <= e.at && Gatekept(g, db, slots, clock)
    requires e.stmt.InsertJobs? && Exec(db, e).Ok? && e.stmt.queue != g.queue
    ensures Gatekept(g, After(db, e), slots, e.at)
  {
    var after, queue := After(db, e).jobs, e.stmt.queue;
    if queue !in db.queues {
      assert after == db.jobs;
    } else {
      InsertIsAccept(db, e);
      AcceptExtends(db.jobs, queue, db.queues[queue], e.stmt.specs, e.at);
      OtherQueuesDoNotMatter(g, db.jobs, after, slots, e.at);
    }
  }

  lemma InsertKeepsGate(g: Gate, db: Db, e: Event, slots: seq<int>, clock: Time)
    requires ValidGate(g) && Legal(db, e) && clock <= e.at && Gatekept(g, db, slots, clock) && Respects(g, db, e)
    requires e.stmt.InsertJobs? && Exec(db, e).Ok?
    ensures Gatekept(g, After(db, e), slots + TakenBy(g, db, e), e.at)
  {
    if e.stmt.queue != g.queue {
      assert slots + [] == slots;
      InsertElsewhereKeepsGate(g, db, e, slots, clock);
    } else if g.queue !in db.queues {
      assert After(db, e).jobs == db.jobs && slots + [] == slots;
    } else {
      InsertIsAccept(db, e);
      InsertTakesFreeSlots(g, db.jobs, db.queues[g.queue], e.stmt.specs, slots, e.at);
    }
  }

  lemma OtherQueuesDoNotMatter(g: Gate, jobs: Jobs, table: Jobs, slots: seq<int>, now: Time)
    requires Held(g, jobs, slots, now) && AllCovered(g, jobs, now)
    requires forall k | k in jobs :: k in table && table[k] == jobs[k]
    requires forall k | k in table && k !in jobs :: k.queue != g.queue
    ensures Held(g, table, slots, now) && AllCovered(g, table, now)
  {
    forall s | s in slots && now < (s + g.seconds) as real ensures exists o :: o in table && Holds(g, o, table[o], s) {
      var o :| o in jobs && Holds(g, o, jobs[o], s);
      assert Holds(g, o, table[o], s);
    }
  }

  lemma StepKeepsGate(g: Gate, db: Db, e: Event, slots: seq<int>, clock: Time)
    requires ValidGate(g) && Legal(db, e) && clock <= e.at && Gatekept(g, db, slots, clock) && Respects(g, db, e)
    ensures Gatekept(g, After(db, e), slots + TakenBy(g, db, e), e.at)
  {
    if e.stmt.InsertJobs? && Exec(db, e).Ok? {
      InsertKeepsGate(g, db, e, slots, clock);
    } else {
      assert slots + [] == slots;
      if Exec(db, e).Ok? {
        PlanIsSound(db, e);
        var d := Plan(db, e).value;
        if d.Update? {
          UpdateKeepsGate(g, db, d, slots, clock, e.at);
        } else if d.Delete? {
          DeleteKeepsGate(g, db, e, slots, clock);
        } else {
          assert After(db, e).jobs == db.jobs;
        }
      }
    }
  }

  lemma {:induction false} RunKeepsGate(g: Gate, db: Db, clock: Time, events: seq<Event>, slots: seq<int>)
    requires ValidGate(g) && Run(db, clock, events) && Respectful(g, db, clock, events) && Gatekept(g, db, slots, clock)
    ensures Distinct(slots + Accepted(g, db, clock, events))
    decreases |events|
  {
    if events == [] {
      assert slots + Accepted(g, db, clock, events) == slots;
    } else {
      var mine := TakenBy(g, db, events[0]);
      StepKeepsGate(g, db, events[0], slots, clock);
      RunKeepsGate(g, After(db, events[0]), events[0].at, events[1..], slots + mine);
      Regroup(slots, mine, Accepted(g, After(db, events[0]), events[0].at, events[1..]));
    }
  }

  /** At most one send is ever accepted for each slot: sweeps included, if windows cover the slot and nobody removes
      the gate's rows by hand. The run may start from any tables whose rows of the gate are covered. */
  lemma OneJobPerSlotEver(g: Gate, db: Db, clock: Time, events: seq<Event>)
    requires ValidGate(g) && Run(db, clock, events) && Respectful(g, db, clock, events) && AllCovered(g, db.jobs, clock)
    ensures Distinct(Accepted(g, db, clock, events))
  {
    RunKeepsGate(g, db, clock, events, []);
    assert [] + Accepted(g, db, clock, events) == Accepted(g, db, clock, events);
  }

  /** The windows are needed: after a retention sweep a taken slot is open again exactly when its row was too old to
      keep, even if the slot is not over. */
  lemma SlotReopensIff(db: Db, now: Time, holder: Key, slot: int, g: Gate, k: Key, row: Job)
    requires Unique(db.jobs) && holder in db.jobs && Holds(g, holder, db.jobs[holder], slot)
    requires k !in db.jobs && Holds(g, k, row, slot) && PolicyEntry(k, row).None?
    ensures !Conflicts(After(db, Event(now, DeleteOld)).jobs, k, row) <==> TooOld(db.jobs[holder], now)
  {
    FewerRowsStayUnique(db.jobs, OldRows(db.jobs, now));
    var after := After(db, Event(now, DeleteOld)).jobs;
    assert after == db.jobs - OldRows(db.jobs, now);
    forall o | o in after && o != holder ensures !Clash(k, row, o, after[o]) {
      assert !Clash(holder, db.jobs[holder], o, db.jobs[o]);
    }
    if holder in after { assert Clash(k, row, holder, after[holder]); }
  }

  // ---- every taken slot is on record ----

  /** Every row of the gate has a slot among these. */
  ghost predicate Recorded(g: Gate, jobs: Jobs, slots: seq<int>) {
    forall k | k in jobs && Gated(g, k, jobs[k]) :: jobs[k].singletonOn.value in slots
  }

  lemma {:induction false} TakenIsRecorded(g: Gate, jobs: Jobs, q: Queue, specs: seq<Spec>, slots: seq<int>, now: Time)
    requires Accept(jobs, g.queue, q, specs, now).Ok? && Recorded(g, jobs, slots)
    ensures Recorded(g, Accept(jobs, g.queue, q, specs, now).value, slots + Taken(g, jobs, q, specs, now))
    decreases |specs|
  {
    if specs == [] {
      assert slots + Taken(g, jobs, q, specs, now) == slots;
    } else {
      var k, row := Key(g.queue, specs[0].id), NewRow(specs[0], q, now);
      if Conflicts(jobs, k, row) {
        TakenIsRecorded(g, jobs, q, specs[1..], slots, now);
      } else {
        var mine := if Gated(g, k, row) then [row.singletonOn.value] else [];
        TakenIsRecorded(g, jobs[k := row], q, specs[1..], slots + mine, now);
        Regroup(slots, mine, Taken(g, jobs[k := row], q, specs[1..], now));
      }
    }
  }

  lemma UpdateIsRecorded(g: Gate, db: Db, d: Delta, slots: seq<int>, now: Time)
    requires Recorded(g, db.jobs, slots) && Sound(db, d, now) && (d.Update? || d.Delete? || d.Register?)
    ensures Recorded(g, Patch(db, d, now).jobs, slots)
  {
    var after := Patch(db, d, now).jobs;
    forall k | k in after && Gated(g, k, after[k]) ensures after[k].singletonOn.value in slots {
      if d.Update? && k !in d.copies { ColumnsKept(d.change, k, db.jobs[k], now); }
    }
  }

  /** No statement gives a row a slot but an insert, and that one is counted. */
  lemma StepIsRecorded(g: Gate, db: Db, e: Event, slots: seq<int>)
    requires Legal(db, e) && Unique(db.jobs) && Recorded(g, db.jobs, slots)
    ensures Recorded(g, After(db, e).jobs, slots + TakenBy(g, db, e))
  {
    if Exec(db, e).Ok? && e.stmt.InsertJobs? && e.stmt.queue in db.queues {
      InsertIsAccept(db, e);
      if e.stmt.queue == g.queue {
        TakenIsRecorded(g, db.jobs, db.queues[g.queue], e.stmt.specs, slots, e.at);
      } else {
        AcceptExtends(db.jobs, e.stmt.queue, db.queues[e.stmt.queue], e.stmt.specs, e.at);
      }
    } else if Exec(db, e).Ok? {
      PlanIsSound(db, e);
      var d := Plan(db, e).value;
      if d.Insert? { assert d.rows == map[]; } else { UpdateIsRecorded(g, db, d, slots, e.at); }
    }
  }

  // ---- how many ----

  /** The slots a send made now can take. */
  predicate NearSlot(g: Gate, slot: int, now: Time)
    requires g.seconds >= 1
  {
    slot == Slot(now, g.seconds, 0) || (g.span > g.seconds && slot == Slot(now, g.seconds, 0) + g.seconds)
  }

  lemma {:induction false} TakenInTheirSlot(g: Gate, jobs: Jobs, q: Queue, specs: seq<Spec>, now: Time)
    requires ValidGate(g) && Accept(jobs, g.queue, q, specs, now).Ok?
    requires forall s | s in specs :: Fits(g, s, q, now)
    ensures forall s | s in Taken(g, jobs, q, specs, now) :: NearSlot(g, s, now)
    decreases |specs|
  {
    if specs != [] {
      var k, row := Key(g.queue, specs[0].id), NewRow(specs[0], q, now);
      TakenInTheirSlot(g, if Conflicts(jobs, k, row) then jobs else jobs[k := row], q, specs[1..], now);
      if Gated(g, k, row) {
        assert Fits(g, specs[0], q, now);
        SlotWithOffset(now, g.seconds, specs[0].singletonOffset.Or(0));
      }
    }
  }

  lemma SlotsAdvance(a: Time, b: Time, seconds: int)
    requires seconds >= 1 && a <= b
    ensures (a / seconds as real).Floor <= (b / seconds as real).Floor
  {
    assert a / seconds as real <= b / seconds as real;
  }

  /** The multiples of `seconds` numbered lo to hi. */
  function Multiples(lo: int, hi: int, seconds: int): set<int> {
    set i | lo <= i <= hi :: seconds * i
  }

  lemma {:induction false} FewMultiples(lo: int, hi: int, seconds: int)
    requires lo <= hi + 1 && seconds >= 1
    ensures |Multiples(lo, hi, seconds)| <= hi - lo + 1
    decreases hi - lo
  {
    if lo == hi + 1 {
      assert Multiples(lo, hi, seconds) == {};
    } else {
      FewMultiples(lo, hi - 1, seconds);
      assert Multiples(lo, hi, seconds) == Multiples(lo, hi - 1, seconds) + {seconds * hi};
    }
  }

  lemma {:induction false} DistinctFitIn(slots: seq<int>, all: set<int>)
    requires Distinct(slots) && forall s | s in slots :: s in all
    ensures |slots| <= |all|
  {
    if slots != [] {
      var last := |slots| - 1;
      var x := slots[last];
      assert x in slots && x in all;
      var rest := all - {x};
      forall s | s in slots[..last] ensures s in rest {
        assert s in slots && s != x;
      }
      DistinctFitIn(slots[..last], rest);
    }
  }

  /** How many slots past its own a send of the gate can take. */
  function Reach(g: Gate): nat { if g.span > g.seconds then 1 else 0 }

  lemma NearIsMultiple(g: Gate, slot: int, now: Time, lo: int, hi: int)
    requires ValidGate(g) && NearSlot(g, slot, now) && lo <= (now / g.seconds as real).Floor <= hi
    ensures slot in Multiples(lo, hi + Reach(g), g.seconds)
  {
    var n := (now / g.seconds as real).Floor;
    assert now + 0 as real == now;
    assert g.seconds * (n + 1) == g.seconds * n + g.seconds;
  }

  lemma {:induction false} AcceptedInWindow(g: Gate, db: Db, clock: Time, events: seq<Event>, until: Time)
    requires ValidGate(g) && Run(db, clock, events) && Respectful(g, db, clock, events)
    requires clock <= until && forall e | e in events :: e.at <= until
    ensures forall s | s in Accepted(g, db, clock, events) ::
              s in Multiples((clock / g.seconds as real).Floor, (until / g.seconds as real).Floor + Reach(g), g.seconds)
    decreases |events|
  {
    if events != [] {
      var e := events[0];
      assert e in events;
      SlotsAdvance(clock, e.at, g.seconds);
      SlotsAdvance(e.at, until, g.seconds);
      AcceptedInWindow(g, After(db, e), e.at, events[1..], until);
      if TakenBy(g, db, e) != [] {
        TakenInTheirSlot(g, db.jobs, db.queues[g.queue], e.stmt.specs, e.at);
        forall s | s in TakenBy(g, db, e)
          ensures s in Multiples((clock / g.seconds as real).Floor,
                                 (until / g.seconds as real).Floor + Reach(g), g.seconds)
        {
          NearIsMultiple(g, s, e.at, (clock / g.seconds as real).Floor, (until / g.seconds as real).Floor);
        }
      }
    }
  }

  /** A run from time t1 until t2 accepts at most floor(t2/S) - floor(t1/S) + 1 throttled sends, and one more where
      sends may also be made for the next slot. */
  lemma AtMostOnePerSlotCounted(g: Gate, db: Db, clock: Time, events: seq<Event>, until: Time)
    requires ValidGate(g) && Run(db, clock, events) && Respectful(g, db, clock, events)
    requires AllCovered(g, db.jobs, clock) && clock <= until && forall e | e in events :: e.at <= until
    ensures |Accepted(g, db, clock, events)|
            <= (until / g.seconds as real).Floor - (clock / g.seconds as real).Floor + 1 + Reach(g)
  {
    var lo, hi := (clock / g.seconds as real).Floor, (until / g.seconds as real).Floor + Reach(g);
    OneJobPerSlotEver(g, db, clock, events);
    AcceptedInWindow(g, db, clock, events, until);
    SlotsAdvance(clock, until, g.seconds);
    DistinctFitIn(Accepted(g, db, clock, events), Multiples(lo, hi, g.seconds));
    FewMultiples(lo, hi, g.seconds);
  }
}
