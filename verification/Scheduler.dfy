/** The scheduler's tick: one node wins it and enqueues a send-it job for every schedule that is due. */
module Scheduler {
  import opened Options
  import opened Schema
  import opened Claiming
  import opened Statements
  import opened Effects
  import opened Indexes
  import opened Sending
  import Columns
  import opened Store
  import opened Throttle
  import opened Cron

  /** A row of the schedule table, with the occurrence croniter finds before the tick and the UUID drawn for its send.
      The occurrence is None if finding it raises: a schedule is stored with any time zone, known or not. */
  datatype Schedule = Schedule(name: string, key: string, envelope: Payload, previous: Option<int>, id: Id)

  /** The send a schedule causes. */
  function SendOf(s: Schedule, now: Time): Event {
    Event(now, InsertJobs(SEND_IT, [SendItSpec(s.id, s.name, s.key, s.envelope)]))
  }

  predicate Raises(schedules: seq<Schedule>) { exists s :: s in schedules && s.previous.None? }

  /** The sends of one winning tick, up to the first schedule that raises. */
  function Sends(schedules: seq<Schedule>, now: Time): seq<Event> {
    if schedules == [] then [] else
    var n := |schedules| - 1;
    var s := schedules[n];
    Sends(schedules[..n], now) +
    if !Raises(schedules[..n]) && s.previous.Some? && Due(now, s.previous.value) then [SendOf(s, now)] else []
  }

  /** One schedule whose time zone is unknown silences all that sort behind it. */
  lemma {:induction false} SendsStopAtError(schedules: seq<Schedule>, now: Time, j: nat)
    requires j < |schedules| && schedules[j].previous.None?
    ensures Raises(schedules) && Sends(schedules, now) == Sends(schedules[..j], now)
    decreases |schedules|
  {
    var n := |schedules| - 1;
    assert schedules[j] in schedules;
    if j < n {
      SendsStopAtError(schedules[..n], now, j);
      assert schedules[..n][..j] == schedules[..j];
    } else {
      assert Sends(schedules, now) == Sends(schedules[..n], now) + [];
    }
  }

  /** And every due schedule before the first such one is sent for. */
  lemma {:induction false} DueIsSent(schedules: seq<Schedule>, now: Time, i: nat)
    requires i < |schedules| && !Raises(schedules[..i + 1]) && Due(now, schedules[i].previous.Or(0))
    ensures SendOf(schedules[i], now) in Sends(schedules, now)
    decreases |schedules|
  {
    var n := |schedules| - 1;
    assert schedules[i] in schedules[..i + 1];
    if i < n {
      assert schedules[..n][..i + 1] == schedules[..i + 1];
      DueIsSent(schedules[..n], now, i);
    } else {
      assert schedules[..n + 1] == schedules;
      assert forall s | s in schedules[..n] :: s in schedules;
    }
  }

  // ---- whole runs of ticks ----

  /** When each schedule fires. */
  type Calendar = (string, string) -> Occurrences

  /** croniter has told a tick the previous occurrence of every schedule. */
  ghost predicate Told(calendar: Calendar, schedules: seq<Schedule>, now: Time) {
    forall s | s in schedules && s.previous.Some? :: IsPrevious(calendar(s.name, s.key), now, s.previous.value)
  }

  /** One of the statements of a tick that some node makes from what it was told. */
  ghost predicate OfTick(calendar: Calendar, e: Event) {
    exists schedules :: Told(calendar, schedules, e.at) && e in Sends(schedules, e.at)
  }

  /** A statement of anybody else: the send-it queue is the one the scheduler creates, nobody else sends to it, and
      nobody cancels or deletes its jobs by hand. */
  predicate Bystander(e: Event) {
    match e.stmt
    case CreateQueue(name, q) => name == SEND_IT ==> q == QueueWith(Standard)
    case InsertJobs(queue, _) => queue != SEND_IT
    case CancelJobs(queue, _) => queue != SEND_IT
    case DeleteJobs(queue, _) => queue != SEND_IT
    case _ => true
  }

  /** The occurrences of all schedules with one throttle key: of one schedule, unless names collide. */
  ghost function OccurrencesUnder(calendar: Calendar, key: string): Occurrences {
    iset o: int, n: string, k: string | ScheduleKey(n, k) == key && o in calendar(n, k) :: o
  }

  ghost predicate Aligned(calendar: Calendar) { forall n, k :: MinuteAligned(calendar(n, k)) }

  /** The send-it queue, if it exists, is as the scheduler creates it. */
  predicate AsCreated(db: Db) { SEND_IT in db.queues ==> db.queues[SEND_IT] == QueueWith(Standard) }

  predicate DueNow(s: Schedule, now: Time) { s.previous.Some? && Due(now, s.previous.value) }

  /** Every statement of a tick sends one due schedule. */
  lemma {:induction false} SendsAreDue(schedules: seq<Schedule>, now: Time, e: Event)
    requires e in Sends(schedules, now)
    ensures exists s :: s in schedules && DueNow(s, now) && e == SendOf(s, now)
  {
    if schedules != [] {
      var n := |schedules| - 1;
      if e in Sends(schedules[..n], now) {
        SendsAreDue(schedules[..n], now, e);
        var s :| s in schedules[..n] && DueNow(s, now) && e == SendOf(s, now);
        assert s in schedules;
      } else {
        assert schedules[n] in schedules && e == SendOf(schedules[n], now);
      }
    }
  }

  lemma TickIsInTime(calendar: Calendar, e: Event, name: string, key: string)
    requires OfTick(calendar, e)
    ensures SentWhenDue(OccurrencesUnder(calendar, ScheduleKey(name, key)), name, key, e)
  {
    var schedules: seq<Schedule> :| Told(calendar, schedules, e.at) && e in Sends(schedules, e.at);
    SendsAreDue(schedules, e.at, e);
    var s :| s in schedules && DueNow(s, e.at) && e == SendOf(s, e.at);
    if ScheduleKey(s.name, s.key) == ScheduleKey(name, key) {
      var p := s.previous.value;
      assert p in OccurrencesUnder(calendar, ScheduleKey(name, key)) && FoundAt(p, e.at);
    }
  }

  /** On the send-it queue the scheduler creates, no statement of a tick or a bystander disturbs the gate of any
      schedule, and the queue stays as it is. */
  lemma StepRespectsGate(calendar: Calendar, db: Db, e: Event, name: string, key: string)
    requires Legal(db, e) && AsCreated(db) && (OfTick(calendar, e) || Bystander(e))
    ensures Respects(CronGate(name, key), db, e) && AsCreated(After(db, e))
  {
    if OfTick(calendar, e) {
      var schedules: seq<Schedule> :| Told(calendar, schedules, e.at) && e in Sends(schedules, e.at);
      SendsAreDue(schedules, e.at, e);
      var s :| s in schedules && DueNow(s, e.at) && e == SendOf(s, e.at);
      SendItFits(s.id, s.name, s.key, s.envelope, name, key, e.at);
    }
    if Exec(db, e).Ok? { PlanIsSound(db, e); }
  }

  lemma {:induction false} RunRespectsGate(calendar: Calendar, db: Db, clock: Time, events: seq<Event>,
                                           name: string, key: string)
    requires Run(db, clock, events) && AsCreated(db)
    requires forall e | e in events :: OfTick(calendar, e) || Bystander(e)
    ensures Respectful(CronGate(name, key), db, clock, events)
    decreases |events|
  {
    if events != [] {
      assert events[0] in events;
      StepRespectsGate(calendar, db, events[0], name, key);
      RunRespectsGate(calendar, After(db, events[0]), events[0].at, events[1..], name, key);
    }
  }

  /** From a new installation on, however the ticks of any number of nodes interleave with each other and with
      everything else, statement by statement: at most one send-it job per throttle key is ever accepted for each
      occurrence, and only for occurrences. */
  lemma OncePerOccurrenceEver(calendar: Calendar, clock: Time, events: seq<Event>, name: string, key: string)
    requires Aligned(calendar) && Run(NO_TABLES, clock, events)
    requires forall e | e in events :: OfTick(calendar, e) || Bystander(e)
    ensures var slots := Accepted(CronGate(name, key), NO_TABLES, clock, events);
            Distinct(slots) && forall s | s in slots :: s in OccurrencesUnder(calendar, ScheduleKey(name, key))
  {
    var occurrences := OccurrencesUnder(calendar, ScheduleKey(name, key));
    RunRespectsGate(calendar, NO_TABLES, clock, events, name, key);
    forall e | e in events ensures SentWhenDue(occurrences, name, key, e) {
      if OfTick(calendar, e) { TickIsInTime(calendar, e, name, key); }
    }
    OncePerOccurrence(occurrences, name, key, NO_TABLES, clock, events);
  }

  // ---- when a send is skipped ----

  /** A send to the send-it queue is accepted exactly when no job of its throttle key holds its slot. */
  lemma SendAcceptedIff(db: Db, s: Schedule, now: Time)
    requires Unique(db.jobs) && SEND_IT in db.queues && AsCreated(db) && Key(SEND_IT, s.id) !in db.jobs
    ensures var g, slot := CronGate(s.name, s.key), Slot(now, 60, 0);
            var held := exists o :: o in db.jobs && Holds(g, o, db.jobs[o], slot);
            var k, after := Key(SEND_IT, s.id), After(db, SendOf(s, now));
            && (held ==> after == db)
            && (!held ==> k in after.jobs && Holds(g, k, after.jobs[k], slot)
                          && after == db.(jobs := db.jobs[k := after.jobs[k]]))
  {
    var spec := SendItSpec(s.id, s.name, s.key, s.envelope);
    var g, slot := CronGate(s.name, s.key), Slot(now, 60, 0);
    var k, row := Key(SEND_IT, s.id), NewRow(spec, db.queues[SEND_IT], now);
    assert Holds(g, k, row, slot) && PolicyEntry(k, row).None?;
    if o :| o in db.jobs && Holds(g, o, db.jobs[o], slot) {
      assert Clash(k, row, o, db.jobs[o]);
      SendIsSkipped(db, SEND_IT, spec, now);
    } else {
      SendIsAccepted(db, SEND_IT, spec, now);
    }
  }

  /** The job that an accepted send leaves: the envelope of its schedule, due at once, under the throttle key and in the
      minute of the send. */
  lemma SentJobIsSchedule(db: Db, s: Schedule, now: Time)
    requires Unique(db.jobs) && SEND_IT in db.queues && Key(SEND_IT, s.id) !in db.jobs
    requires Exec(db, SendOf(s, now)).Ok? && Key(SEND_IT, s.id) in After(db, SendOf(s, now)).jobs
    ensures var row := After(db, SendOf(s, now)).jobs[Key(SEND_IT, s.id)];
            && row.data == s.envelope && row.state.Created? && row.startAfter == now && row.priority == 0
            && row.singletonKey == Some(s.name + "__" + s.key)
            && row.singletonOn.Some? && row.singletonOn.value % 60 == 0
            && row.singletonOn.value as real <= now < (row.singletonOn.value + 60) as real
  {
    Columns.InsertStores(db, SendOf(s, now));
  }

  /** What one accepted send takes from another that would have been accepted before it: exactly the sends of its own
      throttle key in its own slot. So a schedule whose name and key collide with it loses its occurrence, and a send
      of the same schedule that arrives a minute late makes a second job for the same occurrence. */
  lemma SecondSendSkippedIff(db: Db, s1: Schedule, t1: Time, s2: Schedule, t2: Time)
    requires Unique(db.jobs) && SEND_IT in db.queues && AsCreated(db) && s1.id != s2.id
    requires Key(SEND_IT, s1.id) !in db.jobs && Key(SEND_IT, s2.id) !in db.jobs
    requires After(db, SendOf(s1, t1)) != db && After(db, SendOf(s2, t2)) != db
    ensures var between := After(db, SendOf(s1, t1));
            After(between, SendOf(s2, t2)) == between
            <==> ScheduleKey(s1.name, s1.key) == ScheduleKey(s2.name, s2.key) && Slot(t1, 60, 0) == Slot(t2, 60, 0)
  {
    var between := After(db, SendOf(s1, t1));
    var k1, k2 := Key(SEND_IT, s1.id), Key(SEND_IT, s2.id);
    SendAcceptedIff(db, s1, t1);
    SendAcceptedIff(db, s2, t2);
    assert Unique(between.jobs);
    SendAcceptedIff(between, s2, t2);
    assert k1 in between.jobs;
    assert forall o | o in between.jobs && o != k1 :: o in db.jobs && between.jobs[o] == db.jobs[o];
  }

  /** Whatever the send-it queue looks like, or if it is missing, the send is accepted or skipped but raises nothing. */
  lemma SendNeverRaises(db: Db, s: Schedule, now: Time)
    requires Consistent(db)
    ensures Exec(db, SendOf(s, now)).Ok?
  {
    var e := SendOf(s, now);
    InsertSkipsConflicts(db, e);
    if SEND_IT in db.queues {
      var q := db.queues[SEND_IT];
      var k, row := Key(SEND_IT, s.id), NewRow(e.stmt.specs[0], q, now);
      assert e.stmt.specs[1..] == [];
      var table := if Conflicts(db.jobs, k, row) then db.jobs else db.jobs[k := row];
      assert Accept(db.jobs, SEND_IT, q, e.stmt.specs, now) == Accept(table, SEND_IT, q, [], now) == Ok(table);
      assert forall o | o in table - db.jobs.Keys :: table[o].deadLetter == q.deadLetter;
    }
  }

  /** A tick of one node and what it finds in the schedule table, or a statement of anybody else. */
  datatype Step = NodeTick(at: Time, schedules: seq<Schedule>) | Elsewhere(e: Event)

  function Times(steps: seq<Step>): seq<Time> {
    if steps == [] then [] else (if steps[0].NodeTick? then [steps[0].at] else []) + Times(steps[1..])
  }

  predicate WinsTick(cronOn: Option<Time>, s: Step, interval: real) { s.NodeTick? && Wins(cronOn, s.at, interval) }

  /** The statements of one step: of ticks only winning ones send. */
  function EventsOf(cronOn: Option<Time>, s: Step, interval: real): seq<Event> {
    if s.Elsewhere? then [s.e] else if WinsTick(cronOn, s, interval) then Sends(s.schedules, s.at) else []
  }

  function ClockAfter(cronOn: Option<Time>, s: Step, interval: real): Option<Time> {
    if WinsTick(cronOn, s, interval) then Some(s.at) else cronOn
  }

  /** The statements of a sequence of steps. */
  function Played(cronOn: Option<Time>, steps: seq<Step>, interval: real): seq<Event>
    decreases |steps|
  {
    if steps == [] then []
    else EventsOf(cronOn, steps[0], interval) + Played(ClockAfter(cronOn, steps[0], interval), steps[1..], interval)
  }

  /** One step more, and its win if it is one. */
  lemma PlayTick(cronOn: Option<Time>, steps: seq<Step>, interval: real)
    requires steps != []
    ensures Winners(cronOn, Times(steps), interval)
            == (if WinsTick(cronOn, steps[0], interval) then [steps[0].at] else [])
               + Winners(ClockAfter(cronOn, steps[0], interval), Times(steps[1..]), interval)
  {
    if steps[0].NodeTick? {
      assert Times(steps)[0] == steps[0].at && Times(steps)[1..] == Times(steps[1..]);
    } else {
      assert Times(steps) == Times(steps[1..]);
    }
  }

  predicate InOrder(clock: Time, ticks: seq<Step>)
    decreases |ticks|
  {
    ticks == [] || (ticks[0].NodeTick? && clock <= ticks[0].at && InOrder(ticks[0].at, ticks[1..]))
  }

  // ---- every occurrence is enqueued, once ----

  /** The send-it queue as `start` leaves it in a new installation. */
  const READY := Db(map[], map[SEND_IT := QueueWith(Standard)])

  /** The schedule is in the table that the tick reads, and no schedule before it raises. */
  ghost predicate Lists(s: Step, name: string, key: string) {
    s.NodeTick? ==> exists i ::
      && 0 <= i < |s.schedules| && s.schedules[i].name == name && s.schedules[i].key == key
      && !Raises(s.schedules[..i + 1])
  }

  /** Every step is a tick that was told the truth and lists the schedule, or a bystander's. */
  ghost predicate Scheduled(calendar: Calendar, steps: seq<Step>, name: string, key: string) {
    forall s | s in steps ::
      && Lists(s, name, key)
      && (s.NodeTick? ==> Told(calendar, s.schedules, s.at))
      && (s.Elsewhere? ==> Bystander(s.e))
  }

  lemma {:induction false} PlayedAreKnown(calendar: Calendar, cronOn: Option<Time>, steps: seq<Step>, interval: real,
                                          name: string, key: string, e: Event)
    requires Scheduled(calendar, steps, name, key) && e in Played(cronOn, steps, interval)
    ensures OfTick(calendar, e) || Bystander(e)
    decreases |steps|
  {
    var s := steps[0];
    assert s in steps;
    if e in EventsOf(cronOn, s, interval) {
      if s.NodeTick? { SendsAreDue(s.schedules, s.at, e); }
    } else {
      PlayedAreKnown(calendar, ClockAfter(cronOn, s, interval), steps[1..], interval, name, key, e);
    }
  }

  lemma TickSends(calendar: Calendar, s: Step, name: string, key: string, o: int) returns (found: Schedule)
    requires s.NodeTick? && Lists(s, name, key) && Told(calendar, s.schedules, s.at)
    requires IsPrevious(calendar(name, key), s.at, o) && Due(s.at, o)
    ensures found.name == name && found.key == key && SendOf(found, s.at) in Sends(s.schedules, s.at)
  {
    var i :| 0 <= i < |s.schedules| && s.schedules[i].name == name && s.schedules[i].key == key
             && !Raises(s.schedules[..i + 1]);
    found := s.schedules[i];
    assert found in s.schedules && found in s.schedules[..i + 1];
    DueIsSent(s.schedules, s.at, i);
  }

  /** A win that finds an occurrence due sends for it. */
  lemma {:induction false} WinnerSends(calendar: Calendar, cronOn: Option<Time>, steps: seq<Step>, interval: real,
                                       name: string, key: string, t: Time, o: int) returns (found: Schedule)
    requires Scheduled(calendar, steps, name, key) && t in Winners(cronOn, Times(steps), interval)
    requires IsPrevious(calendar(name, key), t, o) && Due(t, o)
    ensures found.name == name && found.key == key && SendOf(found, t) in Played(cronOn, steps, interval)
    decreases |steps|
  {
    PlayTick(cronOn, steps, interval);
    var s := steps[0];
    assert s in steps;
    if WinsTick(cronOn, s, interval) && s.at == t {
      found := TickSends(calendar, s, name, key, o);
    } else {
      found := WinnerSends(calendar, ClockAfter(cronOn, s, interval), steps[1..], interval, name, key, t, o);
    }
  }

  /** Every send to the send-it queue draws an unused UUID. */
  ghost predicate DrawsUnused(db: Db, clock: Time, events: seq<Event>)
    requires Run(db, clock, events)
    decreases |events|
  {
    events == [] ||
    ((events[0].stmt.InsertJobs? && events[0].stmt.queue == SEND_IT ==>
        forall s | s in events[0].stmt.specs :: Key(SEND_IT, s.id) !in db.jobs) &&
     DrawsUnused(After(db, events[0]), events[0].at, events[1..]))
  }

  /** After a send its slot is on record: taken now, or before. */
  lemma SendCounts(db: Db, s: Schedule, now: Time, slots: seq<int>)
    requires Unique(db.jobs) && SEND_IT in db.queues && AsCreated(db) && Key(SEND_IT, s.id) !in db.jobs
    requires Recorded(CronGate(s.name, s.key), db.jobs, slots)
    ensures Slot(now, 60, 0) in slots + TakenBy(CronGate(s.name, s.key), db, SendOf(s, now))
  {
    var spec, g, slot := SendItSpec(s.id, s.name, s.key, s.envelope), CronGate(s.name, s.key), Slot(now, 60, 0);
    var k, row := Key(SEND_IT, s.id), NewRow(spec, db.queues[SEND_IT], now);
    if o :| o in db.jobs && Holds(g, o, db.jobs[o], slot) {
      assert Gated(g, o, db.jobs[o]) && db.jobs[o].singletonOn.value == slot;
    } else {
      assert !Conflicts(db.jobs, k, row);
      SendIsAccepted(db, SEND_IT, spec, now);
      assert Taken(g, db.jobs, db.queues[SEND_IT], [spec], now)
          == [slot] + Taken(g, db.jobs[k := row], db.queues[SEND_IT], [], now);
    }
  }

  lemma {:induction false} RunCounts(calendar: Calendar, db: Db, clock: Time, events: seq<Event>, slots: seq<int>,
                                     s: Schedule, t: Time)
    requires Run(db, clock, events) && Consistent(db) && SEND_IT in db.queues && AsCreated(db)
    requires DrawsUnused(db, clock, events) && forall e | e in events :: OfTick(calendar, e) || Bystander(e)
    requires Recorded(CronGate(s.name, s.key), db.jobs, slots) && SendOf(s, t) in events
    ensures Slot(t, 60, 0) in slots + Accepted(CronGate(s.name, s.key), db, clock, events)
    decreases |events|
  {
    var g, e := CronGate(s.name, s.key), events[0];
    var mine := TakenBy(g, db, e);
    assert e in events;
    StepIsRecorded(g, db, e, slots);
    if e == SendOf(s, t) {
      SendCounts(db, s, t, slots);
    } else {
      StepRespectsGate(calendar, db, e, s.name, s.key);
      AfterIsConsistent(db, e);
      QueueStays(db, e);
      RunCounts(calendar, After(db, e), e.at, events[1..], slots + mine, s, t);
    }
    Regroup(slots, mine, Accepted(g, After(db, e), e.at, events[1..]));
  }

  lemma QueueStays(db: Db, e: Event)
    requires Legal(db, e) && SEND_IT in db.queues
    ensures SEND_IT in After(db, e).queues
  {
  }

  lemma FirstTickWins(times: seq<Time>, interval: real)
    requires Winners(None, times, interval) != []
    ensures times != [] && Winners(None, times, interval) == [times[0]] + Winners(Some(times[0]), times[1..], interval)
  {
    ClockStartsIff(times, interval);
  }

  /** Some win finds the occurrence due and sends for it, in its slot. */
  lemma FoundByAWin(calendar: Calendar, steps: seq<Step>, interval: real, period: real,
                    name: string, key: string, o: int)
    returns (found: Schedule, t: Time)
    requires Aligned(calendar) && Scheduled(calendar, steps, name, key) && o in calendar(name, key)
    requires 0.0 <= interval && interval + period < 60.0
    requires Times(steps) != [] && Steady(Times(steps)[0], Times(steps)[1..], period)
    requires var wins := Winners(None, Times(steps), interval); wins != [] && wins[0] <= o as real < wins[|wins| - 1]
    ensures found.name == name && found.key == key && SendOf(found, t) in Played(None, steps, interval)
    ensures Slot(t, 60, 0) == o
  {
    var times := Times(steps);
    FirstTickWins(times, interval);
    var i := SteadyTicksMissNothing(calendar(name, key), times[0], times[1..], interval, period, o);
    t := Winners(None, times, interval)[i];
    found := WinnerSends(calendar, None, steps, interval, name, key, t, o);
    DueSlotIsOccurrence(calendar(name, key), t, o);
  }

  /** From a new installation, with an interval and a tick period of less than a minute together: every occurrence of a
      schedule between the first win and the last gets exactly one accepted send-it job under its throttle key, whatever
      ticks and other statements of any number of nodes come in between. */
  lemma EveryOccurrenceOnce(calendar: Calendar, clock: Time, steps: seq<Step>, interval: real, period: real,
                            name: string, key: string, o: int)
    requires Aligned(calendar) && Scheduled(calendar, steps, name, key) && o in calendar(name, key)
    requires 0.0 <= interval && interval + period < 60.0
    requires Times(steps) != [] && Steady(Times(steps)[0], Times(steps)[1..], period)
    requires var events := Played(None, steps, interval); Run(READY, clock, events) && DrawsUnused(READY, clock, events)
    requires var wins := Winners(None, Times(steps), interval); wins != [] && wins[0] <= o as real < wins[|wins| - 1]
    ensures var slots := Accepted(CronGate(name, key), READY, clock, Played(None, steps, interval));
            Distinct(slots) && o in slots
  {
    var events := Played(None, steps, interval);
    forall e | e in events ensures OfTick(calendar, e) || Bystander(e) {
      PlayedAreKnown(calendar, None, steps, interval, name, key, e);
    }
    var found, t := FoundByAWin(calendar, steps, interval, period, name, key, o);
    RunRespectsGate(calendar, READY, clock, events, name, key);
    OneJobPerSlotEver(CronGate(name, key), READY, clock, events);
    RunCounts(calendar, READY, clock, events, [], found, t);
    assert [] + Accepted(CronGate(name, key), READY, clock, events)
           == Accepted(CronGate(name, key), READY, clock, events);
  }

  lemma SentNow(schedules: seq<Schedule>, now: Time)
    ensures forall e | e in Sends(schedules, now) :: e.at == now
  {
    forall e | e in Sends(schedules, now) ensures e.at == now { SendsAreDue(schedules, now, e); }
  }

  class Scheduler {
    const tables: Tables
    const tickInterval: real

    constructor (tables: Tables, tickInterval: real)
      ensures this.tables == tables && this.tickInterval == tickInterval
    {
      this.tables, this.tickInterval := tables, tickInterval;
    }

    /** One send for each due schedule, until one raises; no send ever does. */
    method EnqueueDue(now: Time, schedules: seq<Schedule>) returns (raised: bool)
      requires tables.Valid()
      modifies tables`jobs
      ensures tables.Valid() && raised == Raises(schedules)
      ensures Run(old(tables.View()), now, Sends(schedules, now))
      ensures tables.View() == Final(old(tables.View()), now, Sends(schedules, now))
    {
      ghost var before := tables.View();
      for i := 0 to |schedules|
        invariant tables.Valid() && !Raises(schedules[..i])
        invariant Run(before, now, Sends(schedules[..i], now))
        invariant tables.View() == Final(before, now, Sends(schedules[..i], now))
      {
        var s := schedules[i];
        assert schedules[..i + 1][..i] == schedules[..i] && schedules[..i + 1] == schedules[..i] + [s];
        if s.previous.None? {
          SendsStopAtError(schedules, now, i);
          return true;
        }
        if Due(now, s.previous.value) {
          SentNow(schedules[..i], now);
          RunMore(before, now, Sends(schedules[..i], now), SendOf(s, now));
          SendNeverRaises(tables.View(), s, now);
          var ids, error := tables.InsertJobs(now, SEND_IT, [SendItSpec(s.id, s.name, s.key, s.envelope)]);
          assert error.None?;
        } else {
          assert Sends(schedules[..i], now) + [] == Sends(schedules[..i], now);
        }
      }
      assert schedules[..|schedules|] == schedules;
      raised := false;
    }

    method Tick(now: Time, schedules: seq<Schedule>) returns (won: bool, raised: bool)
      requires tables.Valid()
      modifies tables
      ensures tables.Valid() && won == Wins(old(tables.cronOn), now, tickInterval)
      ensures raised == (won && Raises(schedules))
      ensures tables.cronOn == if won then Some(now) else old(tables.cronOn)
      ensures var events := if won then Sends(schedules, now) else [];
              && (forall e | e in events :: e.at == now)
              && Run(old(tables.View()), now, events) && tables.View() == Final(old(tables.View()), now, events)
    {
      raised := false;
      won := tables.TrySetCronTime(now, tickInterval);
      if won {
        raised := EnqueueDue(now, schedules);
        SentNow(schedules, now);
      }
    }

    /** `start` creates the send-it queue unless another node has. */
    method Start(now: Time)
      requires tables.Valid()
      modifies tables`queues
      ensures tables.Valid()
      ensures Executed(old(tables.View()), Event(now, CreateQueue(SEND_IT, QueueWith(Standard))), tables.View(), None)
      ensures SEND_IT in tables.queues
      ensures SEND_IT !in old(tables.queues) ==> AsCreated(tables.View())
    {
      var error := tables.CreateQueue(now, SEND_IT, QueueWith(Standard));
    }

    /** The ticks of all nodes, in the order in which they reach the tables: those that win are exactly the winners of
        the debounced clock, and what they send is a run. A tick that raises is logged and the next one comes. */
    method RunTicks(clock: Time, ticks: seq<Step>) returns (wins: seq<Time>)
      requires tables.Valid() && InOrder(clock, ticks)
      modifies tables
      ensures tables.Valid()
      ensures wins == Winners(old(tables.cronOn), Times(ticks), tickInterval)
      ensures var events := Played(old(tables.cronOn), ticks, tickInterval);
              Run(old(tables.View()), clock, events) && tables.View() == Final(old(tables.View()), clock, events)
    {
      wins := [];
      ghost var before, cron := tables.View(), tables.cronOn;
      ghost var done: seq<Event>, last := [], clock;
      assert ticks[0..] == ticks;
      for i := 0 to |ticks|
        invariant tables.Valid() && clock <= last && InOrder(last, ticks[i..])
        invariant wins + Winners(tables.cronOn, Times(ticks[i..]), tickInterval)
                  == Winners(cron, Times(ticks), tickInterval)
        invariant done + Played(tables.cronOn, ticks[i..], tickInterval) == Played(cron, ticks, tickInterval)
        invariant forall e | e in done :: e.at <= last
        invariant Run(before, clock, done) && tables.View() == Final(before, clock, done)
      {
        ghost var rest, at := ticks[i..], tables.cronOn;
        assert rest[0] == ticks[i] && rest[1..] == ticks[i + 1..];
        PlayTick(at, rest, tickInterval);
        var won, raised := Tick(ticks[i].at, ticks[i].schedules);
        ghost var events := EventsOf(at, ticks[i], tickInterval);
        RunAppend(before, clock, done, ticks[i].at, events);
        Regroup(done, events, Played(tables.cronOn, rest[1..], tickInterval));
        Regroup(wins, if won then [ticks[i].at] else [], Winners(tables.cronOn, Times(rest[1..]), tickInterval));
        done, last := done + events, ticks[i].at;
        if won { wins := wins + [ticks[i].at]; }
        assert !won ==> wins + [] == wins;
      }
      assert done + [] == done && wins + [] == wins;
    }
  }
}
