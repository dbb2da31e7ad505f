/** The cron clock: which ticks win, which occurrences a winning tick finds due, and how often each is enqueued. */
module Cron {
  import opened Options
  import opened Schema
  import opened Statements
  import opened Sending
  import opened Throttle

  // ---- the debounced tick ----

  const WEEK := 604800.0

  /** The WHERE clause of try_set_cron_time. */
  predicate Wins(cronOn: Option<Time>, now: Time, interval: real) {
    now - cronOn.Or(now - WEEK) > interval
  }

  /** The winning ones among the ticks of all nodes, each of which moves cron_on to its own time. */
  function Winners(cronOn: Option<Time>, ticks: seq<Time>, interval: real): seq<Time>
    decreases |ticks|
  {
    if ticks == [] then []
    else if Wins(cronOn, ticks[0], interval) then [ticks[0]] + Winners(Some(ticks[0]), ticks[1..], interval)
    else Winners(cronOn, ticks[1..], interval)
  }

  /** Winning ticks are strictly more than the interval apart, and the first is so from the last win before. */
  lemma {:induction false} WinnersAreSpaced(cronOn: Option<Time>, ticks: seq<Time>, interval: real)
    ensures var wins := Winners(cronOn, ticks, interval);
            && (cronOn.Some? && wins != [] ==> wins[0] - cronOn.value > interval)
            && forall i | 0 < i < |wins| :: wins[i] - wins[i - 1] > interval
    decreases |ticks|
  {
    if ticks != [] {
      if Wins(cronOn, ticks[0], interval) {
        var rest := Winners(Some(ticks[0]), ticks[1..], interval);
        WinnersAreSpaced(Some(ticks[0]), ticks[1..], interval);
        assert Winners(cronOn, ticks, interval) == [ticks[0]] + rest;
      } else {
        WinnersAreSpaced(cronOn, ticks[1..], interval);
        assert Winners(cronOn, ticks, interval) == Winners(cronOn, ticks[1..], interval);
      }
    }
  }

  /** The clock can start exactly when the interval is under a week: a fresh cron_on counts as one week old. */
  lemma {:induction false} ClockStartsIff(ticks: seq<Time>, interval: real)
    ensures Winners(None, ticks, interval) != [] <==> ticks != [] && interval < (7 * 24 * 60 * 60) as real
    decreases |ticks|
  {
    if ticks != [] { ClockStartsIff(ticks[1..], interval); }
  }

  /** Ticks of all nodes in order, none later than `period` after the one before; `last` is the one before them. */
  predicate Steady(last: Time, ticks: seq<Time>, period: real)
    decreases |ticks|
  {
    ticks == [] || (last <= ticks[0] <= last + period && Steady(ticks[0], ticks[1..], period))
  }

  /** A steady clock is debounced by no more than it must be: wins are at most the interval and one period apart, and
      the last tick is never more than the interval after the last win. */
  lemma {:induction false} WinsAreFrequent(win: Time, last: Time, ticks: seq<Time>, interval: real, period: real)
    requires win <= last <= win + interval && Steady(last, ticks, period)
    ensures var wins := [win] + Winners(Some(win), ticks, interval);
            && (forall i | 0 < i < |wins| :: wins[i] - wins[i - 1] <= interval + period)
            && (ticks != [] ==> ticks[|ticks| - 1] - wins[|wins| - 1] <= interval)
    decreases |ticks|
  {
    if ticks != [] {
      var won := Wins(Some(win), ticks[0], interval);
      WinsAreFrequent(if won then ticks[0] else win, ticks[0], ticks[1..], interval, period);
      var rest := Winners(Some(ticks[0]), ticks[1..], interval);
      assert won ==> Winners(Some(win), ticks, interval) == [ticks[0]] + rest;
    }
  }

  // ---- what is due ----

  /** The times a cron expression fires, in seconds since the epoch. */
  type Occurrences = iset<int>

  ghost predicate MinuteAligned(occurrences: Occurrences) {
    forall o | o in occurrences :: o % 60 == 0
  }

  /** The contract of croniter's get_prev: the last occurrence strictly before now. */
  ghost predicate IsPrevious(occurrences: Occurrences, now: Time, p: int) {
    && p in occurrences && p as real < now
    && forall o | o in occurrences && o as real < now :: o <= p
  }

  /** `_should_send`, given the previous occurrence. */
  predicate Due(now: Time, previous: int) {
    now - previous as real < 60.0
  }

  /** A tick finds an occurrence exactly when it falls strictly inside the minute after it. */
  lemma FoundIff(occurrences: Occurrences, now: Time, o: int)
    requires MinuteAligned(occurrences) && o in occurrences
    ensures IsPrevious(occurrences, now, o) && Due(now, o) <==> o as real < now < (o + 60) as real
  {
  }

  ghost predicate FoundAt(o: int, now: Time) { o as real < now < (o + 60) as real }

  /** A send has the slot of an occurrence exactly when it reaches the table within the minute after it. */
  lemma SlotIsOccurrenceIff(now: Time, p: int)
    requires p % 60 == 0
    ensures Slot(now, 60, 0) == p <==> p as real <= now < (p + 60) as real
  {
    SlotWindow(now, 60, 0);
    var n := (now / 60.0).Floor;
    assert Slot(now, 60, 0) == 60 * n;
    assert p == 60 * (p / 60);
  }

  /** Whenever a schedule is due, the throttle slot of that moment is its occurrence. */
  lemma DueSlotIsOccurrence(occurrences: Occurrences, now: Time, p: int)
    requires MinuteAligned(occurrences) && IsPrevious(occurrences, now, p) && Due(now, p)
    ensures Slot(now, 60, 0) == p
  {
    SlotIsOccurrenceIff(now, p);
  }

  ghost predicate Ascending(wins: seq<Time>) {
    forall i, j | 0 <= i < j < |wins| :: wins[i] < wins[j]
  }

  /** The last winning tick that is not after the occurrence. */
  lemma {:induction false} LastNotAfter(wins: seq<Time>, o: int) returns (i: nat)
    requires |wins| >= 2 && wins[0] <= o as real < wins[|wins| - 1] && Ascending(wins)
    ensures i + 1 < |wins| && wins[i] <= o as real < wins[i + 1]
    decreases |wins|
  {
    var n := |wins|;
    if wins[n - 2] <= o as real {
      i := n - 2;
    } else {
      i := LastNotAfter(wins[..n - 1], o);
    }
  }

  /** An occurrence between the first and the last win is missed exactly when two consecutive wins step over the
      whole minute that follows it. */
  lemma MissedIff(wins: seq<Time>, o: int)
    requires |wins| >= 2 && Ascending(wins) && wins[0] <= o as real < wins[|wins| - 1]
    ensures (forall w | w in wins :: !FoundAt(o, w)) <==>
            exists i | 0 <= i < |wins| - 1 :: wins[i] <= o as real && (o + 60) as real <= wins[i + 1]
  {
    var i := LastNotAfter(wins, o);
    if (o + 60) as real <= wins[i + 1] {
      forall w | w in wins ensures !FoundAt(o, w) {
        var j :| 0 <= j < |wins| && wins[j] == w;
        assert j <= i ==> wins[j] <= wins[i];
        assert j > i ==> wins[j] >= wins[i + 1];
      }
    } else {
      assert wins[i + 1] in wins && FoundAt(o, wins[i + 1]);
      forall j | 0 <= j < |wins| - 1 && wins[j] <= o as real ensures wins[j + 1] < (o + 60) as real {
        assert j <= i;
        assert wins[j + 1] <= wins[i + 1];
      }
    }
  }

  /** While consecutive wins are less than a minute apart, every occurrence between two wins is found due. */
  lemma Coverage(occurrences: Occurrences, wins: seq<Time>, o: int) returns (i: nat)
    requires MinuteAligned(occurrences) && o in occurrences
    requires |wins| >= 2 && Ascending(wins) && wins[0] <= o as real < wins[|wins| - 1]
    requires forall j | 0 < j < |wins| :: wins[j] - wins[j - 1] < 60.0
    ensures i < |wins| && IsPrevious(occurrences, wins[i], o) && Due(wins[i], o)
  {
    i := LastNotAfter(wins, o);
    i := i + 1;
    FoundIff(occurrences, wins[i], o);
  }

  /** So the configuration that misses nothing is an interval and a tick period of less than a minute together: every
      occurrence between the first win and the last is found due by a winning tick. */
  lemma SteadyTicksMissNothing(occurrences: Occurrences, win: Time, ticks: seq<Time>, interval: real,
                               period: real, o: int)
      returns (i: nat)
    requires MinuteAligned(occurrences) && o in occurrences
    requires Steady(win, ticks, period) && 0.0 <= interval && interval + period < 60.0
    requires var wins := [win] + Winners(Some(win), ticks, interval); win <= o as real < wins[|wins| - 1]
    ensures var wins := [win] + Winners(Some(win), ticks, interval);
            i < |wins| && IsPrevious(occurrences, wins[i], o) && Due(wins[i], o)
  {
    var wins := [win] + Winners(Some(win), ticks, interval);
    WinsAreFrequent(win, win, ticks, interval, period);
    WinnersAreSpaced(Some(win), ticks, interval);
    assert forall j | 0 < j < |wins| :: wins[j] - wins[j - 1] > interval;
    SpacedAscend(wins);
    i := Coverage(occurrences, wins, o);
  }

  lemma {:induction false} SpacedAscend(wins: seq<Time>)
    requires forall j | 0 < j < |wins| :: wins[j - 1] < wins[j]
    ensures Ascending(wins)
    decreases |wins|
  {
    if wins != [] {
      var n := |wins| - 1;
      SpacedAscend(wins[..n]);
      if n > 0 { assert wins[n - 1] < wins[n]; }
    }
  }

  /** The default interval of 60 seconds cannot give that: a minute can be stepped over. */
  lemma DefaultIntervalCanMiss(occurrences: Occurrences)
    requires MinuteAligned(occurrences) && 60 in occurrences
    ensures var ticks := [59.5, 120.5];
            && Winners(None, ticks, 60.0) == ticks
            && forall w | w in ticks :: !(IsPrevious(occurrences, w, 60) && Due(w, 60))
  {
    var ticks := [59.5, 120.5];
    assert ticks[1..] == [120.5];
    assert Winners(Some(59.5), [120.5], 60.0) == [120.5];
    FoundIff(occurrences, 59.5, 60);
    FoundIff(occurrences, 120.5, 60);
  }

  // ---- the send-it queue ----

  const SEND_IT := "__underboss__send-it"

  /** The singleton key of a schedule's send-it jobs. */
  function ScheduleKey(name: string, key: string): string { name + "__" + key }

  /** Two names have keys under which their schedules share a throttle key exactly when one name with the separator
      behind it begins with the other; schedules of one name are always told apart by their keys. */
  lemma ScheduleKeysCollideIff(n1: string, n2: string)
    ensures n1 != n2 ==>
              ((exists k1, k2 :: ScheduleKey(n1, k1) == ScheduleKey(n2, k2))
               <==> n1 + "__" <= n2 + "__" || n2 + "__" <= n1 + "__")
    ensures forall k1, k2 :: ScheduleKey(n1, k1) == ScheduleKey(n1, k2) ==> k1 == k2
  {
    if n1 + "__" <= n2 + "__" {
      Prefixed(n1, n2);
    } else if n2 + "__" <= n1 + "__" {
      Prefixed(n2, n1);
    } else if k1, k2 :| ScheduleKey(n1, k1) == ScheduleKey(n2, k2) {
      OneBeginsWithTheOther(n1 + "__", k1, n2 + "__", k2);
      assert false;
    }
    forall k1, k2 | ScheduleKey(n1, k1) == ScheduleKey(n1, k2) ensures k1 == k2 {
      assert ScheduleKey(n1, k1)[|n1| + 2..] == k1 && ScheduleKey(n1, k2)[|n1| + 2..] == k2;
    }
  }

  lemma Prefixed(n1: string, n2: string)
    requires n1 + "__" <= n2 + "__"
    ensures exists k1, k2 :: ScheduleKey(n1, k1) == ScheduleKey(n2, k2)
  {
    var k1 := (n2 + "__")[|n1| + 2..];
    assert ScheduleKey(n1, k1) == ScheduleKey(n2, "");
  }

  lemma OneBeginsWithTheOther(a: string, x: string, b: string, y: string)
    requires a + x == b + y
    ensures a <= b || b <= a
  {
    assert if |a| <= |b| then a == (a + x)[..|a|] == (b + y)[..|a|] else b == (b + y)[..|b|] == (a + x)[..|b|];
  }

  /** For instance. */
  lemma ScheduleKeysCanCollide()
    ensures ScheduleKey("a", "b__c") == ScheduleKey("a__b", "c")
  {
  }

  /** The send that `_enqueue_due` makes for a due schedule. */
  function SendItSpec(id: Id, name: string, key: string, data: Payload): Spec {
    JobPayload(id, data, DEFAULTS.(singletonKey := Some(ScheduleKey(name, key)), singletonSeconds := Some(60)))
  }

  function CronGate(name: string, key: string): Gate { Gate(SEND_IT, ScheduleKey(name, key), 60, 60) }

  /** A send-it job of the schedule only ever reaches the table within the minute after an occurrence. */
  ghost predicate SentWhenDue(occurrences: Occurrences, name: string, key: string, e: Event) {
    e.stmt.InsertJobs? && e.stmt.queue == SEND_IT &&
    (exists s | s in e.stmt.specs :: s.singletonSeconds.Some? && s.singletonKey.Or("") == ScheduleKey(name, key)) ==>
      exists p :: p in occurrences && FoundAt(p, e.at)
  }

  /** The send-it queue as the scheduler creates it lets every one of its sends fit the gate. */
  lemma SendItFits(id: Id, name: string, key: string, data: Payload, name': string, key': string, now: Time)
    ensures Fits(CronGate(name', key'), SendItSpec(id, name, key, data), QueueWith(Standard), now)
  {
  }

  lemma TakenHasSource(g: Gate, jobs: Jobs, q: Queue, specs: seq<Spec>, now: Time)
    requires Accept(jobs, g.queue, q, specs, now).Ok? && Taken(g, jobs, q, specs, now) != []
    ensures exists s | s in specs :: s.singletonSeconds.Some? && s.singletonKey.Or("") == g.key
    decreases |specs|
  {
    var k, row := Key(g.queue, specs[0].id), NewRow(specs[0], q, now);
    if !Conflicts(jobs, k, row) && Gated(g, k, row) {
      assert specs[0] in specs;
    } else {
      TakenHasSource(g, if Conflicts(jobs, k, row) then jobs else jobs[k := row], q, specs[1..], now);
    }
  }

  lemma {:induction false} AcceptedAreOccurrences(occurrences: Occurrences, name: string, key: string,
                                                  db: Db, clock: Time, events: seq<Event>)
    requires MinuteAligned(occurrences) && Run(db, clock, events)
    requires Respectful(CronGate(name, key), db, clock, events)
    requires forall e | e in events :: SentWhenDue(occurrences, name, key, e)
    ensures forall s | s in Accepted(CronGate(name, key), db, clock, events) :: s in occurrences
    decreases |events|
  {
    if events != [] {
      var e, g := events[0], CronGate(name, key);
      assert e in events;
      AcceptedAreOccurrences(occurrences, name, key, After(db, e), e.at, events[1..]);
      if TakenBy(g, db, e) != [] {
        TakenHasSource(g, db.jobs, db.queues[g.queue], e.stmt.specs, e.at);
        TakenInTheirSlot(g, db.jobs, db.queues[g.queue], e.stmt.specs, e.at);
        var p :| p in occurrences && FoundAt(p, e.at);
        SlotIsOccurrenceIff(e.at, p);
      }
    }
  }

  /** Ticks of any number of nodes in any order: the accepted send-it jobs of a schedule are one for each of some of
      its occurrences, never two for the same. */
  lemma OncePerOccurrence(occurrences: Occurrences, name: string, key: string, db: Db, clock: Time, events: seq<Event>)
    requires MinuteAligned(occurrences) && Run(db, clock, events)
    requires Respectful(CronGate(name, key), db, clock, events) && AllCovered(CronGate(name, key), db.jobs, clock)
    requires forall e | e in events :: SentWhenDue(occurrences, name, key, e)
    ensures Distinct(Accepted(CronGate(name, key), db, clock, events))
    ensures forall s | s in Accepted(CronGate(name, key), db, clock, events) :: s in occurrences
  {
    OneJobPerSlotEver(CronGate(name, key), db, clock, events);
    AcceptedAreOccurrences(occurrences, name, key, db, clock, events);
  }
}
