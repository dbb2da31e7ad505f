/** What the queue policies promise in words, and exactly when the indexes keep it. */
module Policies {
  import opened Options
  import opened Schema
  import opened Backoff
  import opened Claiming
  import opened Statements
  import opened Effects
  import opened Indexes
  import opened Sending
  import opened Holding

  // ---- short: at most one job queued ----

  predicate ShortUnder(k: Key, j: Job, queue: string, key: string) {
    k.queue == queue && j.policy == Some(Short) && KeyText(j) == key
  }

  /** The short jobs of one key in one state. */
  function ShortIn(jobs: Jobs, queue: string, key: string, state: State): set<Key> {
    set k | k in jobs && ShortUnder(k, jobs[k], queue, key) && jobs[k].state == state
  }

  function QueuedShort(jobs: Jobs, queue: string, key: string): set<Key> {
    set k | k in jobs && ShortUnder(k, jobs[k], queue, key) && jobs[k].state.Queued()
  }

  lemma QueuedIsCreatedOrRetry(jobs: Jobs, queue: string, key: string)
    ensures |QueuedShort(jobs, queue, key)| == |ShortIn(jobs, queue, key, Created)| + |ShortIn(jobs, queue, key, Retry)|
  {
    var created, retry := ShortIn(jobs, queue, key, Created), ShortIn(jobs, queue, key, Retry);
    assert QueuedShort(jobs, queue, key) == created + retry && created !! retry;
  }

  /** The index admits one `created` job. */
  lemma OneCreated(jobs: Jobs, queue: string, key: string)
    requires Unique(jobs)
    ensures |ShortIn(jobs, queue, key, Created)| <= 1
  {
    var created := ShortIn(jobs, queue, key, Created);
    if created != {} {
      var k :| k in created;
      assert created == {k};
    }
  }

  /** The statement sends the row back to `retry`: it fails with retries left, or is retried by hand. */
  predicate SentBack(db: Db, e: Event, k: Key)
    requires k in db.jobs
  {
    || ((e.stmt.FailById? || e.stmt.FailExpired?) && k in FailedBy(db, e)
        && db.jobs[k].retryCount < db.jobs[k].retryLimit)
    || (e.stmt.RetryJobs? && k in Matching(db.jobs, e.stmt.queue, e.stmt.ids, Redo, e.at))
  }

  /** A committed statement that makes a short job of the key wait for a retry. */
  ghost predicate Requeues(db: Db, e: Event, queue: string, key: string)
    requires Legal(db, e)
  {
    Exec(db, e).Ok? && exists k :: k in db.jobs && ShortUnder(k, db.jobs[k], queue, key) && SentBack(db, e, k)
  }

  /** Without such a statement nobody starts to wait. */
  lemma WaitingOnlyAfterRequeue(db: Db, e: Event, queue: string, key: string)
    requires Legal(db, e) && !Requeues(db, e, queue, key)
    ensures ShortIn(After(db, e).jobs, queue, key, Retry) <= ShortIn(db.jobs, queue, key, Retry)
  {
    if Exec(db, e).Ok? {
      PlanIsSound(db, e);
      var d, after := Plan(db, e).value, After(db, e).jobs;
      forall k | k in ShortIn(after, queue, key, Retry) ensures k in ShortIn(db.jobs, queue, key, Retry) {
        if k in db.jobs && d.Update? && k in d.touched {
          RequeuedRow(db, e, k);
        }
      }
    }
  }

  lemma RequeuedRow(db: Db, e: Event, k: Key)
    requires Legal(db, e) && Plan(db, e).Ok? && Plan(db, e).value.Update? && k in Plan(db, e).value.touched
    requires k in db.jobs
    ensures var d := Plan(db, e).value;
            var a := Apply(d.change, k, db.jobs[k], e.at);
            && a.policy == db.jobs[k].policy && a.singletonKey == db.jobs[k].singletonKey
            && (a.state.Retry? <==> SentBack(db, e, k))
  {
    var d := Plan(db, e).value;
    ColumnsKept(d.change, k, db.jobs[k], e.at);
    StateMoves(d.change, k, db.jobs[k], e.at);
  }

  ghost predicate NoRequeue(db: Db, clock: Time, events: seq<Event>, queue: string, key: string)
    requires Run(db, clock, events)
    decreases |events|
  {
    events == [] ||
    (!Requeues(db, events[0], queue, key) && NoRequeue(After(db, events[0]), events[0].at, events[1..], queue, key))
  }

  lemma {:induction false} NobodyWaits(db: Db, clock: Time, events: seq<Event>, queue: string, key: string)
    requires Run(db, clock, events) && NoRequeue(db, clock, events, queue, key)
    requires ShortIn(db.jobs, queue, key, Retry) == {}
    ensures ShortIn(Final(db, clock, events).jobs, queue, key, Retry) == {}
    decreases |events|
  {
    if events != [] {
      WaitingOnlyAfterRequeue(db, events[0], queue, key);
      NobodyWaits(After(db, events[0]), events[0].at, events[1..], queue, key);
    }
  }

  /** At most one short job of a key is queued in every run in which none of them fails with retries left and none is
      retried by hand. */
  lemma ShortHolds(clock: Time, events: seq<Event>, queue: string, key: string)
    requires Run(NO_TABLES, clock, events) && NoRequeue(NO_TABLES, clock, events, queue, key)
    ensures |QueuedShort(Final(NO_TABLES, clock, events).jobs, queue, key)| <= 1
  {
    var jobs := Final(NO_TABLES, clock, events).jobs;
    RunsStayConsistent(NO_TABLES, clock, events);
    assert ShortIn(NO_TABLES.jobs, queue, key, Retry) == {};
    NobodyWaits(NO_TABLES, clock, events, queue, key);
    QueuedIsCreatedOrRetry(jobs, queue, key);
    OneCreated(jobs, queue, key);
  }

  /** A send to a short queue that is neither throttled nor routed and draws an unused id. */
  predicate PlainShortSend(db: Db, queue: string, s: Spec, key: string) {
    && queue in db.queues && db.queues[queue].policy.Short? && db.queues[queue].deadLetter.None?
    && s.singletonSeconds.None? && s.deadLetter.None? && s.singletonKey.Or("") == key && Key(queue, s.id) !in db.jobs
  }

  lemma SendLeavesOneCreated(db: Db, queue: string, s: Spec, key: string, now: Time)
    requires Consistent(db) && PlainShortSend(db, queue, s, key)
    ensures var after := After(db, Event(now, InsertJobs(queue, [s]))).jobs;
            && ShortIn(after, queue, key, Created) != {}
            && ShortIn(after, queue, key, Retry) == ShortIn(db.jobs, queue, key, Retry)
  {
    var k, row := Key(queue, s.id), NewRow(s, db.queues[queue], now);
    assert ShortUnder(k, row, queue, key) && PolicyEntry(k, row).Some? && ThrottleEntry(k, row).None?;
    if o :| o in db.jobs && Clash(k, row, o, db.jobs[o]) {
      SendIsSkipped(db, queue, s, now);
      assert o in ShortIn(db.jobs, queue, key, Created);
    } else {
      SendIsAccepted(db, queue, s, now);
      AddedCreated(db.jobs, k, row, queue, key);
    }
  }

  lemma AddedCreated(jobs: Jobs, k: Key, row: Job, queue: string, key: string)
    requires k !in jobs && row.state.Created? && ShortUnder(k, row, queue, key)
    ensures k in ShortIn(jobs[k := row], queue, key, Created)
    ensures ShortIn(jobs[k := row], queue, key, Retry) == ShortIn(jobs, queue, key, Retry)
  {
  }

  /** Whether such a send is accepted or skipped, the key then has one `created` job besides those that wait. */
  lemma QueuedAfterSend(db: Db, queue: string, s: Spec, key: string, now: Time)
    requires Consistent(db) && PlainShortSend(db, queue, s, key)
    ensures |QueuedShort(After(db, Event(now, InsertJobs(queue, [s]))).jobs, queue, key)|
            == 1 + |ShortIn(db.jobs, queue, key, Retry)|
  {
    var e := Event(now, InsertJobs(queue, [s]));
    SendLeavesOneCreated(db, queue, s, key, now);
    AfterIsConsistent(db, e);
    OneCreated(After(db, e).jobs, queue, key);
    QueuedIsCreatedOrRetry(After(db, e).jobs, queue, key);
  }

  /** So in every reachable state the next send of the key keeps the promise exactly when no job of the key waits for a
      retry. */
  lemma ShortHoldsIff(clock: Time, events: seq<Event>, queue: string, s: Spec, key: string, now: Time)
    requires Run(NO_TABLES, clock, events) && PlainShortSend(Final(NO_TABLES, clock, events), queue, s, key)
    ensures var db := Final(NO_TABLES, clock, events);
            |QueuedShort(After(db, Event(now, InsertJobs(queue, [s]))).jobs, queue, key)| <= 1
            <==> ShortIn(db.jobs, queue, key, Retry) == {}
  {
    RunsStayConsistent(NO_TABLES, clock, events);
    QueuedAfterSend(Final(NO_TABLES, clock, events), queue, s, key, now);
  }

  /** And every statement that makes one wait breaks it: with the next send two are queued. */
  lemma RequeueBreaksShort(db: Db, e: Event, queue: string, s: Spec, key: string, now: Time)
    requires Legal(db, e) && Consistent(db) && Requeues(db, e, queue, key)
    requires PlainShortSend(After(db, e), queue, s, key)
    ensures |QueuedShort(After(After(db, e), Event(now, InsertJobs(queue, [s]))).jobs, queue, key)| >= 2
  {
    AfterIsConsistent(db, e);
    QueuedAfterSend(After(db, e), queue, s, key, now);
    RequeuedWaits(db, e, queue, key);
  }

  lemma RequeuedWaits(db: Db, e: Event, queue: string, key: string)
    requires Legal(db, e) && Requeues(db, e, queue, key)
    ensures ShortIn(After(db, e).jobs, queue, key, Retry) != {}
  {
    var k :| k in db.jobs && ShortUnder(k, db.jobs[k], queue, key) && SentBack(db, e, k);
    PlanIsSound(db, e);
    RequeuedRow(db, e, k);
    TouchedRow(db, Plan(db, e).value, e.at, k);
    assert k in ShortIn(After(db, e).jobs, queue, key, Retry);
  }

  lemma TouchedRow(db: Db, d: Delta, now: Time, k: Key)
    requires d.Update? && CopiesOf(db, d, now) && k in db.jobs && k in d.touched
    ensures k in Patch(db, d, now).jobs && Patch(db, d, now).jobs[k] == Apply(d.change, k, db.jobs[k], now)
  {
  }

  // ---- key_strict_fifo: a failed job holds its key ----

  /** A manual retry or a deletion names the row, or the retention sweep finds it too old. */
  predicate Releases(e: Event, k: Key, j: Job) {
    match e.stmt
    case RetryJobs(queue, ids) => queue == k.queue && k.id in ids
    case DeleteJobs(queue, ids) => queue == k.queue && k.id in ids
    case DeleteOld => TooOld(j, e.at)
    case _ => false
  }

  lemma FailedIsPassedBy(db: Db, e: Event, k: Key)
    requires Legal(db, e) && k in db.jobs && db.jobs[k].state.Failed? && !Releases(e, k, db.jobs[k]) && Plan(db, e).Ok?
    ensures k !in Affected(Plan(db, e).value)
  {
  }

  lemma {:induction false} FailedStays(db: Db, clock: Time, events: seq<Event>, k: Key)
    requires Run(db, clock, events) && k in db.jobs && db.jobs[k].state.Failed?
    requires forall e | e in events :: !Releases(e, k, db.jobs[k])
    ensures k in Final(db, clock, events).jobs && Final(db, clock, events).jobs[k] == db.jobs[k]
    decreases |events|
  {
    if events != [] {
      var e := events[0];
      assert e in events;
      if Exec(db, e).Ok? {
        PlanIsSound(db, e);
        FailedIsPassedBy(db, e, k);
        LeavesAlone(db, Plan(db, e).value, e.at, k);
      }
      FailedStays(After(db, e), e.at, events[1..], k);
    }
  }

  /** Until it is retried by hand, deleted or swept, a failed key_strict_fifo job keeps every other job of its key from
      running, through any run; and while one of those is at the head of the queue, every plain fetch aborts. */
  lemma FailedFifoJobHoldsItsKey(db: Db, clock: Time, events: seq<Event>, failed: Key, o: Key)
    requires Run(db, clock, events) && Consistent(db) && failed in db.jobs && db.jobs[failed].state.Failed?
    requires db.jobs[failed].policy == Some(KeyStrictFifo)
    requires forall e | e in events :: !Releases(e, failed, db.jobs[failed])
    requires var jobs := Final(db, clock, events).jobs;
             o in jobs && o != failed && SamePolicyKey(o, jobs[o], failed, db.jobs[failed])
    ensures var end := Final(db, clock, events);
            && !end.jobs[o].state.Active?
            && forall e | Legal(end, e) && e.stmt.FetchNext? && e.stmt.cap.None? && e.stmt.batch >= 1
                          && IsFirst(end.jobs, Candidates(end.jobs, e.stmt.queue, e.at, e.stmt.locked), o) ::
                 Exec(end, e) == Err(UniqueViolation)
  {
    var end := Final(db, clock, events);
    RunsStayConsistent(db, clock, events);
    FailedStays(db, clock, events, failed);
    PoliciesHold(db, clock, events, failed, o);
    forall e | Legal(end, e) && e.stmt.FetchNext? && e.stmt.cap.None? && e.stmt.batch >= 1
               && IsFirst(end.jobs, Candidates(end.jobs, e.stmt.queue, e.at, e.stmt.locked), o)
      ensures Exec(end, e) == Err(UniqueViolation)
    {
      BlockedHeadStopsTheQueue(end, e, o, failed);
    }
  }
}
