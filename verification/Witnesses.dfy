/** Runs from the empty tables that lead where a promise breaks. */
module Witnesses {
  import opened Options
  import opened Schema
  import opened Claiming
  import opened Statements
  import opened Effects
  import opened Indexes
  import opened Sending
  import opened Policies
  import opened Holding
  import opened Sweeping
  import Lifecycle

  /** A send under a key. */
  function Ask(id: Id, priority: int, retries: Option<int>, key: string): Spec {
    JobPayload(id, None, DEFAULTS.(priority := priority, singletonKey := Some(key), retryLimit := retries))
  }

  // ---- single steps ----

  /** The head of the queue is claimed unless its key is held. */
  lemma HeadIsClaimed(db: Db, k: Key, now: Time)
    requires Consistent(db) && IsFirst(db.jobs, Candidates(db.jobs, k.queue, now, {}), k)
    requires forall o | o in db.jobs :: !HeldBack(db.jobs, k, o)
    ensures var e := Event(now, FetchNext(k.queue, 1, None, {}));
            Exec(db, e).Ok? && After(db, e) == db.(jobs := db.jobs[k := Apply(Claim, k, db.jobs[k], now)])
  {
    var e := Event(now, FetchNext(k.queue, 1, None, {}));
    FirstIsTaken(db.jobs, Candidates(db.jobs, k.queue, now, {}), 1, k);
    SingleFetchAbortsIff(db, e, k);
    FetchIsTouch(db, e);
    assert Touch(db.jobs, Claim, {k}, now) == db.jobs[k := Apply(Claim, k, db.jobs[k], now)];
  }

  function Failure(k: Key, uuid: Id, now: Time): Event {
    Event(now, FailById(k.queue, {k.id}, None, map[], [k], [uuid]))
  }

  /** A job without a dead letter fails unless another waits in its way. */
  lemma RowFails(db: Db, k: Key, uuid: Id, now: Time)
    requires Unique(db.jobs) && k in db.jobs && db.jobs[k].state.Active? && db.jobs[k].deadLetter.None?
    requires forall o | o in db.jobs :: o.id != uuid && (o != k ==> !FailBlocked(k, db.jobs[k], o, db.jobs[o]))
    ensures var e := Failure(k, uuid, now);
            && Legal(db, e) && Exec(db, e).Ok?
            && After(db, e) == db.(jobs := db.jobs[k := Apply(Fail(None, map[]), k, db.jobs[k], now)])
  {
    var e := Failure(k, uuid, now);
    assert FailedBy(db, e) == {k};
    FailAbortsIff(db, e);
    PlanIsSound(db, e);
    OneRowChanges(db, Plan(db, e).value, now, k);
  }

  lemma OneRowChanges(db: Db, d: Delta, now: Time, k: Key)
    requires Sound(db, d, now) && d.Update? && d.touched == {k} && db.jobs[k].deadLetter.None?
    ensures Patch(db, d, now) == db.(jobs := db.jobs[k := Apply(d.change, k, db.jobs[k], now)])
  {
    ColumnsKept(d.change, k, db.jobs[k], now);
    assert d.copies == map[];
    assert Patch(db, d, now).jobs == db.jobs[k := Apply(d.change, k, db.jobs[k], now)];
  }

  /** A failed job of a standard queue is retried by hand. */
  lemma RowIsRetried(db: Db, k: Key, now: Time)
    requires Unique(db.jobs) && k in db.jobs && db.jobs[k].state.Failed? && db.jobs[k].deadLetter.None?
    requires db.jobs[k].policy == Some(Standard)
    ensures var e := Event(now, RetryJobs(k.queue, {k.id}));
            Exec(db, e).Ok? && After(db, e) == db.(jobs := db.jobs[k := Apply(Redo, k, db.jobs[k], now)])
  {
    var e := Event(now, RetryJobs(k.queue, {k.id}));
    assert Matching(db.jobs, k.queue, {k.id}, Redo, now) == {k};
    ReturnAbortsIff(db, e, Redo);
    PlanIsSound(db, e);
    OneRowChanges(db, Plan(db, e).value, now, k);
  }

  // ---- one job is sent and claimed, and another of its key is sent ----

  /** A queue of some policy, the key of two jobs, the retry limit asked for the first, and the time of it all. */
  datatype Scene = Scene(queue: string, policy: Policy, key: string, retries: Option<int>, now: Time) {
    function First(): Key { Key(queue, 0) }

    function Second(): Key { Key(queue, 1) }

    function FirstRow(): Job { NewRow(Ask(0, 0, retries, key), QueueWith(policy), now) }

    /** The second is more urgent. */
    function SecondRow(): Job { NewRow(Ask(1, 1, None, key), QueueWith(policy), now) }

    function ActiveRow(): Job { Apply(Claim, First(), FirstRow(), now) }

    function FailedRow(): Job { Apply(Fail(None, map[]), First(), ActiveRow(), now) }

    function Of(jobs: Jobs): Db { Db(jobs, map[queue := QueueWith(policy)]) }

    function Sent(): Db { Of(map[First() := FirstRow()]) }

    function Taken(): Db { Of(map[First() := ActiveRow()]) }

    function Exhausted(): Db { Of(map[First() := FailedRow()]) }

    function Refilled(): Db { Of(map[First() := ActiveRow(), Second() := SecondRow()]) }

    function Requeued(): Db { Of(map[First() := FailedRow(), Second() := SecondRow()]) }

    /** The second is claimed while the first waits. */
    function Crossed(): Db {
      Of(map[First() := FailedRow(), Second() := Apply(Claim, Second(), SecondRow(), now)])
    }

    function RetriedRow(later: Time): Job { Apply(Redo, First(), FailedRow(), later) }

    /** The exhausted job is retried by hand, and claimed again. */
    function Queued(later: Time): Db { Of(map[First() := RetriedRow(later)]) }

    function Running(later: Time): Db { Of(map[First() := Apply(Claim, First(), RetriedRow(later), later)]) }
  }

  lemma SentIsReached(c: Scene)
    ensures Reachable(c.Sent(), c.now)
  {
    var q := QueueWith(c.policy);
    StartIsReachable(c.now);
    QueueIsCreated(c.queue, q, c.now);
    StepIsReachable(NO_TABLES, c.now, Event(c.now, CreateQueue(c.queue, q)));
    SendIsAccepted(c.Of(map[]), c.queue, Ask(0, 0, c.retries, c.key), c.now);
    StepIsReachable(c.Of(map[]), c.now, Event(c.now, InsertJobs(c.queue, [Ask(0, 0, c.retries, c.key)])));
  }

  lemma TakenIsReached(c: Scene)
    ensures Reachable(c.Taken(), c.now)
  {
    SentIsReached(c);
    assert Candidates(c.Sent().jobs, c.queue, c.now, {}) == {c.First()};
    HeadIsClaimed(c.Sent(), c.First(), c.now);
    StepIsReachable(c.Sent(), c.now, Event(c.now, FetchNext(c.queue, 1, None, {})));
    assert map[c.First() := c.FirstRow()][c.First() := c.ActiveRow()] == map[c.First() := c.ActiveRow()];
  }

  lemma ExhaustedIsReached(c: Scene)
    ensures Reachable(c.Exhausted(), c.now)
  {
    TakenIsReached(c);
    RowFails(c.Taken(), c.First(), 2, c.now);
    StepIsReachable(c.Taken(), c.now, Failure(c.First(), 2, c.now));
    assert map[c.First() := c.ActiveRow()][c.First() := c.FailedRow()] == map[c.First() := c.FailedRow()];
  }

  lemma RefilledIsReached(c: Scene)
    requires !c.policy.Exclusive?
    ensures Reachable(c.Refilled(), c.now)
  {
    TakenIsReached(c);
    SendIsAccepted(c.Taken(), c.queue, Ask(1, 1, None, c.key), c.now);
    StepIsReachable(c.Taken(), c.now, Event(c.now, InsertJobs(c.queue, [Ask(1, 1, None, c.key)])));
    assert map[c.First() := c.ActiveRow()][c.Second() := c.SecondRow()] == c.Refilled().jobs;
  }

  lemma RequeuedIsReached(c: Scene)
    requires !c.policy.Exclusive?
    ensures Reachable(c.Requeued(), c.now)
  {
    RefilledIsReached(c);
    ReachableIsConsistent(c.Refilled(), c.now);
    FirstFails(c);
    StepIsReachable(c.Refilled(), c.now, Failure(c.First(), 2, c.now));
  }

  lemma FirstFails(c: Scene)
    requires Consistent(c.Refilled())
    ensures var e := Failure(c.First(), 2, c.now);
            Legal(c.Refilled(), e) && After(c.Refilled(), e) == c.Requeued()
  {
    OneOfTwoFails(c.Refilled(), c.First(), c.Second(), 2, c.now);
    Replaced(c.First(), c.ActiveRow(), c.FailedRow(), c.Second(), c.SecondRow());
  }

  lemma OneOfTwoFails(db: Db, k: Key, o: Key, uuid: Id, now: Time)
    requires Unique(db.jobs) && db.jobs.Keys == {k, o} && uuid != k.id && uuid != o.id
    requires db.jobs[k].state.Active? && db.jobs[k].deadLetter.None? && db.jobs[o].state.Created?
    ensures var e := Failure(k, uuid, now);
            && Legal(db, e) && Exec(db, e).Ok?
            && After(db, e) == db.(jobs := db.jobs[k := Apply(Fail(None, map[]), k, db.jobs[k], now)])
  {
    RowFails(db, k, uuid, now);
  }

  lemma Replaced(k: Key, before: Job, after: Job, o: Key, other: Job)
    requires k != o
    ensures map[k := before, o := other][k := after] == map[k := after, o := other]
    ensures map[o := other, k := before][k := after] == map[o := other, k := after]
  {
  }

  // ---- where that leads ----

  /** Under `short` the first fails with retries left, and two are queued. */
  lemma ShortCanHoldTwo(queue: string, key: string, now: Time)
    ensures var db := Scene(queue, Short, key, None, now).Requeued();
            Reachable(db, now) && |QueuedShort(db.jobs, queue, key)| == 2
  {
    var c := Scene(queue, Short, key, None, now);
    RequeuedIsReached(c);
    assert QueuedShort(c.Requeued().jobs, queue, key) == {c.First(), c.Second()};
  }

  /** Under `singleton`, `stately` and `key_strict_fifo` the second is held back by the active first, at the head of the
      queue. */
  lemma HeldHeadIsReached(queue: string, policy: Policy, key: string, now: Time)
    requires policy.Singleton? || policy.Stately? || policy.KeyStrictFifo?
    ensures var c := Scene(queue, policy, key, None, now);
            && Reachable(c.Refilled(), now)
            && IsFirst(c.Refilled().jobs, Candidates(c.Refilled().jobs, queue, now, {}), c.Second())
            && HeldBack(c.Refilled().jobs, c.Second(), c.First())
  {
    RefilledIsReached(Scene(queue, policy, key, None, now));
  }

  /** Under `key_strict_fifo` also by the first once it has failed, whether it waits for a retry or is out of them. */
  lemma HeldFifoHeadIsReached(queue: string, key: string, retries: Option<int>, now: Time)
    ensures var c := Scene(queue, KeyStrictFifo, key, retries, now);
            && Reachable(c.Requeued(), now)
            && c.FailedRow().state == (if retries.Or(2) > 0 then Retry else State.Failed)
            && IsFirst(c.Requeued().jobs, Candidates(c.Requeued().jobs, queue, now, {}), c.Second())
            && HeldBack(c.Requeued().jobs, c.Second(), c.First())
  {
    RequeuedIsReached(Scene(queue, KeyStrictFifo, key, retries, now));
  }

  lemma SecondIsClaimed(c: Scene)
    requires Consistent(c.Requeued()) && c.policy.Stately? && c.retries.None?
    ensures After(c.Requeued(), Event(c.now, FetchNext(c.queue, 1, None, {}))) == c.Crossed()
  {
    assert IsFirst(c.Requeued().jobs, Candidates(c.Requeued().jobs, c.queue, c.now, {}), c.Second());
    HeadIsClaimed(c.Requeued(), c.Second(), c.now);
    Replaced(c.Second(), c.SecondRow(), Apply(Claim, c.Second(), c.SecondRow(), c.now), c.First(), c.FailedRow());
  }

  /** Under `stately` the first waits for a retry while the second is claimed: when its lease runs out they deadlock. */
  lemma StatelyDeadlockIsReached(queue: string, key: string, now: Time)
    ensures var c := Scene(queue, Stately, key, None, now);
            && Reachable(c.Crossed(), now)
            && forall since | since > now + 900.0 :: Deadlocked(c.Crossed(), since, c.Second(), c.First())
  {
    var c := Scene(queue, Stately, key, None, now);
    RequeuedIsReached(c);
    ReachableIsConsistent(c.Requeued(), now);
    SecondIsClaimed(c);
    StepIsReachable(c.Requeued(), now, Event(now, FetchNext(queue, 1, None, {})));
  }

  lemma QueuedIsReached(c: Scene, later: Time)
    requires c.policy.Standard? && c.retries == Some(0) && c.now <= later
    ensures Reachable(c.Queued(later), later)
  {
    ExhaustedIsReached(c);
    RowIsRetried(c.Exhausted(), c.First(), later);
    StepIsReachable(c.Exhausted(), c.now, Event(later, RetryJobs(c.queue, {0})));
    assert map[c.First() := c.FailedRow()][c.First() := c.RetriedRow(later)] == c.Queued(later).jobs;
  }

  lemma RunningIsReached(c: Scene, later: Time)
    requires c.policy.Standard? && c.retries == Some(0) && c.now <= later
    ensures Reachable(c.Running(later), later)
  {
    QueuedIsReached(c, later);
    ReachableIsConsistent(c.Queued(later), later);
    assert Candidates(c.Queued(later).jobs, c.queue, later, {}) == {c.First()};
    HeadIsClaimed(c.Queued(later), c.First(), later);
    StepIsReachable(c.Queued(later), later, Event(later, FetchNext(c.queue, 1, None, {})));
    assert c.Queued(later).jobs[c.First() := c.Running(later).jobs[c.First()]] == c.Running(later).jobs;
  }

  /** A job that failed a week ago and more is retried by hand, and swept before its retention is over: while it is
      queued, and while it is running again. */
  lemma RetriedJobIsSwept(queue: string, key: string, now: Time, later: Time, sweep: Time)
    requires now <= later <= sweep && now + 604800.0 < sweep <= now + 1209600.0
    ensures var c := Scene(queue, Standard, key, Some(0), now);
            && Reachable(c.Queued(later), later) && Reachable(c.Running(later), later)
            && c.RetriedRow(later).state.Retry? && c.RetriedRow(later).keepUntil >= sweep
            && c.Running(later).jobs[c.First()].state.Active?
            && After(c.Queued(later), Event(sweep, DeleteOld)).jobs == map[]
            && After(c.Running(later), Event(sweep, DeleteOld)).jobs == map[]
  {
    var c := Scene(queue, Standard, key, Some(0), now);
    QueuedIsReached(c, later);
    RunningIsReached(c, later);
    LoneRowIsSwept(c.Queued(later), c.First(), sweep);
    LoneRowIsSwept(c.Running(later), c.First(), sweep);
  }

  lemma LoneRowIsSwept(db: Db, k: Key, now: Time)
    requires db.jobs.Keys == {k} && TooOld(db.jobs[k], now)
    ensures After(db, Event(now, DeleteOld)).jobs == map[]
  {
    assert OldRows(db.jobs, now) == {k};
    assert db.jobs - {k} == map[];
  }

  // ---- policies hold per key, not per queue ----

  function TwoKeys(queue: string, policy: Policy, a: string, b: string, now: Time): Db {
    TwoRows(queue, QueueWith(policy), Ask(0, 0, None, a), Ask(1, 0, None, b), now, now)
  }

  /** Two sends under different keys are both accepted by a queue of any policy. */
  lemma TwoKeysAreSent(queue: string, policy: Policy, a: string, b: string, now: Time)
    requires a != b
    ensures Reachable(TwoKeys(queue, policy, a, b, now), now)
  {
    TwoSends(queue, QueueWith(policy), Ask(0, 0, None, a), Ask(1, 0, None, b), now, now);
  }

  /** And both are claimed: whatever its policy, a queue can have two jobs queued and then two active. */
  lemma PolicyIsPerKey(queue: string, policy: Policy, a: string, b: string, now: Time)
    requires a != b
    ensures var db, e := TwoKeys(queue, policy, a, b, now), Event(now, FetchNext(queue, 2, None, {}));
            && (forall k | k in {Key(queue, 0), Key(queue, 1)} ::
                  k in db.jobs && db.jobs[k].policy == Some(policy) && db.jobs[k].state.Created?)
            && Exec(db, e).Ok?
            && (forall k | k in {Key(queue, 0), Key(queue, 1)} ::
                  k in After(db, e).jobs && After(db, e).jobs[k].state.Active?)
  {
    BothAreClaimed(TwoKeys(queue, policy, a, b, now), Key(queue, 0), Key(queue, 1), a, b, now);
  }

  lemma BothAreClaimed(db: Db, k: Key, o: Key, a: string, b: string, now: Time)
    requires db.jobs.Keys == {k, o} && k != o && k.queue == o.queue && a != b
    requires db.jobs[k].singletonKey == Some(a) && db.jobs[o].singletonKey == Some(b)
    requires forall c | c in db.jobs ::
               db.jobs[c].singletonOn.None? && db.jobs[c].state.Created? && db.jobs[c].startAfter <= now
    ensures var e := Event(now, FetchNext(k.queue, 2, None, {}));
            Exec(db, e).Ok? && forall c | c in db.jobs :: c in After(db, e).jobs && After(db, e).jobs[c].state.Active?
  {
    var e := Event(now, FetchNext(k.queue, 2, None, {}));
    assert Candidates(db.jobs, k.queue, now, {}) == {k, o};
    BothAreTaken(db.jobs, k, o);
    assert ClaimedBy(db, e) == {k, o};
    DifferentKeysAreUnique(db.jobs, a, b, k, o);
    ClaimAbortsIff(db, e);
    FetchIsTouch(db, e);
  }

  lemma BothAreTaken(jobs: Jobs, k: Key, o: Key)
    requires OfOneQueue(jobs, {k, o}) && k != o
    ensures Batch(jobs, {k, o}, 2) == {k, o}
  {
    TopIsFull(jobs, {k, o}, 2);
    SameSize(Batch(jobs, {k, o}, 2), {k, o});
  }

  lemma DifferentKeysAreUnique(jobs: Jobs, a: string, b: string, k: Key, o: Key)
    requires jobs.Keys == {k, o} && jobs[k].singletonKey == Some(a) && jobs[o].singletonKey == Some(b) && a != b
    requires jobs[k].singletonOn.None? && jobs[o].singletonOn.None?
    ensures Unique(jobs)
  {
  }
}
