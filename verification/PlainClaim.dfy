/** The claim without a group cap. */
module PlainClaim {
  import opened Options
  import opened Schema
  import opened Claiming
  import opened Statements
  import opened Effects
  import opened Indexes
  import opened Sending

  /** Whatever rows are locked, a plain claim takes exactly as many of the others as the batch allows, and none that
      is left behind comes before one that is taken. */
  lemma ClaimIsOptimal(db: Db, e: Event)
    requires e.stmt.FetchNext? && e.stmt.cap.None? && e.stmt.batch >= 0
    ensures var keys := Candidates(db.jobs, e.stmt.queue, e.at, e.stmt.locked);
            && ClaimedBy(db, e) <= keys
            && |ClaimedBy(db, e)| == Min(e.stmt.batch, |keys|)
            && forall k, o | k in ClaimedBy(db, e) && o in keys - ClaimedBy(db, e) :: Ahead(db.jobs, k, o)
  {
    var keys := Candidates(db.jobs, e.stmt.queue, e.at, e.stmt.locked);
    TopIsFull(db.jobs, keys, e.stmt.batch);
    TopIsOptimal(db.jobs, keys, e.stmt.batch);
  }

  /** A committed fetch, capped or not, activates exactly the rows it returns and leaves every other row as it was. */
  lemma ClaimActivatesOnlyItsRows(db: Db, e: Event, k: Key)
    requires e.stmt.FetchNext? && Exec(db, e).Ok? && k in db.jobs
    ensures After(db, e).jobs.Keys == db.jobs.Keys
    ensures var before, after := db.jobs[k], After(db, e).jobs[k];
            if k in Exec(db, e).value.touched
            then k.queue == e.stmt.queue && k !in e.stmt.locked && before.state.Queued() && before.startAfter <= e.at
                 && after.state.Active? && after.startedOn == Some(e.at)
                 && after.retryCount == before.retryCount + (if before.startedOn.Some? then 1 else 0)
            else after == before
  {
    FetchIsTouch(db, e);
  }

  /** Under key_strict_fifo a committed claim, capped or not, finds its key free: no other job of the key is running,
      waiting for a retry or failed. A job of the key that a plain claim leaves behind was behind it, unless that one
      was not due, locked, or of lower priority: only so can a younger job overtake an older one. */
  lemma StrictFifo(db: Db, e: Event, k: Key, o: Key)
    requires Legal(db, e) && Unique(db.jobs) && e.stmt.FetchNext? && Exec(db, e).Ok?
    requires e.stmt.batch >= 0 && k in ClaimedBy(db, e) && o in db.jobs && o != k
    requires SamePolicyKey(k, db.jobs[k], o, db.jobs[o]) && db.jobs[k].policy == Some(KeyStrictFifo)
    requires db.jobs[k].singletonKey.Some? && db.jobs[o].singletonKey.Some?
    ensures !db.jobs[o].state.Active? && !db.jobs[o].state.Retry? && !db.jobs[o].state.Failed?
    ensures e.stmt.cap.None? && db.jobs[o].state.Queued() && db.jobs[o].createdOn < db.jobs[k].createdOn ==>
              db.jobs[o].startAfter > e.at || o in e.stmt.locked || db.jobs[o].priority < db.jobs[k].priority
  {
    ClaimAbortsIff(db, e);
    assert !ClaimBlocked(k, db.jobs[k], o, db.jobs[o], o in ClaimedBy(db, e));
    var keys := Candidates(db.jobs, e.stmt.queue, e.at, e.stmt.locked);
    if e.stmt.cap.None? && o in keys {
      ClaimIsOptimal(db, e);
      assert o in keys - ClaimedBy(db, e) && Ahead(db.jobs, k, o);
    }
  }

  /** A job of the head's key that was sent before it and is still queued. */
  ghost predicate Older(jobs: Jobs, head: Key, o: Key)
    requires head in jobs
  {
    && o in jobs && SamePolicyKey(head, jobs[head], o, jobs[o])
    && jobs[o].state.Queued() && jobs[o].createdOn < jobs[head].createdOn
  }

  /** With the default batch of one, a committed plain fetch under key_strict_fifo claims a younger job while an older
      one of its key stays queued exactly when the head of the queue has an older one. */
  lemma FifoOvertakesIff(db: Db, e: Event, head: Key)
    requires Legal(db, e) && Consistent(db) && e.stmt.FetchNext? && e.stmt.cap.None? && e.stmt.batch == 1
    requires Exec(db, e).Ok?
    requires IsFirst(db.jobs, Candidates(db.jobs, e.stmt.queue, e.at, e.stmt.locked), head)
    ensures (exists k, o :: k in ClaimedBy(db, e) && Older(db.jobs, k, o) && o in After(db, e).jobs
                            && After(db, e).jobs[o].state.Queued())
            <==> exists o :: Older(db.jobs, head, o)
  {
    FirstIsTaken(db.jobs, Candidates(db.jobs, e.stmt.queue, e.at, e.stmt.locked), 1, head);
    assert ClaimedBy(db, e) == {head};
    FetchIsTouch(db, e);
    if o :| Older(db.jobs, head, o) {
      assert o in After(db, e).jobs && After(db, e).jobs[o] == db.jobs[o];
    }
  }

  function FifoSend(key: string, priority: int, delay: real, id: Id): Spec {
    JobPayload(id, None, DEFAULTS.(singletonKey := Some(key), priority := priority, startAfter := Some(In(delay))))
  }

  /** A key_strict_fifo queue to which two jobs of one key have been sent, the first perhaps with a delay and the second
      perhaps more urgent. */
  function TwoOfOneKey(queue: string, key: string, delay: real, priority: int, t: Time, later: Time): Db {
    TwoRows(queue, QueueWith(KeyStrictFifo), FifoSend(key, 0, delay, 0), FifoSend(key, priority, 0.0, 1), t, later)
  }

  lemma TwoAreSent(queue: string, key: string, delay: real, priority: int, t: Time, later: Time)
    requires t <= later
    ensures Reachable(TwoOfOneKey(queue, key, delay, priority, t, later), later)
  {
    TwoSends(queue, QueueWith(KeyStrictFifo), FifoSend(key, 0, delay, 0), FifoSend(key, priority, 0.0, 1), t, later);
  }

  /** Where nobody is active, the first candidate is claimed. */
  lemma FirstIsClaimed(db: Db, e: Event, k: Key)
    requires Unique(db.jobs) && e.stmt.FetchNext? && e.stmt.batch == 1 && e.stmt.cap.None?
    requires IsFirst(db.jobs, Candidates(db.jobs, e.stmt.queue, e.at, e.stmt.locked), k)
    requires forall o | o in db.jobs :: db.jobs[o].state.Created?
    ensures ClaimedBy(db, e) == {k} && Exec(db, e).Ok?
  {
    FirstIsTaken(db.jobs, Candidates(db.jobs, e.stmt.queue, e.at, e.stmt.locked), 1, k);
    LoneClaimCommits(db, e, k);
  }

  lemma LoneClaimCommits(db: Db, e: Event, k: Key)
    requires Unique(db.jobs) && e.stmt.FetchNext? && e.stmt.batch >= 0 && ClaimedBy(db, e) == {k}
    requires forall o | o in db.jobs :: db.jobs[o].state.Created?
    ensures Exec(db, e).Ok?
  {
    ClaimAbortsIff(db, e);
  }

  /** The second of two jobs of a key is claimed although the first is older and queued. */
  ghost predicate YoungerClaimed(db: Db, e: Event, queue: string)
    requires e.stmt.FetchNext? && e.stmt.batch >= 0
  {
    && Key(queue, 1) in db.jobs && Older(db.jobs, Key(queue, 1), Key(queue, 0))
    && ClaimedBy(db, e) == {Key(queue, 1)} && Exec(db, e).Ok?
  }

  function FirstOfTwo(queue: string, delay: real, priority: int, t: Time, later: Time, locked: set<Key>): Key {
    if priority > 0 || t + delay > later || Key(queue, 0) in locked then Key(queue, 1) else Key(queue, 0)
  }

  lemma HeadOfTwo(queue: string, key: string, delay: real, priority: int, t: Time, later: Time, locked: set<Key>)
    requires t < later && Key(queue, 1) !in locked
    ensures var jobs := TwoOfOneKey(queue, key, delay, priority, t, later).jobs;
            var first := FirstOfTwo(queue, delay, priority, t, later, locked);
            && IsFirst(jobs, Candidates(jobs, queue, later, locked), first)
            && Older(jobs, Key(queue, 1), Key(queue, 0)) && Unique(jobs)
            && forall o | o in jobs :: jobs[o].state.Created?
  {
  }

  /** It happens exactly when the second is more urgent, or the first is not yet due, or locked. */
  lemma StrictFifoCanBeOvertaken(queue: string, key: string, delay: real, priority: int, t: Time, later: Time,
                                 locked: set<Key>)
    requires t < later && Key(queue, 1) !in locked
    ensures var e := Event(later, FetchNext(queue, 1, None, locked));
            YoungerClaimed(TwoOfOneKey(queue, key, delay, priority, t, later), e, queue)
            <==> priority > 0 || t + delay > later || Key(queue, 0) in locked
  {
    var db, e := TwoOfOneKey(queue, key, delay, priority, t, later), Event(later, FetchNext(queue, 1, None, locked));
    HeadOfTwo(queue, key, delay, priority, t, later, locked);
    FirstIsClaimed(db, e, FirstOfTwo(queue, delay, priority, t, later, locked));
  }
}
