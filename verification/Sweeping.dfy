/** The maintenance sweep: recover expired leases, then delete old rows. */
module Sweeping {
  import opened Options
  import opened Schema
  import opened Backoff
  import opened Statements
  import opened Effects
  import opened Indexes
  import opened Holding

  /** The database's choices during one timeout sweep. */
  datatype Choices = Choices(jitter: map<Key, Jitter>, order: seq<Key>, uuids: seq<Id>)

  function Timeout(now: Time, c: Choices): Event { Event(now, FailExpired(c.jitter, c.order, c.uuids)) }

  function Retention(now: Time): Event { Event(now, DeleteOld) }

  /** `sweep` at one moment: if the timeout sweep raises, the retention sweep does not run. */
  ghost function Swept(db: Db, now: Time, c: Choices): Db
    requires Legal(db, Timeout(now, c))
  {
    if Exec(db, Timeout(now, c)).Err? then db
    else After(After(db, Timeout(now, c)), Retention(now))
  }

  /** After a committed timeout sweep no lease is expired at its time. */
  lemma TimeoutRecoversAll(db: Db, now: Time, c: Choices)
    requires Legal(db, Timeout(now, c)) && Exec(db, Timeout(now, c)).Ok?
    ensures Expired(After(db, Timeout(now, c)).jobs, now) == {}
  {
    var e := Timeout(now, c);
    PlanIsSound(db, e);
    NothingStaysExpired(db, Plan(db, e).value, now);
  }

  lemma NothingStaysExpired(db: Db, d: Delta, now: Time)
    requires d.Update? && d.change.Fail? && d.touched == Expired(db.jobs, now) && CopiesOf(db, d, now)
    ensures Expired(Patch(db, d, now).jobs, now) == {}
  {
    var after := Patch(db, d, now).jobs;
    forall k | k in after ensures !LeaseExpired(after[k], now) {
      if k !in d.copies && k in d.touched { StateMoves(d.change, k, db.jobs[k], now); }
    }
  }

  /** With no stately job the timeout sweep always commits. */
  lemma TimeoutCommits(db: Db, now: Time, c: Choices)
    requires Legal(db, Timeout(now, c)) && Unique(db.jobs)
    requires forall k | k in db.jobs :: db.jobs[k].policy != Some(Stately)
    ensures Exec(db, Timeout(now, c)).Ok?
  {
    FailAbortsIff(db, Timeout(now, c));
  }

  /** A sweep that finds nothing expired and nothing old changes nothing and copies nothing. */
  lemma IdleSweep(db: Db, now: Time, c: Choices)
    requires Legal(db, Timeout(now, c)) && Unique(db.jobs) && Expired(db.jobs, now) == {} && OldRows(db.jobs, now) == {}
    ensures Swept(db, now, c) == db
  {
    var e := Timeout(now, c);
    var d := Plan(db, e).value;
    assert d.touched == {} && c.order == [];
    assert Patch(db, d, now).jobs == db.jobs;
    assert Patch(db, Delete({}), now).jobs == db.jobs;
  }

  lemma RetentionDeletesAll(db: Db, now: Time)
    requires Unique(db.jobs)
    ensures var after := After(db, Retention(now)).jobs;
            && after == db.jobs - OldRows(db.jobs, now)
            && OldRows(after, now) == {}
            && (Expired(db.jobs, now) == {} ==> Expired(after, now) == {})
  {
    NeverAborts(db, Retention(now));
  }

  /** Sweeping twice at one moment is sweeping once, dead-letter copies included, whatever is drawn the second time;
      and if the sweep committed, it leaves nothing expired and nothing old. */
  lemma SweepIsIdempotent(db: Db, now: Time, c: Choices, again: Choices)
    requires Legal(db, Timeout(now, c)) && Unique(db.jobs)
    requires Legal(Swept(db, now, c), Timeout(now, again))
    ensures Swept(Swept(db, now, c), now, again) == Swept(db, now, c)
    ensures Exec(db, Timeout(now, c)).Ok? ==>
              Expired(Swept(db, now, c).jobs, now) == {} && OldRows(Swept(db, now, c).jobs, now) == {}
  {
    if Exec(db, Timeout(now, c)).Ok? {
      var recovered := After(db, Timeout(now, c));
      TimeoutRecoversAll(db, now, c);
      RetentionDeletesAll(recovered, now);
      NeverAborts(recovered, Retention(now));
      IdleSweep(Swept(db, now, c), now, again);
    } else {
      FailAbortsIff(db, Timeout(now, c));
      FailAbortsIff(db, Timeout(now, again));
    }
  }

  // ---- the deadlock of two stately jobs ----

  /** An expired stately job with retries left that cannot return to `retry`, because another of its key waits there. */
  ghost predicate Deadlocked(db: Db, since: Time, k: Key, o: Key) {
    && k in db.jobs && o in db.jobs && o != k
    && LeaseExpired(db.jobs[k], since) && FailBlocked(k, db.jobs[k], o, db.jobs[o])
  }

  /** Somebody completes, cancels or deletes one of the two by name, or a retention sweep on its own finds one too
      old. */
  predicate Resolves(e: Event, k: Key, o: Key, j: Job, jo: Job) {
    match e.stmt
    case CompleteJobs(queue, ids, _) => queue == k.queue && k.id in ids
    case CancelJobs(queue, ids) => (queue == k.queue && k.id in ids) || (queue == o.queue && o.id in ids)
    case DeleteJobs(queue, ids) => (queue == k.queue && k.id in ids) || (queue == o.queue && o.id in ids)
    case DeleteOld => TooOld(j, e.at) || TooOld(jo, e.at)
    case _ => false
  }

  /** The one that waits cannot be claimed and the one that is active cannot be failed: both statements abort. */
  lemma DeadlockAborts(db: Db, e: Event, since: Time, k: Key, o: Key)
    requires Legal(db, e) && Unique(db.jobs) && Deadlocked(db, since, k, o)
    requires (e.stmt.FetchNext? && e.stmt.batch >= 0 && o in ClaimedBy(db, e)) ||
             ((e.stmt.FailById? || e.stmt.FailExpired?) && k in FailedBy(db, e))
    ensures Exec(db, e).Err?
  {
    if e.stmt.FetchNext? {
      assert ClaimBlocked(o, db.jobs[o], k, db.jobs[k], k in ClaimedBy(db, e));
      ClaimAbortsIff(db, e);
    } else {
      FailAbortsIff(db, e);
    }
  }

  lemma DeadlockPassedBy(db: Db, e: Event, since: Time, k: Key, o: Key)
    requires Legal(db, e) && Deadlocked(db, since, k, o) && Plan(db, e).Ok?
    requires !Resolves(e, k, o, db.jobs[k], db.jobs[o])
    requires e.stmt.FetchNext? ==> o !in ClaimedBy(db, e)
    requires e.stmt.FailById? || e.stmt.FailExpired? ==> k !in FailedBy(db, e)
    ensures k !in Affected(Plan(db, e).value) && o !in Affected(Plan(db, e).value)
  {
  }

  lemma DeadlockStays(db: Db, e: Event, since: Time, k: Key, o: Key)
    requires Legal(db, e) && Unique(db.jobs) && Deadlocked(db, since, k, o)
    requires !Resolves(e, k, o, db.jobs[k], db.jobs[o])
    ensures var after := After(db, e).jobs;
            k in after && o in after && after[k] == db.jobs[k] && after[o] == db.jobs[o]
  {
    if Exec(db, e).Ok? {
      if (e.stmt.FetchNext? && o in ClaimedBy(db, e)) ||
         ((e.stmt.FailById? || e.stmt.FailExpired?) && k in FailedBy(db, e)) {
        DeadlockAborts(db, e, since, k, o);
        assert false;
      }
      PlanIsSound(db, e);
      DeadlockPassedBy(db, e, since, k, o);
      LeavesAlone(db, Plan(db, e).value, e.at, k);
      LeavesAlone(db, Plan(db, e).value, e.at, o);
    }
  }

  lemma {:induction false} DeadlockLasts(db: Db, clock: Time, events: seq<Event>, since: Time, k: Key, o: Key)
    requires Run(db, clock, events) && Unique(db.jobs) && Deadlocked(db, since, k, o)
    requires forall e | e in events :: !Resolves(e, k, o, db.jobs[k], db.jobs[o])
    ensures var end := Final(db, clock, events);
            Unique(end.jobs) && Deadlocked(end, since, k, o) && end.jobs[k] == db.jobs[k] && end.jobs[o] == db.jobs[o]
    decreases |events|
  {
    if events != [] {
      var e := events[0];
      assert e in events;
      DeadlockStays(db, e, since, k, o);
      AfterIsUnique(db, e);
      DeadlockLasts(After(db, e), e.at, events[1..], since, k, o);
    }
  }

  /** From the moment its lease expires such a job stays active and the other stays in `retry` through any run of
      claims, failure reports, sweeps, sends and anything else, until one of them is completed, cancelled or deleted by
      name; and all that time every maintenance sweep raises, recovering no lease and deleting no row of any queue. */
  lemma StatelyConflictStopsSweeps(db: Db, clock: Time, events: seq<Event>, since: Time, k: Key, o: Key,
                                   now: Time, c: Choices)
    requires Run(db, clock, events) && Unique(db.jobs) && Deadlocked(db, since, k, o) && since <= now
    requires forall e | e in events :: !Resolves(e, k, o, db.jobs[k], db.jobs[o])
    requires Legal(Final(db, clock, events), Timeout(now, c))
    ensures var end := Final(db, clock, events);
            && k in end.jobs && end.jobs[k] == db.jobs[k] && o in end.jobs && end.jobs[o] == db.jobs[o]
            && Exec(end, Timeout(now, c)).Err? && Swept(end, now, c) == end
  {
    var end := Final(db, clock, events);
    DeadlockLasts(db, clock, events, since, k, o);
    assert k in FailedBy(end, Timeout(now, c));
    DeadlockAborts(end, Timeout(now, c), since, k, o);
  }
}
