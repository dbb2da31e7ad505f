/** How firmly a worker holds what it claimed, and what a cancel undone by a resume restores. */
module Holding {
  import opened Options
  import opened Schema
  import opened Statements
  import opened Effects
  import opened Indexes

  predicate Names(s: Stmt, k: Key) {
    match s
    case CompleteJobs(queue, ids, _) => queue == k.queue && k.id in ids
    case FailById(queue, ids, _, _, _, _) => queue == k.queue && k.id in ids
    case CancelJobs(queue, ids) => queue == k.queue && k.id in ids
    case DeleteJobs(queue, ids) => queue == k.queue && k.id in ids
    case _ => false
  }

  /** A report, cancel or delete names the job, or a sweep finds its lease or its row expired. */
  predicate Disturbs(e: Event, k: Key, j: Job) {
    || Names(e.stmt, k)
    || (e.stmt.FailExpired? && LeaseExpired(j, e.at))
    || (e.stmt.DeleteOld? && TooOld(j, e.at))
  }

  /** Nothing else any client does can touch a job somebody is working on. */
  lemma OnlyDisturbersTouch(db: Db, e: Event, k: Key)
    requires Legal(db, e) && k in db.jobs && db.jobs[k].state.Active? && !Disturbs(e, k, db.jobs[k])
    ensures k in After(db, e).jobs && After(db, e).jobs[k] == db.jobs[k]
  {
    if Exec(db, e).Ok? {
      PlanIsSound(db, e);
      PassesBy(db, e, k);
      LeavesAlone(db, Plan(db, e).value, e.at, k);
    }
  }

  /** The rows a statement's effect changes or removes. */
  function Affected(d: Delta): set<Key> {
    match d
    case Update(_, touched, _) => touched
    case Delete(gone) => gone
    case _ => {}
  }

  lemma PassesBy(db: Db, e: Event, k: Key)
    requires Legal(db, e) && k in db.jobs && db.jobs[k].state.Active? && !Disturbs(e, k, db.jobs[k]) && Plan(db, e).Ok?
    ensures k !in Affected(Plan(db, e).value)
  {
  }

  lemma LeavesAlone(db: Db, d: Delta, now: Time, k: Key)
    requires Sound(db, d, now) && k in db.jobs && k !in Affected(d)
    ensures k in Patch(db, d, now).jobs && Patch(db, d, now).jobs[k] == db.jobs[k]
  {
  }

  lemma {:induction false} UndisturbedRun(db: Db, clock: Time, events: seq<Event>, k: Key)
    requires Run(db, clock, events) && k in db.jobs && db.jobs[k].state.Active?
    requires forall e | e in events :: !Disturbs(e, k, db.jobs[k])
    ensures k in Final(db, clock, events).jobs && Final(db, clock, events).jobs[k] == db.jobs[k]
    decreases |events|
  {
    if events != [] {
      assert events[0] in events;
      OnlyDisturbersTouch(db, events[0], k);
      UndisturbedRun(After(db, events[0]), events[0].at, events[1..], k);
    }
  }

  /** A claimed job stays claimed for its whole lease: whatever other claims, sweeps, reports and sends run meanwhile,
      while nobody names it, the lease lasts and no retention sweep finds it too old it is neither claimed again nor
      failed nor deleted. And no retention sweep ever does, unless it was retried by hand and so carries a
      completed_on. */
  lemma LeaseHolds(db: Db, fetch: Event, events: seq<Event>, k: Key)
    requires Legal(db, fetch) && fetch.stmt.FetchNext? && Exec(db, fetch).Ok? && k in db.jobs
    requires k in Exec(db, fetch).value.touched && Run(After(db, fetch), fetch.at, events)
    requires forall e | e in events ::
               && !Names(e.stmt, k) && (e.stmt.FailExpired? ==> e.at <= fetch.at + db.jobs[k].expireSeconds as real)
               && (e.stmt.DeleteOld? && db.jobs[k].completedOn.Some? ==>
                   !TooOld(Apply(Claim, k, db.jobs[k], fetch.at), e.at))
    ensures k in After(db, fetch).jobs && After(db, fetch).jobs[k].state.Active?
    ensures k in Final(After(db, fetch), fetch.at, events).jobs
            && Final(After(db, fetch), fetch.at, events).jobs[k] == After(db, fetch).jobs[k]
  {
    FetchIsTouch(db, fetch);
    UndisturbedRun(After(db, fetch), fetch.at, events, k);
  }

  lemma TimeoutTakes(db: Db, sweep: Event, k: Key)
    requires sweep.stmt.FailExpired? && Legal(db, sweep) && Exec(db, sweep).Ok? && k in db.jobs
    requires db.jobs[k].state.Active?
    ensures k in After(db, sweep).jobs
    ensures After(db, sweep).jobs[k].state.Active? <==> !LeaseExpired(db.jobs[k], sweep.at)
  {
    PlanIsSound(db, sweep);
    FailedUnlessLeft(db, Plan(db, sweep).value, sweep.at, k);
  }

  lemma FailedUnlessLeft(db: Db, d: Delta, now: Time, k: Key)
    requires Sound(db, d, now) && d.Update? && d.change.Fail? && k in db.jobs && db.jobs[k].state.Active?
    ensures k in Patch(db, d, now).jobs
    ensures Patch(db, d, now).jobs[k].state.Active? <==> k !in d.touched
  {
    StateMoves(d.change, k, db.jobs[k], now);
  }

  lemma LeaseOfClaim(db: Db, fetch: Event, k: Key, now: Time)
    requires fetch.stmt.FetchNext? && Exec(db, fetch).Ok? && k in db.jobs && k in Exec(db, fetch).value.touched
    ensures k in After(db, fetch).jobs && After(db, fetch).jobs[k].state.Active?
    ensures LeaseExpired(After(db, fetch).jobs[k], now) <==> now > fetch.at + db.jobs[k].expireSeconds as real
  {
    FetchIsTouch(db, fetch);
  }

  /** And not a moment longer: the first timeout sweep after that fails it, unless the sweep is rolled back. */
  lemma LeaseEnds(db: Db, fetch: Event, sweep: Event, k: Key)
    requires fetch.stmt.FetchNext? && Exec(db, fetch).Ok? && k in db.jobs && k in Exec(db, fetch).value.touched
    requires sweep.stmt.FailExpired? && Legal(After(db, fetch), sweep) && Exec(After(db, fetch), sweep).Ok?
    ensures k in After(After(db, fetch), sweep).jobs
    ensures After(After(db, fetch), sweep).jobs[k].state.Active?
            <==> sweep.at <= fetch.at + db.jobs[k].expireSeconds as real
  {
    LeaseOfClaim(db, fetch, k, sweep.at);
    TimeoutTakes(After(db, fetch), sweep, k);
  }

  // ---- retention of jobs retried by hand ----

  lemma SweepTakes(db: Db, sweep: Event, k: Key)
    requires Unique(db.jobs) && sweep.stmt.DeleteOld? && k in db.jobs
    ensures k in After(db, sweep).jobs <==> !TooOld(db.jobs[k], sweep.at)
  {
    NeverAborts(db, sweep);
  }

  lemma RetryKeepsCompletedOn(db: Db, retry: Event, k: Key)
    requires retry.stmt.RetryJobs? && retry.stmt.queue == k.queue && k.id in retry.stmt.ids && Exec(db, retry).Ok?
    requires k in db.jobs && db.jobs[k].state.Failed?
    ensures k in After(db, retry).jobs && After(db, retry).jobs[k] == Apply(Redo, k, db.jobs[k], retry.at)
  {
    NoCopies(db, Redo, Matching(db.jobs, retry.stmt.queue, retry.stmt.ids, Redo, retry.at), retry.at);
  }

  /** What a claim leaves of a row. */
  lemma ClaimKeepsCompletedOn(db: Db, fetch: Event, k: Key)
    requires fetch.stmt.FetchNext? && Exec(db, fetch).Ok? && k in db.jobs && k in Exec(db, fetch).value.touched
    ensures k in After(db, fetch).jobs && After(db, fetch).jobs[k] == Apply(Claim, k, db.jobs[k], fetch.at)
  {
    FetchIsTouch(db, fetch);
  }

  lemma RetriedRow(k: Key, j: Job, retried: Time, claimed: Time, now: Time)
    requires j.state.Failed? && j.completedOn.Some? && j.deletionSeconds > 0
    ensures var queued := Apply(Redo, k, j, retried);
            var running := Apply(Claim, k, queued, claimed);
            var deadline := j.completedOn.value + j.deletionSeconds as real;
            && queued.state.Retry? && (TooOld(queued, now) <==> now > deadline || now > j.keepUntil)
            && running.state.Active? && (TooOld(running, now) <==> now > deadline)
  {
  }

  lemma AfterIsUnique(db: Db, e: Event)
    requires Legal(db, e) && Unique(db.jobs)
    ensures Unique(After(db, e).jobs)
  {
  }

  /** A manual retry leaves completed_on behind, so a failed job is swept away as soon as its deletion window is over,
      even while it is queued again, and even while it is running again. */
  lemma RetriedJobsAreSwept(db: Db, retry: Event, fetch: Event, sweep: Event, k: Key)
    requires retry.stmt.RetryJobs? && retry.stmt.queue == k.queue && k.id in retry.stmt.ids && Exec(db, retry).Ok?
    requires Unique(db.jobs) && k in db.jobs && db.jobs[k].state.Failed? && db.jobs[k].completedOn.Some?
    requires db.jobs[k].deletionSeconds > 0 && sweep.stmt.DeleteOld?
    requires fetch.stmt.FetchNext? && Exec(After(db, retry), fetch).Ok?
    requires k in Exec(After(db, retry), fetch).value.touched
    ensures var queued, running := After(db, retry), After(After(db, retry), fetch);
            var deadline := db.jobs[k].completedOn.value + db.jobs[k].deletionSeconds as real;
            && k in queued.jobs && queued.jobs[k].state.Retry?
            && (k in After(queued, sweep).jobs <==> sweep.at <= deadline && sweep.at <= db.jobs[k].keepUntil)
            && k in running.jobs && running.jobs[k].state.Active?
            && (k in After(running, sweep).jobs <==> sweep.at <= deadline)
  {
    RetryKeepsCompletedOn(db, retry, k);
    AfterIsUnique(db, retry);
    ClaimKeepsCompletedOn(After(db, retry), fetch, k);
    AfterIsUnique(After(db, retry), fetch);
    RetriedRow(k, db.jobs[k], retry.at, fetch.at, sweep.at);
    SweepTakes(After(db, retry), sweep, k);
    SweepTakes(After(After(db, retry), fetch), sweep, k);
  }

  // ---- cancel and resume ----


  /** Rows that a cancel followed by a resume leaves as they were. */
  predicate Restorable(j: Job) {
    if j.state.Finished() then !j.state.Cancelled? else j.state.Created? && j.completedOn.None?
  }

  lemma RestoredRow(k: Key, j: Job, named: bool, t1: Time, t2: Time)
    ensures var middle := if named && Guard(Cancel, j, t1) then Apply(Cancel, k, j, t1) else j;
            var end := if named && Guard(Resume, middle, t2) then Apply(Resume, k, middle, t2) else middle;
            end == j <==> (named ==> Restorable(j))
  {
  }

  function CancelTable(jobs: Jobs, queue: string, ids: set<Id>, now: Time): Jobs {
    Touch(jobs, Cancel, Matching(jobs, queue, ids, Cancel, now), now)
  }

  function ResumeTable(jobs: Jobs, queue: string, ids: set<Id>, now: Time): Jobs {
    Touch(jobs, Resume, Matching(jobs, queue, ids, Resume, now), now)
  }

  lemma RestoredTable(jobs: Jobs, queue: string, ids: set<Id>, t1: Time, t2: Time)
    ensures ResumeTable(CancelTable(jobs, queue, ids, t1), queue, ids, t2) == jobs
            <==> forall k | k in Named(jobs, queue, ids) :: Restorable(jobs[k])
  {
    var back := ResumeTable(CancelTable(jobs, queue, ids, t1), queue, ids, t2);
    forall k | k in jobs
      ensures back[k] == jobs[k] <==> (k in Named(jobs, queue, ids) ==> Restorable(jobs[k]))
    {
      RestoredRow(k, jobs[k], k in Named(jobs, queue, ids), t1, t2);
    }
    if forall k | k in Named(jobs, queue, ids) :: Restorable(jobs[k]) { assert back == jobs; }
  }

  lemma CancelIsTable(db: Db, queue: string, ids: set<Id>, now: Time)
    requires Unique(db.jobs)
    ensures After(db, Event(now, CancelJobs(queue, ids))) == db.(jobs := CancelTable(db.jobs, queue, ids, now))
  {
    NeverAborts(db, Event(now, CancelJobs(queue, ids)));
    NoCopies(db, Cancel, Matching(db.jobs, queue, ids, Cancel, now), now);
  }

  lemma ResumeIsTable(db: Db, queue: string, ids: set<Id>, now: Time)
    ensures var e := Event(now, ResumeJobs(queue, ids));
            && (Exec(db, e).Ok? <==> Unique(ResumeTable(db.jobs, queue, ids, now)))
            && After(db, e) == if Exec(db, e).Ok? then db.(jobs := ResumeTable(db.jobs, queue, ids, now)) else db
  {
    NoCopies(db, Resume, Matching(db.jobs, queue, ids, Resume, now), now);
  }

  /** Resuming what was cancelled restores the tables exactly when every unfinished row named was `created`, and no
      row named had been cancelled before; a row that was active or waiting for a retry comes back as `created`. */
  lemma CancelThenResume(db: Db, queue: string, ids: set<Id>, t1: Time, t2: Time)
    requires Unique(db.jobs)
    ensures var middle := After(db, Event(t1, CancelJobs(queue, ids)));
            var resume := Event(t2, ResumeJobs(queue, ids));
            After(middle, resume) == db && Exec(middle, resume).Ok?
            <==> forall k | k in Named(db.jobs, queue, ids) :: Restorable(db.jobs[k])
  {
    CancelIsTable(db, queue, ids, t1);
    ResumeIsTable(After(db, Event(t1, CancelJobs(queue, ids))), queue, ids, t2);
    RestoredTable(db.jobs, queue, ids, t1, t2);
  }
}
