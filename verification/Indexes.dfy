/** Which statements the unique partial indexes can abort, and exactly when they do. */
module Indexes {
  import opened Options
  import opened Schema
  import opened Claiming
  import opened Statements
  import opened Effects

  // ---- what each change does to a pair of rows ----

  /** Rows of one queue and policy under one key. */
  predicate SamePolicyKey(k: Key, j: Job, o: Key, jo: Job) {
    k.queue == o.queue && j.policy == jo.policy && KeyText(j) == KeyText(jo)
  }

  /** Claiming k is impossible while o stands in its way; `both` says that o is claimed with it. */
  predicate ClaimBlocked(k: Key, j: Job, o: Key, jo: Job, both: bool) {
    SamePolicyKey(k, j, o, jo) &&
    match j.policy
    case Some(Singleton) => both || jo.state.Active?
    case Some(Stately) => both || jo.state.Active?
    case Some(KeyStrictFifo) =>
      j.singletonKey.Some? && jo.singletonKey.Some? && (both || jo.state.Active? || jo.state.Retry? || jo.state.Failed?)
    case _ => false
  }

  /** A stately job cannot go back to `retry` while another with its key waits there. */
  predicate FailBlocked(k: Key, j: Job, o: Key, jo: Job) {
    SamePolicyKey(k, j, o, jo) && j.policy == Some(Stately) && j.retryCount < j.retryLimit && jo.state.Retry?
  }

  /** Resuming returns a row to the indexes on `created` rows. */
  predicate ResumeBlocked(k: Key, j: Job, o: Key, jo: Job, both: bool) {
    SamePolicyKey(k, j, o, jo) &&
    match j.policy
    case Some(Short) => both || jo.state.Created?
    case Some(Stately) => both || jo.state.Created?
    case Some(Exclusive) => both || jo.state.Rank() <= Active.Rank()
    case _ => false
  }

  /** Resuming also returns a throttled row to its slot. */
  predicate SlotBlocked(k: Key, j: Job, o: Key, jo: Job, both: bool) {
    && k.queue == o.queue && j.singletonOn.Some? && j.singletonOn == jo.singletonOn && KeyText(j) == KeyText(jo)
    && (both || !jo.state.Cancelled?)
  }

  /** Retrying by hand returns a failed row to the indexes on queued rows. */
  predicate RedoBlocked(k: Key, j: Job, o: Key, jo: Job, both: bool) {
    SamePolicyKey(k, j, o, jo) &&
    match j.policy
    case Some(Stately) => both || jo.state.Retry?
    case Some(Exclusive) => both || jo.state.Rank() <= Active.Rank()
    case _ => false
  }

  predicate PolicyBlocked(c: Change, k: Key, j: Job, o: Key, jo: Job, both: bool) {
    match c
    case Claim => ClaimBlocked(k, j, o, jo, both)
    case Fail(_, _) => FailBlocked(k, j, o, jo)
    case Resume => ResumeBlocked(k, j, o, jo, both)
    case Redo => RedoBlocked(k, j, o, jo, both)
    case _ => false
  }

  predicate Blocked(c: Change, k: Key, j: Job, o: Key, jo: Job, both: bool) {
    PolicyBlocked(c, k, j, o, jo, both) || (c.Resume? && SlotBlocked(k, j, o, jo, both))
  }

  /** The throttle index only notices a row that comes back from `cancelled`. */
  lemma SlotClashes(c: Change, k: Key, j: Job, o: Key, jo: Job, both: bool, now: Time)
    requires !Clash(k, j, o, jo) && Guard(c, j, now) && (both ==> Guard(c, jo, now))
    ensures var a, ao := Apply(c, k, j, now), if both then Apply(c, o, jo, now) else jo;
            ThrottleEntry(k, a).Some? && ThrottleEntry(k, a) == ThrottleEntry(o, ao)
            <==> c.Resume? && SlotBlocked(k, j, o, jo, both)
  {
    ColumnsKept(c, k, j, now);
    ColumnsKept(c, o, jo, now);
  }

  /** The policy indexes notice a row that enters one of their states. */
  lemma EntriesClash(c: Change, k: Key, j: Job, o: Key, jo: Job, both: bool)
    requires PolicyEntry(k, j).None? || PolicyEntry(k, j) != PolicyEntry(o, jo)
    requires Guard(c, j, j.startAfter) && (both ==> Guard(c, jo, jo.startAfter))
    ensures var mine := EntryFor(k.queue, j.policy, StateAfter(c, j), j.singletonKey);
            var other := EntryFor(o.queue, jo.policy, if both then StateAfter(c, jo) else jo.state, jo.singletonKey);
            mine.Some? && mine == other <==> PolicyBlocked(c, k, j, o, jo, both)
  {
  }

  /** For two rows the indexes accept, a change makes them clash exactly when one blocks the other. */
  lemma ClashIffBlocked(c: Change, k: Key, j: Job, o: Key, jo: Job, both: bool, now: Time)
    requires !Clash(k, j, o, jo) && Guard(c, j, now) && (both ==> Guard(c, jo, now))
    ensures Clash(k, Apply(c, k, j, now), o, if both then Apply(c, o, jo, now) else jo)
            <==> Blocked(c, k, j, o, jo, both)
  {
    SlotClashes(c, k, j, o, jo, both, now);
    EntriesClash(c, k, j, o, jo, both);
    ColumnsKept(c, k, j, now);
    StateMoves(c, k, j, now);
    ColumnsKept(c, o, jo, now);
    StateMoves(c, o, jo, now);
  }

  ghost predicate SomeBlocked(jobs: Jobs, c: Change, touched: set<Key>) {
    exists k, o | k in touched && k in jobs && o in jobs && o != k :: Blocked(c, k, jobs[k], o, jobs[o], o in touched)
  }

  lemma TouchIsUniqueIff(jobs: Jobs, c: Change, touched: set<Key>, now: Time)
    requires Unique(jobs) && forall k | k in touched :: k in jobs && Guard(c, jobs[k], now)
    ensures Unique(Touch(jobs, c, touched, now)) <==> !SomeBlocked(jobs, c, touched)
  {
    var after := Touch(jobs, c, touched, now);
    forall k, o | k in touched && o in jobs && o != k
      ensures Clash(k, after[k], o, after[o]) <==> Blocked(c, k, jobs[k], o, jobs[o], o in touched)
    {
      ClashIffBlocked(c, k, jobs[k], o, jobs[o], o in touched, now);
    }
    if !SomeBlocked(jobs, c, touched) {
      forall k, o | k in after && o in after && k != o ensures !Clash(k, after[k], o, after[o]) {
        if k !in touched && o in touched {
          assert !Clash(o, after[o], k, after[k]);
        }
      }
    } else {
      var k, o :| k in touched && k in jobs && o in jobs && o != k && Blocked(c, k, jobs[k], o, jobs[o], o in touched);
      assert Clash(k, after[k], o, after[o]);
    }
  }

  /** A dead-letter copy has no policy and no slot, so no index covers it. */
  lemma CopiesNeverClash(queues: map<string, Queue>, jobs: Jobs, copies: map<Key, Copy>)
    requires forall c | c in copies :: c !in jobs && copies[c].row.policy.None? && copies[c].row.singletonOn.None?
    ensures Unique(jobs + CopyRows(copies)) <==> Unique(jobs)
  {
    var all := jobs + CopyRows(copies);
    if Unique(all) {
      forall k, o | k in jobs && o in jobs && k != o ensures !Clash(k, jobs[k], o, jobs[o]) {
        assert all[k] == jobs[k] && all[o] == jobs[o];
      }
    }
  }

  /** An UPDATE aborts exactly when one of its rows is blocked; the copies it routes never make a difference. */
  lemma UpdateAbortsIff(db: Db, d: Delta, now: Time)
    requires Unique(db.jobs) && d.Update? && Sound(db, d, now)
    ensures Unique(Patch(db, d, now).jobs) <==> !SomeBlocked(db.jobs, d.change, d.touched)
  {
    TouchIsUniqueIff(db.jobs, d.change, d.touched, now);
    CopiesNeverClash(db.queues, Touch(db.jobs, d.change, d.touched, now), d.copies);
  }

  lemma FewerRowsStayUnique(jobs: Jobs, gone: set<Key>)
    requires Unique(jobs)
    ensures Unique(jobs - gone)
  {
  }

  // ---- what the policies promise ----

  /** Two jobs of one queue, policy and key are never both where the policy admits one. */
  predicate PolicyAdmitsBoth(j: Job, jo: Job) {
    match j.policy
    case Some(Short) => !(j.state.Created? && jo.state.Created?)
    case Some(Singleton) => !(j.state.Active? && jo.state.Active?)
    case Some(Stately) => !(j.state == jo.state && j.state.Rank() <= Active.Rank())
    case Some(Exclusive) => !(j.state.Rank() <= Active.Rank() && jo.state.Rank() <= Active.Rank())
    case Some(KeyStrictFifo) =>
      !(j.state in {Active, Retry, State.Failed} && jo.state in {Active, Retry, State.Failed})
    case _ => true
  }

  /** In every reachable state, per queue and key: at most one `created` job under short, one active under singleton,
      one in each live state under stately, one live at all under exclusive, and one active, retrying or failed under
      key_strict_fifo. */
  lemma PoliciesHold(db: Db, clock: Time, events: seq<Event>, k: Key, o: Key)
    requires Run(db, clock, events) && Consistent(db)
    requires k in Final(db, clock, events).jobs && o in Final(db, clock, events).jobs && k != o
    requires SamePolicyKey(k, Final(db, clock, events).jobs[k], o, Final(db, clock, events).jobs[o])
    ensures PolicyAdmitsBoth(Final(db, clock, events).jobs[k], Final(db, clock, events).jobs[o])
  {
    RunsStayConsistent(db, clock, events);
    var jobs := Final(db, clock, events).jobs;
    assert !Clash(k, jobs[k], o, jobs[o]);
    assert RowIsReferential(Final(db, clock, events).queues, k, jobs[k]);
    assert RowIsReferential(Final(db, clock, events).queues, o, jobs[o]);
  }

  // ---- the theorems ----

  /** From any state the indexes accept, these statements never abort. */
  lemma NeverAborts(db: Db, e: Event)
    requires Legal(db, e) && Unique(db.jobs)
    requires e.stmt.CompleteJobs? || e.stmt.CancelJobs? || e.stmt.DeleteOld? || e.stmt.DeleteJobs?
    ensures Exec(db, e).Ok?
  {
    PlanIsSound(db, e);
    var d := Plan(db, e).value;
    if d.Update? { UpdateAbortsIff(db, d, e.at); } else { FewerRowsStayUnique(db.jobs, d.gone); }
  }

  /** An insert may be refused by a CHECK, a foreign key or a zero slot width, but never by a unique index. */
  lemma InsertSkipsConflicts(db: Db, e: Event)
    requires Legal(db, e) && Unique(db.jobs) && e.stmt.InsertJobs?
    ensures Exec(db, e) != Err(UniqueViolation)
  {
    if e.stmt.queue in db.queues && Plan(db, e).Ok? {
      var table := Accept(db.jobs, e.stmt.queue, db.queues[e.stmt.queue], e.stmt.specs, e.at);
      AcceptExtends(db.jobs, e.stmt.queue, db.queues[e.stmt.queue], e.stmt.specs, e.at);
      assert Patch(db, Plan(db, e).value, e.at).jobs == table.value;
    } else if Plan(db, e).Ok? {
      assert Patch(db, Plan(db, e).value, e.at).jobs == db.jobs;
    }
  }

  /** Failing aborts exactly when a stately job with retries left meets another of its key already in `retry`. */
  lemma FailAbortsIff(db: Db, e: Event)
    requires Legal(db, e) && Unique(db.jobs) && (e.stmt.FailById? || e.stmt.FailExpired?)
    ensures Exec(db, e).Err? <==>
            exists k, o | k in FailedBy(db, e) && o in db.jobs && o != k :: FailBlocked(k, db.jobs[k], o, db.jobs[o])
  {
    PlanIsSound(db, e);
    var d := Plan(db, e).value;
    UpdateAbortsIff(db, d, e.at);
    assert d.touched == FailedBy(db, e);
    FailBlockedIff(db.jobs, d.change, d.touched);
  }

  lemma FailBlockedIff(jobs: Jobs, c: Change, touched: set<Key>)
    requires c.Fail? && touched <= jobs.Keys
    ensures SomeBlocked(jobs, c, touched)
            <==> exists k, o | k in touched && o in jobs && o != k :: FailBlocked(k, jobs[k], o, jobs[o])
  {
    if SomeBlocked(jobs, c, touched) {
      var k, o :| k in touched && k in jobs && o in jobs && o != k && Blocked(c, k, jobs[k], o, jobs[o], o in touched);
      assert FailBlocked(k, jobs[k], o, jobs[o]);
    } else {
      forall k, o | k in touched && o in jobs && o != k ensures !FailBlocked(k, jobs[k], o, jobs[o]) {
        assert !Blocked(c, k, jobs[k], o, jobs[o], o in touched);
      }
    }
  }

  /** A claim aborts exactly when it takes a row of a blocking policy whose key another row of the queue holds. */
  lemma ClaimAbortsIff(db: Db, e: Event)
    requires Legal(db, e) && Unique(db.jobs) && e.stmt.FetchNext?
    ensures Exec(db, e).Err? <==>
            || e.stmt.batch < 0
            || exists k, o | k in ClaimedBy(db, e) && o in db.jobs && o != k ::
                 ClaimBlocked(k, db.jobs[k], o, db.jobs[o], o in ClaimedBy(db, e))
  {
    if e.stmt.batch >= 0 {
      PlanIsSound(db, e);
      UpdateAbortsIff(db, Plan(db, e).value, e.at);
    }
  }

  /** Claims of standard, short, exclusive and policy-less rows always go through. */
  lemma ClaimNeverAborts(db: Db, e: Event)
    requires Legal(db, e) && Unique(db.jobs) && e.stmt.FetchNext? && e.stmt.batch >= 0
    requires forall k | k in db.jobs && k.queue == e.stmt.queue ::
               db.jobs[k].policy in {None, Some(Standard), Some(Short), Some(Exclusive)}
    ensures Exec(db, e).Ok?
  {
    ClaimAbortsIff(db, e);
  }

  lemma ReturnPlan(db: Db, e: Event, c: Change)
    requires (e.stmt.ResumeJobs? && c == Resume) || (e.stmt.RetryJobs? && c == Redo)
    ensures Plan(db, e) == Ok(Update(c, Matching(db.jobs, e.stmt.queue, e.stmt.ids, c, e.at), map[]))
  {
  }

  /** A resume or a manual retry aborts exactly when a row it returns to the queue is blocked there. */
  lemma ReturnAbortsIff(db: Db, e: Event, c: Change)
    requires Legal(db, e) && Unique(db.jobs)
    requires (e.stmt.ResumeJobs? && c == Resume) || (e.stmt.RetryJobs? && c == Redo)
    ensures var rows := Matching(db.jobs, e.stmt.queue, e.stmt.ids, c, e.at);
            Exec(db, e).Err? <==>
            exists k, o | k in rows && o in db.jobs && o != k :: Blocked(c, k, db.jobs[k], o, db.jobs[o], o in rows)
  {
    ReturnPlan(db, e, c);
    PlanIsSound(db, e);
    UpdateAbortsIff(db, Plan(db, e).value, e.at);
  }

  /** A row whose key another row holds, so that it cannot be claimed: under `singleton` and `stately` while that one is
      active, under `key_strict_fifo` also while it waits for a retry or has failed. */
  ghost predicate HeldBack(jobs: Jobs, k: Key, holder: Key)
    requires k in jobs && holder in jobs
  {
    && holder != k && SamePolicyKey(k, jobs[k], holder, jobs[holder])
    && ((jobs[k].policy in {Some(Singleton), Some(Stately)} && jobs[holder].state.Active?) ||
        (jobs[k].policy == Some(KeyStrictFifo) && jobs[holder].state in {Active, Retry, State.Failed}))
  }

  lemma HeldBackIsBlocked(db: Db, k: Key, holder: Key)
    requires Referential(db) && k in db.jobs && holder in db.jobs && holder != k
    ensures HeldBack(db.jobs, k, holder) <==> ClaimBlocked(k, db.jobs[k], holder, db.jobs[holder], false)
  {
    assert RowIsReferential(db.queues, k, db.jobs[k]) && RowIsReferential(db.queues, holder, db.jobs[holder]);
  }

  /** A held-back row at the head of the queue makes every plain fetch abort, whatever the batch size: nothing behind it
      can be claimed until its key is free. */
  lemma BlockedHeadStopsTheQueue(db: Db, e: Event, head: Key, holder: Key)
    requires Legal(db, e) && Consistent(db) && e.stmt.FetchNext? && e.stmt.cap.None? && e.stmt.batch >= 1
    requires IsFirst(db.jobs, Candidates(db.jobs, e.stmt.queue, e.at, e.stmt.locked), head)
    requires holder in db.jobs && HeldBack(db.jobs, head, holder)
    ensures Exec(db, e) == Err(UniqueViolation)
  {
    var keys := Candidates(db.jobs, e.stmt.queue, e.at, e.stmt.locked);
    FirstIsTaken(db.jobs, keys, e.stmt.batch, head);
    assert head in ClaimedBy(db, e);
    HeldBackIsBlocked(db, head, holder);
    ClaimAbortsIff(db, e);
    assert ClaimBlocked(head, db.jobs[head], holder, db.jobs[holder], holder in ClaimedBy(db, e));
  }

  /** With the default batch size of one that is the only way a plain fetch aborts. */
  lemma SingleFetchAbortsIff(db: Db, e: Event, head: Key)
    requires Legal(db, e) && Consistent(db) && e.stmt.FetchNext? && e.stmt.cap.None? && e.stmt.batch == 1
    requires IsFirst(db.jobs, Candidates(db.jobs, e.stmt.queue, e.at, e.stmt.locked), head)
    ensures Exec(db, e).Err? <==> exists holder :: holder in db.jobs && HeldBack(db.jobs, head, holder)
  {
    var keys := Candidates(db.jobs, e.stmt.queue, e.at, e.stmt.locked);
    FirstIsTaken(db.jobs, keys, 1, head);
    assert ClaimedBy(db, e) == {head};
    ClaimAbortsIff(db, e);
    forall o | o in db.jobs && o != head
      ensures HeldBack(db.jobs, head, o) <==> ClaimBlocked(head, db.jobs[head], o, db.jobs[o], o in ClaimedBy(db, e))
    {
      HeldBackIsBlocked(db, head, o);
    }
  }
}
