/** What each statement leaves in the tables, column by column. */
module Columns {
  import opened Options
  import opened Schema
  import opened Backoff
  import opened Claiming
  import opened Statements
  import opened Effects
  import opened Indexes
  import opened Sending
  import GroupCap
  import Throttle
  import Worker

  /** The row after an UPDATE that commits. */
  lemma UpdatedRow(db: Db, e: Event, k: Key)
    requires Legal(db, e) && Exec(db, e).Ok? && Exec(db, e).value.Update? && k in db.jobs
    ensures var d := Exec(db, e).value;
            && k in After(db, e).jobs
            && After(db, e).jobs[k] == if k in d.touched then Apply(d.change, k, db.jobs[k], e.at) else db.jobs[k]
  {
    PlanIsSound(db, e);
  }

  lemma NothingAdded(db: Db, e: Event)
    requires Legal(db, e) && Exec(db, e).Ok? && Exec(db, e).value.Update? && Exec(db, e).value.copies == map[]
    ensures After(db, e).jobs.Keys == db.jobs.Keys && After(db, e).queues == db.queues
  {
  }

  // ---- complete, cancel, resume, retry ----

  /** A completion completes every active row it names and touches nothing else. */
  lemma CompletionCompletes(db: Db, e: Event, k: Key)
    requires Legal(db, e) && Consistent(db) && e.stmt.CompleteJobs? && k in db.jobs
    ensures After(db, e).jobs.Keys == db.jobs.Keys && After(db, e).queues == db.queues
    ensures var row, named := db.jobs[k], k.queue == e.stmt.queue && k.id in e.stmt.ids;
            && After(db, e).jobs[k]
               == (if named && row.state.Active?
                   then row.(state := Completed, completedOn := Some(e.at), output := e.stmt.output) else row)
            && (named ==> !After(db, e).jobs[k].state.Active?)
  {
    NeverAborts(db, e);
    UpdatedRow(db, e, k);
    NothingAdded(db, e);
  }

  /** A cancel cancels every unfinished row it names and touches nothing else. */
  lemma CancelCancels(db: Db, e: Event, k: Key)
    requires Legal(db, e) && Consistent(db) && e.stmt.CancelJobs? && k in db.jobs
    ensures After(db, e).jobs.Keys == db.jobs.Keys && After(db, e).queues == db.queues
    ensures var row, named := db.jobs[k], k.queue == e.stmt.queue && k.id in e.stmt.ids;
            After(db, e).jobs[k]
            == if named && (row.state.Created? || row.state.Retry? || row.state.Active?)
               then row.(state := Cancelled, completedOn := Some(e.at)) else row
  {
    NeverAborts(db, e);
    UpdatedRow(db, e, k);
    NothingAdded(db, e);
  }

  /** A resume that commits returns every cancelled row it names, as `created`. */
  lemma ResumeResumes(db: Db, e: Event, k: Key)
    requires Legal(db, e) && e.stmt.ResumeJobs? && Exec(db, e).Ok? && k in db.jobs
    ensures After(db, e).jobs.Keys == db.jobs.Keys && After(db, e).queues == db.queues
    ensures var row, named := db.jobs[k], k.queue == e.stmt.queue && k.id in e.stmt.ids;
            After(db, e).jobs[k]
            == if named && row.state.Cancelled? then row.(state := Created, completedOn := None) else row
  {
    UpdatedRow(db, e, k);
    NothingAdded(db, e);
  }

  /** A manual retry that commits re-queues every failed row it names and allows it one more attempt. */
  lemma RetryRequeues(db: Db, e: Event, k: Key)
    requires Legal(db, e) && e.stmt.RetryJobs? && Exec(db, e).Ok? && k in db.jobs
    ensures After(db, e).jobs.Keys == db.jobs.Keys && After(db, e).queues == db.queues
    ensures var row, named := db.jobs[k], k.queue == e.stmt.queue && k.id in e.stmt.ids;
            After(db, e).jobs[k]
            == if named && row.state.Failed? then row.(state := Retry, retryLimit := row.retryLimit + 1) else row
  {
    UpdatedRow(db, e, k);
    NothingAdded(db, e);
  }

  // ---- delete and sweep ----

  /** A delete removes exactly the rows it names, whatever their state. */
  lemma DeleteDeletes(db: Db, e: Event, k: Key)
    requires Legal(db, e) && Consistent(db) && e.stmt.DeleteJobs?
    ensures k in After(db, e).jobs <==> k in db.jobs && !(k.queue == e.stmt.queue && k.id in e.stmt.ids)
    ensures k in After(db, e).jobs ==> After(db, e).jobs[k] == db.jobs[k]
    ensures After(db, e).queues == db.queues
  {
    NeverAborts(db, e);
  }

  /** The retention sweep removes exactly the rows with a completed_on past their deletion window, and those waiting
      past their retention; a deletion window of zero or less never ends. */
  lemma SweepDeletes(db: Db, e: Event, k: Key)
    requires Legal(db, e) && Consistent(db) && e.stmt.DeleteOld? && k in db.jobs
    ensures var row := db.jobs[k];
            k !in After(db, e).jobs <==>
            || (row.deletionSeconds > 0 && row.completedOn.Some?
                && e.at > row.completedOn.value + row.deletionSeconds as real)
            || ((row.state.Created? || row.state.Retry?) && e.at > row.keepUntil)
    ensures k in After(db, e).jobs ==> After(db, e).jobs[k] == db.jobs[k]
    ensures After(db, e).jobs.Keys <= db.jobs.Keys && After(db, e).queues == db.queues
  {
    NeverAborts(db, e);
  }

  // ---- claim ----

  /** A row that a plain fetch could take: waiting in its queue, due and not locked. */
  predicate Waiting(k: Key, row: Job, queue: string, now: Time, locked: set<Key>) {
    k.queue == queue && (row.state.Created? || row.state.Retry?) && row.startAfter <= now && k !in locked
  }

  /** A row as a claim leaves it: three columns are written. */
  function Taken(row: Job, now: Time): Job {
    row.(state := Active, startedOn := Some(now), retryCount := row.retryCount + if row.startedOn.Some? then 1 else 0)
  }

  lemma ClaimedRow(db: Db, e: Event, k: Key)
    requires e.stmt.FetchNext? && e.stmt.batch >= 0 && k in ClaimedBy(db, e)
    ensures Waiting(k, db.jobs[k], e.stmt.queue, e.at, e.stmt.locked)
    ensures Apply(Claim, k, db.jobs[k], e.at) == Taken(db.jobs[k], e.at)
  {
  }

  /** A committed fetch writes three columns of the rows it takes and nothing else. */
  lemma ClaimWrites(db: Db, e: Event, k: Key)
    requires Legal(db, e) && e.stmt.FetchNext? && Exec(db, e).Ok? && k in db.jobs
    ensures After(db, e).jobs.Keys == db.jobs.Keys && After(db, e).queues == db.queues
    ensures After(db, e).jobs[k] != db.jobs[k] ==>
              && Waiting(k, db.jobs[k], e.stmt.queue, e.at, e.stmt.locked)
              && After(db, e).jobs[k] == Taken(db.jobs[k], e.at)
  {
    FetchIsTouch(db, e);
    if k in ClaimedBy(db, e) { ClaimedRow(db, e, k); }
  }

  /** The rows a committed fetch takes. */
  ghost function TakenBy(db: Db, e: Event): set<Key>
    requires Legal(db, e)
  {
    set k | k in db.jobs && k in After(db, e).jobs && db.jobs[k].state != After(db, e).jobs[k].state
  }

  /** Claim order: of higher priority, else created earlier, else of a lower id. */
  predicate Before(k: Key, row: Job, o: Key, other: Job) {
    || row.priority > other.priority
    || (row.priority == other.priority && row.createdOn < other.createdOn)
    || (row.priority == other.priority && row.createdOn == other.createdOn && k.id < o.id)
  }

  /** A plain fetch passes a waiting row only when its batch is full of rows that come before it. */
  lemma PassedRowIsBehind(db: Db, e: Event, k: Key, o: Key)
    requires Legal(db, e) && e.stmt.FetchNext? && e.stmt.cap.None? && Exec(db, e).Ok?
    requires o in db.jobs && Waiting(o, db.jobs[o], e.stmt.queue, e.at, e.stmt.locked) && o !in TakenBy(db, e)
    ensures |TakenBy(db, e)| == e.stmt.batch
    ensures k in TakenBy(db, e) ==> Before(k, db.jobs[k], o, db.jobs[o])
  {
    TakenIsClaimed(db, e);
    WaitingIsCandidate(db, e, o);
    BatchIsFull(db, e, o);
    if k in ClaimedBy(db, e) { BatchIsAhead(db, e, k, o); }
  }

  lemma WaitingIsCandidate(db: Db, e: Event, o: Key)
    requires e.stmt.FetchNext? && o in db.jobs
    ensures o in Candidates(db.jobs, e.stmt.queue, e.at, e.stmt.locked)
            <==> Waiting(o, db.jobs[o], e.stmt.queue, e.at, e.stmt.locked)
  {
  }

  lemma TakenIsClaimed(db: Db, e: Event)
    requires Legal(db, e) && e.stmt.FetchNext? && Exec(db, e).Ok?
    ensures e.stmt.batch >= 0 && TakenBy(db, e) == ClaimedBy(db, e)
  {
    FetchIsTouch(db, e);
  }

  lemma BatchIsFull(db: Db, e: Event, o: Key)
    requires e.stmt.FetchNext? && e.stmt.cap.None? && e.stmt.batch >= 0 && o !in ClaimedBy(db, e)
    requires o in Candidates(db.jobs, e.stmt.queue, e.at, e.stmt.locked)
    ensures |ClaimedBy(db, e)| == e.stmt.batch
  {
    var keys := Candidates(db.jobs, e.stmt.queue, e.at, e.stmt.locked);
    TopIsFull(db.jobs, keys, e.stmt.batch);
    NotAll(ClaimedBy(db, e), keys, o);
  }

  lemma BatchIsAhead(db: Db, e: Event, k: Key, o: Key)
    requires e.stmt.FetchNext? && e.stmt.cap.None? && e.stmt.batch >= 0 && o !in ClaimedBy(db, e)
    requires o in Candidates(db.jobs, e.stmt.queue, e.at, e.stmt.locked) && k in ClaimedBy(db, e)
    ensures Before(k, db.jobs[k], o, db.jobs[o])
  {
    var keys := Candidates(db.jobs, e.stmt.queue, e.at, e.stmt.locked);
    TopIsOptimal(db.jobs, keys, e.stmt.batch);
    assert o in keys - ClaimedBy(db, e) && Ahead(db.jobs, k, o);
  }

  lemma NotAll(a: set<Key>, b: set<Key>, o: Key)
    requires a <= b && o in b && o !in a
    ensures |a| < |b|
  {
    FewerThan(a, b, o);
  }

  /** The running jobs of a group. */
  function Running(jobs: Jobs, queue: string, group: string): set<Key> {
    set k | k in jobs && k.queue == queue && jobs[k].state == Active && jobs[k].groupId == Some(group)
  }

  /** A full batch of waiting rows, each without a group or in one below its cap, that all come before a row. */
  predicate FullBatchBefore(jobs: Jobs, batch: set<Key>, e: Event, cap: int, o: Key)
    requires e.stmt.FetchNext? && o in jobs
  {
    && |batch| == e.stmt.batch
    && forall k | k in batch ::
         && k in jobs && Waiting(k, jobs[k], e.stmt.queue, e.at, e.stmt.locked) && Before(k, jobs[k], o, jobs[o])
         && (jobs[k].groupId.Some? && 0 < |Running(jobs, e.stmt.queue, jobs[k].groupId.value)| ==>
               |Running(jobs, e.stmt.queue, jobs[k].groupId.value)| < cap)
  }

  /** A capped fetch passes a waiting row only for one of three reasons: its group was at the cap before, or is at the
      cap now with rows of lower ids taken, or a full batch of rows that come before it was drawn, of which the taken
      rows are some. */
  lemma PassedByCap(db: Db, e: Event, o: Key)
    requires Legal(db, e) && e.stmt.FetchNext? && e.stmt.cap.Some? && Exec(db, e).Ok?
    requires o in db.jobs && Waiting(o, db.jobs[o], e.stmt.queue, e.at, e.stmt.locked) && o !in TakenBy(db, e)
    ensures var cap, group := e.stmt.cap.value, db.jobs[o].groupId;
            || (group.Some? && |Running(db.jobs, e.stmt.queue, group.value)| >= cap)
            || (group.Some? && |Running(After(db, e).jobs, e.stmt.queue, group.value)| >= cap
                && forall k | k in TakenBy(db, e) && db.jobs[k].groupId == group :: k.id < o.id)
            || exists batch :: TakenBy(db, e) <= batch && FullBatchBefore(db.jobs, batch, e, cap, o)
  {
    var cap, counts := e.stmt.cap.value, ActiveCounts(db.jobs, e.stmt.queue);
    var keys := Candidates(db.jobs, e.stmt.queue, e.at, e.stmt.locked);
    var open, batch := BelowCap(db.jobs, keys, counts, cap), GroupCap.BatchOf(db, e);
    TakenIsClaimed(db, e);
    WaitingIsCandidate(db, e, o);
    if o !in open {
      ClosedIsFull(db, e, o);
    } else if o in batch {
      LostToTheCap(db, e, o);
    } else {
      DrawnIsFull(db, e, o);
    }
  }

  lemma ClosedIsFull(db: Db, e: Event, o: Key)
    requires e.stmt.FetchNext? && e.stmt.cap.Some? && o in Candidates(db.jobs, e.stmt.queue, e.at, e.stmt.locked)
    requires o !in BelowCap(db.jobs, Candidates(db.jobs, e.stmt.queue, e.at, e.stmt.locked),
                            ActiveCounts(db.jobs, e.stmt.queue), e.stmt.cap.value)
    ensures db.jobs[o].groupId.Some?
    ensures |Running(db.jobs, e.stmt.queue, db.jobs[o].groupId.value)| >= e.stmt.cap.value
  {
    var group := db.jobs[o].groupId.value;
    assert Running(db.jobs, e.stmt.queue, group) == ActiveIn(db.jobs, e.stmt.queue, group);
  }

  lemma LostToTheCap(db: Db, e: Event, o: Key)
    requires Legal(db, e) && e.stmt.FetchNext? && e.stmt.cap.Some? && Exec(db, e).Ok? && e.stmt.batch >= 0
    requires o in GroupCap.BatchOf(db, e) && o !in ClaimedBy(db, e)
    ensures o in db.jobs && db.jobs[o].groupId.Some?
    ensures |Running(After(db, e).jobs, e.stmt.queue, db.jobs[o].groupId.value)| >= e.stmt.cap.value
    ensures forall k | k in ClaimedBy(db, e) && db.jobs[k].groupId == db.jobs[o].groupId :: k.id < o.id
  {
    var cap, counts, batch := e.stmt.cap.value, ActiveCounts(db.jobs, e.stmt.queue), GroupCap.BatchOf(db, e);
    GroupCap.ClaimIsWithinCap(db, e);
    assert db.jobs[o].groupId.Some?;
    var group := db.jobs[o].groupId.value;
    forall k | k in ClaimedBy(db, e) && db.jobs[k].groupId == Some(group) ensures k.id < o.id {
      KeptAreLowestIds(db.jobs, batch, counts, cap, group, k, o);
    }
    LostWasFull(db.jobs, batch, counts, cap, group, o);
    GroupTake(db.jobs, batch, counts, cap, group);
    GroupCap.CountsAreActive(db.jobs, e.stmt.queue, group);
    GroupCap.ClaimTakesExactly(db, e, group);
    assert Running(After(db, e).jobs, e.stmt.queue, group) == ActiveIn(After(db, e).jobs, e.stmt.queue, group);
  }

  lemma DrawnIsFull(db: Db, e: Event, o: Key)
    requires e.stmt.FetchNext? && e.stmt.cap.Some? && e.stmt.batch >= 0
    requires o in BelowCap(db.jobs, Candidates(db.jobs, e.stmt.queue, e.at, e.stmt.locked),
                           ActiveCounts(db.jobs, e.stmt.queue), e.stmt.cap.value)
    requires o !in GroupCap.BatchOf(db, e)
    ensures ClaimedBy(db, e) <= GroupCap.BatchOf(db, e)
    ensures FullBatchBefore(db.jobs, GroupCap.BatchOf(db, e), e, e.stmt.cap.value, o)
  {
    var keys, counts := Candidates(db.jobs, e.stmt.queue, e.at, e.stmt.locked), ActiveCounts(db.jobs, e.stmt.queue);
    var open, batch := BelowCap(db.jobs, keys, counts, e.stmt.cap.value), GroupCap.BatchOf(db, e);
    GroupCap.ClaimIsWithinCap(db, e);
    TopIsFull(db.jobs, open, e.stmt.batch);
    NotAll(batch, open, o);
    TopIsOptimal(db.jobs, open, e.stmt.batch);
    forall k | k in batch
      ensures Before(k, db.jobs[k], o, db.jobs[o])
      ensures db.jobs[k].groupId.Some? && 0 < |Running(db.jobs, e.stmt.queue, db.jobs[k].groupId.value)| ==>
                |Running(db.jobs, e.stmt.queue, db.jobs[k].groupId.value)| < e.stmt.cap.value
    {
      assert k in open && o in open - batch && Ahead(db.jobs, k, o);
      if db.jobs[k].groupId.Some? { OpenIsBelow(db, e, k); }
    }
  }

  lemma OpenIsBelow(db: Db, e: Event, k: Key)
    requires e.stmt.FetchNext? && e.stmt.cap.Some? && k in db.jobs && db.jobs[k].groupId.Some?
    requires k in BelowCap(db.jobs, Candidates(db.jobs, e.stmt.queue, e.at, e.stmt.locked),
                           ActiveCounts(db.jobs, e.stmt.queue), e.stmt.cap.value)
    ensures 0 < |Running(db.jobs, e.stmt.queue, db.jobs[k].groupId.value)| ==>
              |Running(db.jobs, e.stmt.queue, db.jobs[k].groupId.value)| < e.stmt.cap.value
  {
    var group := db.jobs[k].groupId.value;
    GroupCap.CountsAreActive(db.jobs, e.stmt.queue, group);
    assert Running(db.jobs, e.stmt.queue, group) == ActiveIn(db.jobs, e.stmt.queue, group);
  }

  // ---- fail ----

  predicate Failing(s: Stmt) { s.FailById? || s.FailExpired? }

  /** The row fails: an active row the report names, or one whose lease has run out. */
  predicate Hit(k: Key, row: Job, e: Event)
    requires Failing(e.stmt)
  {
    row.state.Active? &&
    if e.stmt.FailById? then k.queue == e.stmt.queue && k.id in e.stmt.ids
    else row.startedOn.Some? && e.at > row.startedOn.value + row.expireSeconds as real
  }

  /** The output a failure leaves. */
  function Reported(s: Stmt): Payload
    requires Failing(s)
  {
    if s.FailById? then s.output else Some("{\"message\": \"job timed out\"}")
  }

  /** The value of random() for a row. */
  function JitterOf(s: Stmt, k: Key): Jitter
    requires Failing(s)
  {
    if k in s.jitter then s.jitter[k] else 0.0
  }

  /** The full step of a backoff after n retries. */
  function FullStep(delay: int, n: nat): int { Scaled(delay, Pow2(Min(15, n))) }

  function Scaled(delay: int, factor: int): int { delay * factor }

  lemma FailureIsUpdate(db: Db, e: Event)
    requires Legal(db, e) && Failing(e.stmt) && Exec(db, e).Ok?
    ensures Exec(db, e).value.Update? && Exec(db, e).value.touched == FailedBy(db, e)
    ensures Exec(db, e).value.change == Fail(Reported(e.stmt), e.stmt.jitter)
    ensures forall k | k in db.jobs :: k in FailedBy(db, e) <==> Hit(k, db.jobs[k], e)
  {
  }

  /** A step stretched by a random factor between one and two. */
  function Stretched(step: real, jitter: Jitter): real { step * (1.0 + jitter) }

  lemma Factored(d: real, h: real, product: real, jitter: Jitter)
    requires product == d * h
    ensures Jittered(d, h, jitter) == Stretched(product, jitter)
  {
    assert d * (h + h * jitter) == product + product * jitter;
    assert product * (1.0 + jitter) == product + product * jitter;
  }

  lemma HalfPower(delay: int, n: nat, jitter: Jitter)
    ensures Uncapped(delay, n, jitter) == Jittered(delay as real, Pow2(Min(15, n)) as real, jitter)
  {
    PowHalves(n);
  }

  lemma ScaledCast(delay: int, factor: int)
    ensures Scaled(delay, factor) as real == delay as real * factor as real
  {
    ProductOfCasts(delay, factor);
  }

  lemma JitteredStep(delay: int, n: nat, jitter: Jitter)
    ensures Uncapped(delay, n, jitter) == Stretched(FullStep(delay, n) as real, jitter)
  {
    HalfPower(delay, n, jitter);
    StretchedStep(Uncapped(delay, n, jitter), delay, Pow2(Min(15, n)), jitter);
  }

  lemma StretchedStep(raw: real, delay: int, factor: int, jitter: Jitter)
    requires raw == Jittered(delay as real, factor as real, jitter)
    ensures raw == Stretched(Scaled(delay, factor) as real, jitter)
  {
    ScaledCast(delay, factor);
    Factored(delay as real, factor as real, Scaled(delay, factor) as real, jitter);
  }

  /** Held to the cap and rounded to whole seconds. */
  function Held(cap: Option<int>, raw: real): int {
    if cap.Some? && cap.value as real <= raw then cap.value else Round(raw)
  }

  lemma HeldIsRounded(cap: Option<int>, raw: real)
    ensures Round(if cap.Some? then MinReal(cap.value as real, raw) else raw) == Held(cap, raw)
  {
    if cap.Some? { RoundKeepsIntegerBounds(cap.value as real, cap.value); }
  }

  /** Seconds until the next attempt: the delay, or with backoff the stretched step. */
  function Wait(row: Job, jitter: Jitter): int {
    if !row.retryBackoff then row.retryDelay
    else Held(row.retryDelayMax, Stretched(FullStep(row.retryDelay, row.retryCount) as real, jitter))
  }

  lemma PauseIsWait(row: Job, jitter: Jitter)
    ensures Pause(row.retryBackoff, row.retryDelay, row.retryDelayMax, row.retryCount, jitter) == Wait(row, jitter)
  {
    var raw := Uncapped(row.retryDelay, row.retryCount, jitter);
    HeldIsRounded(row.retryDelayMax, raw);
    assert raw == Stretched(FullStep(row.retryDelay, row.retryCount) as real, jitter) by {
      JitteredStep(row.retryDelay, row.retryCount, jitter);
    }
  }

  /** A committed failure report or timeout sweep leaves every row it does not hit alone; an exhausted row it hits is
      failed, and any other waits in `retry`, due after its pause. Both carry the reported output. */
  lemma FailureWrites(db: Db, e: Event, k: Key)
    requires Legal(db, e) && Failing(e.stmt) && Exec(db, e).Ok? && k in db.jobs
    ensures k in After(db, e).jobs && After(db, e).queues == db.queues
    ensures var row, after := db.jobs[k], After(db, e).jobs[k];
            if !Hit(k, row, e) then after == row
            else if row.retryCount < row.retryLimit
            then after == row.(state := Retry, completedOn := None, output := Reported(e.stmt),
                               startAfter := e.at + Wait(row, JitterOf(e.stmt, k)) as real)
            else after == row.(state := State.Failed, completedOn := Some(e.at), output := Reported(e.stmt))
  {
    FailureIsUpdate(db, e);
    UpdatedRow(db, e, k);
    PauseIsWait(db.jobs[k], JitterOf(e.stmt, k));
  }

  /** So without backoff the next attempt is claimable exactly from the moment the delay is over. */
  lemma RetryComesInTime(db: Db, e: Event, k: Key, t: Time)
    requires Legal(db, e) && Failing(e.stmt) && Exec(db, e).Ok? && k in db.jobs
    requires Hit(k, db.jobs[k], e) && db.jobs[k].retryCount < db.jobs[k].retryLimit && !db.jobs[k].retryBackoff
    ensures k in After(db, e).jobs && After(db, e).jobs[k].startAfter == e.at + db.jobs[k].retryDelay as real
    ensures k in Candidates(After(db, e).jobs, k.queue, t, {}) <==> t >= e.at + db.jobs[k].retryDelay as real
  {
    FailureWrites(db, e, k);
  }

  /** And with backoff its wait lies between the full step and twice that, both held to the cap. */
  lemma BackoffStaysInWindow(db: Db, e: Event, k: Key)
    requires Legal(db, e) && Failing(e.stmt) && Exec(db, e).Ok? && k in db.jobs
    requires Hit(k, db.jobs[k], e) && db.jobs[k].retryCount < db.jobs[k].retryLimit
    requires db.jobs[k].retryBackoff && db.jobs[k].retryDelay >= 0
    ensures k in After(db, e).jobs
    ensures var step, cap := FullStep(db.jobs[k].retryDelay, db.jobs[k].retryCount), db.jobs[k].retryDelayMax;
            var wait := After(db, e).jobs[k].startAfter - e.at;
            && (if cap.Some? then Min(cap.value, step) else step) as real <= wait
            && wait <= (if cap.Some? then Min(cap.value, 2 * step) else 2 * step) as real
  {
    FailureWrites(db, e, k);
    WaitWindow(db.jobs[k], JitterOf(e.stmt, k));
  }

  lemma WaitWindow(row: Job, jitter: Jitter)
    requires row.retryBackoff && row.retryDelay >= 0
    ensures var step, cap := FullStep(row.retryDelay, row.retryCount), row.retryDelayMax;
            && (if cap.Some? then Min(cap.value, step) else step) <= Wait(row, jitter)
            && Wait(row, jitter) <= (if cap.Some? then Min(cap.value, 2 * step) else 2 * step)
  {
    PauseIsWait(row, jitter);
    DelayBounds(row.retryDelay, row.retryDelayMax, row.retryCount, jitter);
  }

  // ---- what becomes of a handler's batch ----

  /** A handler that returned has its jobs completed with what it returned; one that raised an Exception has them failed
      with that, for another attempt if they have one left. A job no longer active is left as it is. */
  lemma BatchEndsAsHandled(acts: seq<Worker.Act>, db: Db, e: Event, queue: string, k: Key)
    requires Worker.Trace(Worker.START, acts) && Worker.At(Worker.START, acts).pc.Settling?
    requires Legal(db, e) && Consistent(db) && Exec(db, e).Ok?
    requires var pc := Worker.At(Worker.START, acts).pc;
             && Worker.Settlement(queue, pc.ids, pc.report, e.stmt)
             && k in db.jobs && k.queue == queue && k.id in pc.ids
    ensures exists m ::
              Worker.HandledAt(acts, m, Worker.At(Worker.START, acts).pc.ids, Worker.At(Worker.START, acts).pc.report)
    ensures k in After(db, e).jobs
    ensures var row, after := db.jobs[k], After(db, e).jobs[k];
            var report := Worker.At(Worker.START, acts).pc.report;
            if !row.state.Active? then after == row
            else if report.Completed? then after.state.Completed? && after.output == report.output
            else after.output == report.output
                 && (if row.retryCount < row.retryLimit then after.state.Retry? else after.state.Failed?)
  {
    Worker.SettledAsHandled(acts);
    if e.stmt.CompleteJobs? { CompletionCompletes(db, e, k); } else { FailureWrites(db, e, k); }
  }

  // ---- dead letters ----

  /** A dead-letter copy of a failed row: its payload, the output of its failure, and the settings of the queue it goes
      to; every other column has its default. */
  predicate CopyOf(failed: Job, q: Queue, copy: Job, now: Time) {
    && copy.data == failed.data && copy.output == failed.output
    && copy.retryLimit == q.retryLimit && copy.retryDelay == q.retryDelay && copy.retryBackoff == q.retryBackoff
    && copy.deletionSeconds == q.deletionSeconds && copy.keepUntil == now + q.retentionSeconds as real
    && copy.state.Created? && copy.createdOn == now && copy.startAfter == now && copy.priority == 0
    && copy.retryCount == 0 && copy.retryDelayMax.None? && copy.expireSeconds == 900
    && copy.startedOn.None? && copy.completedOn.None? && copy.deadLetter.None? && copy.policy.None?
    && copy.singletonKey.None? && copy.singletonOn.None? && copy.groupId.None?
  }

  /** Every row a committed failure adds is a copy of a row it has just failed for good, with the payload that row had
      and the output that was reported, in the dead-letter queue the row names. */
  lemma CopyCarriesFailure(db: Db, e: Event, c: Key)
    requires Legal(db, e) && Failing(e.stmt) && Exec(db, e).Ok? && c in After(db, e).jobs && c !in db.jobs
    ensures c in Exec(db, e).value.copies
    ensures var k := Exec(db, e).value.copies[c].source;
            && k in db.jobs && Hit(k, db.jobs[k], e) && db.jobs[k].retryCount >= db.jobs[k].retryLimit
            && k in After(db, e).jobs && c.queue in db.queues && db.jobs[k].deadLetter == Some(c.queue)
            && CopyOf(After(db, e).jobs[k], db.queues[c.queue], After(db, e).jobs[c], e.at)
            && After(db, e).jobs[c].data == db.jobs[k].data && After(db, e).jobs[c].output == Reported(e.stmt)
  {
    AddedIsCopy(db, e, c);
    var k := Exec(db, e).value.copies[c].source;
    FailureWrites(db, e, k);
    CopyRowIsCopy(After(db, e).jobs[k], db.queues[c.queue], e.at);
  }

  lemma AddedIsCopy(db: Db, e: Event, c: Key)
    requires Legal(db, e) && Failing(e.stmt) && Exec(db, e).Ok? && c in After(db, e).jobs && c !in db.jobs
    ensures c in Exec(db, e).value.copies
    ensures var k := Exec(db, e).value.copies[c].source;
            && k in db.jobs && Hit(k, db.jobs[k], e) && k in After(db, e).jobs
            && ToRoute(db.queues, After(db, e).jobs[k]) && After(db, e).jobs[k].deadLetter == Some(c.queue)
            && After(db, e).jobs[c]
               == CopyRow(db.queues[c.queue], After(db, e).jobs[k].data, After(db, e).jobs[k].output, e.at)
  {
    PlanIsSound(db, e);
    FailureIsUpdate(db, e);
    UpdatedRow(db, e, Exec(db, e).value.copies[c].source);
  }

  lemma CopyRowIsCopy(failed: Job, q: Queue, now: Time)
    ensures CopyOf(failed, q, CopyRow(q, failed.data, failed.output, now), now)
  {
  }

  /** The copies of one row that a statement has added. */
  ghost function AddedFrom(db: Db, e: Event, k: Key): set<Key>
    requires Legal(db, e) && Exec(db, e).Ok? && Exec(db, e).value.Update?
  {
    set c | c in Exec(db, e).value.copies && c in After(db, e).jobs && c !in db.jobs
            && Exec(db, e).value.copies[c].source == k
  }

  lemma AddedAreCopies(db: Db, e: Event, k: Key)
    requires Legal(db, e) && Exec(db, e).Ok? && Exec(db, e).value.Update?
    ensures AddedFrom(db, e, k) == CopiesFrom(Exec(db, e).value.copies, k)
  {
    PlanIsSound(db, e);
  }

  /** And each such row is copied once: without a dead letter that exists, or with retries left, not at all. */
  lemma FailureIsRouted(db: Db, e: Event, k: Key)
    requires Legal(db, e) && Failing(e.stmt) && Exec(db, e).Ok? && k in db.jobs
    ensures Exec(db, e).value.Update?
    ensures var row := db.jobs[k];
            |AddedFrom(db, e, k)|
            == if Hit(k, row, e) && row.retryCount >= row.retryLimit && row.deadLetter.Some?
                  && row.deadLetter.value in db.queues then 1 else 0
  {
    PlanIsSound(db, e);
    FailureIsUpdate(db, e);
    AddedAreCopies(db, e, k);
    if Hit(k, db.jobs[k], e) { RoutedIff(db, k, e); }
  }

  lemma RoutedIff(db: Db, k: Key, e: Event)
    requires Failing(e.stmt) && k in db.jobs && Hit(k, db.jobs[k], e)
    ensures var row := db.jobs[k];
            ToRoute(db.queues, Apply(Fail(Reported(e.stmt), e.stmt.jitter), k, row, e.at))
            <==> row.retryCount >= row.retryLimit && row.deadLetter.Some? && row.deadLetter.value in db.queues
  {
  }

  // ---- insert ----

  /** A row stored for a spec: what the spec gives, and otherwise the settings of the queue. */
  predicate StoredFor(s: Spec, q: Queue, row: Job, now: Time) {
    && row.data == s.data && row.priority == (if s.priority.Some? then s.priority.value else 0)
    && row.singletonKey == s.singletonKey && row.groupId == s.groupId
    && row.startAfter == (if s.startAfter.At? then s.startAfter.time else now + s.startAfter.seconds)
    && row.retryLimit == (if s.retryLimit.Some? then s.retryLimit.value else q.retryLimit)
    && row.retryDelay == (if s.retryDelay.Some? then s.retryDelay.value else q.retryDelay)
    && row.retryBackoff == (if s.retryBackoff.Some? then s.retryBackoff.value else q.retryBackoff)
    && row.retryDelayMax == (if s.retryDelayMax.Some? then s.retryDelayMax else q.retryDelayMax)
    && row.expireSeconds == (if s.expireSeconds.Some? then s.expireSeconds.value else q.expireSeconds)
    && row.deletionSeconds == (if s.deletionSeconds.Some? then s.deletionSeconds.value else q.deletionSeconds)
    && row.deadLetter == (if s.deadLetter.Some? then s.deadLetter else q.deadLetter)
    && row.keepUntil - row.startAfter
       == (if s.retentionSeconds.Some? then s.retentionSeconds.value else q.retentionSeconds) as real
    && row.policy == Some(q.policy) && row.createdOn == now
    && row.state.Created? && row.retryCount == 0 && row.startedOn.None? && row.completedOn.None? && row.output.None?
    && (row.singletonOn.Some? <==> s.singletonSeconds.Some?)
    && (s.singletonSeconds.Some? && s.singletonSeconds.value > 0 ==>
          var late := now + (if s.singletonOffset.Some? then s.singletonOffset.value else 0) as real;
          && row.singletonOn.value % s.singletonSeconds.value == 0
          && row.singletonOn.value as real <= late < (row.singletonOn.value + s.singletonSeconds.value) as real)
  }

  lemma NewRowIsStored(s: Spec, q: Queue, now: Time)
    requires s.singletonSeconds != Some(0)
    ensures StoredFor(s, q, NewRow(s, q, now), now)
  {
    if s.singletonSeconds.Some? && s.singletonSeconds.value > 0 {
      Throttle.SlotWindow(now, s.singletonSeconds.value, s.singletonOffset.Or(0));
      Throttle.SlotIsMultiple(now, s.singletonSeconds.value, s.singletonOffset.Or(0));
    }
  }

  /** Each row of the table is an old one or stored for one of the specs. */
  ghost predicate StoredForOne(specs: seq<Spec>, q: Queue, k: Key, row: Job, now: Time) {
    exists s :: s in specs && s.id == k.id && StoredFor(s, q, row, now)
  }

  lemma {:induction false} AcceptedAreStored(jobs: Jobs, name: string, q: Queue, specs: seq<Spec>, now: Time)
    requires Accept(jobs, name, q, specs, now).Ok?
    ensures var table := Accept(jobs, name, q, specs, now).value;
            && (forall k | k in table && k !in jobs :: k.queue == name && StoredForOne(specs, q, k, table[k], now))
            && (forall s | s in specs :: Key(name, s.id) in table || exists o, row ::
                  o in table && StoredFor(s, q, row, now) && Clash(Key(name, s.id), row, o, table[o]))
    decreases |specs|
  {
    if specs != [] {
      var s, rest := specs[0], specs[1..];
      var k, row := Key(name, s.id), NewRow(s, q, now);
      var more := if Conflicts(jobs, k, row) then jobs else jobs[k := row];
      NewRowIsStored(s, q, now);
      AcceptExtends(more, name, q, rest, now);
      AcceptedAreStored(more, name, q, rest, now);
      var table := Accept(jobs, name, q, specs, now).value;
      forall n | n in table && n !in jobs ensures n.queue == name && StoredForOne(specs, q, n, table[n], now) {
        if n in more {
          assert n == k && table[n] == row && s in specs;
        } else {
          var r :| r in rest && r.id == n.id && StoredFor(r, q, table[n], now);
          assert r in specs;
        }
      }
      if k !in more {
        var o :| o in jobs && Clash(k, row, o, jobs[o]);
        assert o in table && table[o] == jobs[o];
      }
      assert forall r | r in specs :: r == s || r in rest;
    }
  }

  /** A committed insert keeps every row; each row it adds holds what one of the specs asked for; and a spec it does not
      add is a duplicate, by its id or in a unique index. */
  lemma InsertStores(db: Db, e: Event)
    requires Legal(db, e) && Unique(db.jobs) && e.stmt.InsertJobs? && Exec(db, e).Ok? && e.stmt.queue in db.queues
    ensures var after, q := After(db, e).jobs, db.queues[e.stmt.queue];
            && After(db, e).queues == db.queues
            && (forall k | k in db.jobs :: k in after && after[k] == db.jobs[k])
            && (forall k | k in after && k !in db.jobs ::
                  k.queue == e.stmt.queue && StoredForOne(e.stmt.specs, q, k, after[k], e.at))
            && (forall s | s in e.stmt.specs :: Key(e.stmt.queue, s.id) in after || exists o, row ::
                  o in after && StoredFor(s, q, row, e.at) && Clash(Key(e.stmt.queue, s.id), row, o, after[o]))
  {
    InsertIsAccept(db, e);
    AcceptExtends(db.jobs, e.stmt.queue, db.queues[e.stmt.queue], e.stmt.specs, e.at);
    AcceptedAreStored(db.jobs, e.stmt.queue, db.queues[e.stmt.queue], e.stmt.specs, e.at);
  }

  /** To a queue that does not exist nothing is sent. */
  lemma UnknownQueueStoresNothing(db: Db, e: Event)
    requires Legal(db, e) && e.stmt.InsertJobs? && e.stmt.queue !in db.queues
    ensures After(db, e) == db
  {
    assert db.jobs + map[] == db.jobs;
  }

  /** The options of a send reach its row; what a send cannot set comes from the queue. */
  lemma SendStoresOptions(id: Id, data: Payload, o: SendOptions, q: Queue, row: Job, now: Time)
    requires StoredFor(JobPayload(id, data, o), q, row, now)
    ensures row.data == data && row.priority == o.priority && row.singletonKey == o.singletonKey
    ensures row.groupId == o.groupId
    ensures row.startAfter == (if o.startAfter.None? then now
                               else if o.startAfter.value.At? then o.startAfter.value.time
                               else now + o.startAfter.value.seconds)
    ensures row.retryLimit == (if o.retryLimit.Some? then o.retryLimit.value else q.retryLimit)
    ensures row.retryDelay == (if o.retryDelay.Some? then o.retryDelay.value else q.retryDelay)
    ensures row.retryBackoff == (if o.retryBackoff.Some? then o.retryBackoff.value else q.retryBackoff)
    ensures row.expireSeconds == (if o.expireSeconds.Some? then o.expireSeconds.value else q.expireSeconds)
    ensures row.deadLetter == (if o.deadLetter.Some? then o.deadLetter else q.deadLetter)
    ensures row.retryDelayMax == q.retryDelayMax && row.deletionSeconds == q.deletionSeconds
    ensures row.keepUntil == row.startAfter + q.retentionSeconds as real
    ensures row.singletonOn.Some? <==> o.singletonSeconds.Some?
  {
  }

  /** A plain send to a queue created with nothing but a policy: three attempts without delay, a lease of a quarter of
      an hour, kept for two weeks while it waits and for one after it ends. */
  lemma DefaultSend(id: Id, data: Payload, policy: Policy, row: Job, now: Time)
    requires StoredFor(JobPayload(id, data, DEFAULTS), QueueWith(policy), row, now)
    ensures row.retryLimit == 2 && row.retryDelay == 0 && !row.retryBackoff && row.retryDelayMax.None?
    ensures row.expireSeconds == 15 * 60 && row.deletionSeconds == 7 * 24 * 60 * 60
    ensures row.startAfter == now && row.keepUntil == now + (14 * 24 * 60 * 60) as real
    ensures row.priority == 0 && row.singletonKey.None? && row.singletonOn.None? && row.groupId.None?
    ensures row.deadLetter.None? && row.policy == Some(policy)
  {
  }

  // ---- the unique indexes ----

  /** Two rows that the six partial indexes cannot hold together, by their columns. */
  predicate CannotCoexist(k: Key, a: Job, o: Key, b: Job) {
    var sameKey := k.queue == o.queue && a.singletonKey.Or("") == b.singletonKey.Or("");
    var live := {Created, Retry, Active};
    && sameKey
    && (|| (a.policy == b.policy == Some(Short) && a.state == b.state == Created)
        || (a.policy == b.policy == Some(Singleton) && a.state == b.state == Active)
        || (a.policy == b.policy == Some(Stately) && a.state == b.state && a.state in live)
        || (a.policy == b.policy == Some(Exclusive) && a.state in live && b.state in live)
        || (a.policy == b.policy == Some(KeyStrictFifo) && a.singletonKey.Some? && b.singletonKey.Some?
            && a.state in {Active, Retry, State.Failed} && b.state in {Active, Retry, State.Failed})
        || (a.singletonOn.Some? && a.singletonOn == b.singletonOn && a.state != Cancelled && b.state != Cancelled))
  }

  /** The index entries clash exactly then. */
  lemma ClashIffColumns(k: Key, a: Job, o: Key, b: Job)
    ensures Clash(k, a, o, b) <==> CannotCoexist(k, a, o, b)
  {
  }

  // ---- create_queue ----

  /** A new queue is stored as asked if its dead letter is another queue that exists, an old one is left alone, and
      anything else is refused. */
  lemma QueueIsStored(db: Db, e: Event)
    requires Legal(db, e) && Consistent(db) && e.stmt.CreateQueue?
    ensures var name, q, after := e.stmt.name, e.stmt.options, After(db, e);
            && after.jobs == db.jobs
            && (forall o | o in db.queues :: o in after.queues && after.queues[o] == db.queues[o])
            && (forall o | o in after.queues :: o in db.queues || o == name)
            && (name !in db.queues ==>
                  && (name in after.queues
                      <==> q.deadLetter.None? || (q.deadLetter.value != name && q.deadLetter.value in db.queues))
                  && (name in after.queues ==> after.queues[name] == q))
            && (Exec(db, e).Err?
                <==> q.deadLetter.Some? && (q.deadLetter.value == name ||
                                            (name !in db.queues && q.deadLetter.value !in db.queues)))
  {
    assert db.jobs + map[] == db.jobs;
  }

  // ---- what stays for good ----

  /** The row stays in the table. */
  ghost predicate Stays(db: Db, clock: Time, events: seq<Event>, k: Key)
    requires Run(db, clock, events)
    decreases |events|
  {
    k in db.jobs && (events == [] || Stays(After(db, events[0]), events[0].at, events[1..], k))
  }

  /** Columns no statement ever writes again. */
  predicate SameOrder(a: Job, b: Job) {
    && a.data == b.data && a.priority == b.priority && a.singletonKey == b.singletonKey
        && a.singletonOn == b.singletonOn
    && a.groupId == b.groupId && a.createdOn == b.createdOn && a.keepUntil == b.keepUntil
    && a.expireSeconds == b.expireSeconds && a.deletionSeconds == b.deletionSeconds && a.retryDelay == b.retryDelay
    && a.retryBackoff == b.retryBackoff && a.retryDelayMax == b.retryDelayMax
    && a.deadLetter == b.deadLetter && a.policy == b.policy
  }

  lemma StepKeepsOrder(db: Db, e: Event, k: Key)
    requires Legal(db, e) && k in db.jobs && k in After(db, e).jobs
    ensures SameOrder(db.jobs[k], After(db, e).jobs[k])
  {
    if Exec(db, e).Ok? {
      PlanIsSound(db, e);
      var d := Exec(db, e).value;
      if d.Update? {
        UpdatedRow(db, e, k);
        ColumnsKept(d.change, k, db.jobs[k], e.at);
      }
    }
  }

  /** Through every run, until a job is deleted, its payload and its order are what was stored. */
  lemma {:induction false} OrderIsKept(db: Db, clock: Time, events: seq<Event>, k: Key)
    requires Run(db, clock, events) && Stays(db, clock, events, k)
    ensures k in Final(db, clock, events).jobs && SameOrder(db.jobs[k], Final(db, clock, events).jobs[k])
    decreases |events|
  {
    if events != [] {
      StepKeepsOrder(db, events[0], k);
      OrderIsKept(After(db, events[0]), events[0].at, events[1..], k);
    }
  }

  /** So what is sent is what is handed out: the payload of an accepted send is still there after any run, unchanged. */
  lemma PayloadRoundTrip(db: Db, id: Id, queue: string, data: Payload, o: SendOptions, sent: Time, events: seq<Event>)
    requires Consistent(db) && queue in db.queues && Key(queue, id) !in db.jobs
    requires var e := Event(sent, InsertJobs(queue, [JobPayload(id, data, o)]));
             && Key(queue, id) in After(db, e).jobs
             && Run(After(db, e), sent, events) && Stays(After(db, e), sent, events, Key(queue, id))
    ensures var e := Event(sent, InsertJobs(queue, [JobPayload(id, data, o)]));
            var end := Final(After(db, e), sent, events).jobs;
            Key(queue, id) in end && end[Key(queue, id)].data == data
  {
    var e := Event(sent, InsertJobs(queue, [JobPayload(id, data, o)]));
    InsertStores(db, e);
    OrderIsKept(After(db, e), sent, events, Key(queue, id));
  }
}
