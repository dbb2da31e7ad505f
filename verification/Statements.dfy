/** What each SQL statement does to the tables: which rows it touches and how, and when it aborts. */
module Statements {
  import opened Options
  import opened Schema
  import opened Backoff
  import opened Claiming

  // ---- the SET clauses ----

  /** A SET clause; `jitter` is the value of random() for each row that draws one. */
  datatype Change =
    | Claim
    | Complete(output: Payload)
    | Fail(output: Payload, jitter: map<Key, Jitter>)
    | Cancel
    | Resume
    | Redo

  /** The state test of the WHERE clause that goes with a SET clause. */
  predicate Guard(c: Change, j: Job, now: Time) {
    match c
    case Claim => j.state.Queued() && j.startAfter <= now
    case Complete(_) => j.state.Active?
    case Fail(_, _) => j.state.Active?
    case Cancel => j.state.Rank() < Completed.Rank()
    case Resume => j.state.Cancelled?
    case Redo => j.state.Failed?
  }

  /** `_retry_or_fail_set` */
  function RetryOrFail(j: Job, output: Payload, jitter: Jitter, now: Time): Job {
    if j.retryCount < j.retryLimit then
      var wait := Pause(j.retryBackoff, j.retryDelay, j.retryDelayMax, j.retryCount, jitter);
      j.(state := Retry, startAfter := now + wait as real, completedOn := None, output := output)
    else
      j.(state := Failed, completedOn := Some(now), output := output)
  }

  function Apply(c: Change, k: Key, j: Job, now: Time): Job {
    match c
    case Claim =>
      j.(state := Active, startedOn := Some(now),
         retryCount := if j.startedOn.Some? then j.retryCount + 1 else j.retryCount)
    case Complete(output) => j.(state := Completed, completedOn := Some(now), output := output)
    case Fail(output, jitter) => RetryOrFail(j, output, if k in jitter then jitter[k] else 0.0, now)
    case Cancel => j.(state := Cancelled, completedOn := Some(now))
    case Resume => j.(state := Created, completedOn := None)
    case Redo => j.(state := Retry, retryLimit := j.retryLimit + 1)
  }

  function Touch(jobs: Jobs, c: Change, touched: set<Key>, now: Time): Jobs {
    map k | k in jobs :: if k in touched then Apply(c, k, jobs[k], now) else jobs[k]
  }

  // ---- insert_jobs ----

  /** startAfter: a timestamp ending in Z, or an interval from now. */
  datatype Start = At(time: Time) | In(seconds: real)

  /** One element of the JSON array; `id` is the id given or else the one gen_random_uuid() draws. */
  datatype Spec = Spec(
    id: Id,
    data: Payload,
    priority: Option<int>,
    startAfter: Start,
    singletonKey: Option<string>,
    singletonSeconds: Option<int>,
    singletonOffset: Option<int>,
    groupId: Option<string>,
    expireSeconds: Option<int>,
    deletionSeconds: Option<int>,
    retentionSeconds: Option<int>,
    retryLimit: Option<int>,
    retryDelay: Option<int>,
    retryBackoff: Option<bool>,
    retryDelayMax: Option<int>,
    deadLetter: Option<string>)

  /** seconds * floor((epoch + offset) / seconds), in seconds since the epoch */
  function Slot(now: Time, seconds: int, offset: int): int
    requires seconds != 0
  {
    seconds * ((now + offset as real) / seconds as real).Floor
  }

  function StartTime(s: Spec, now: Time): Time {
    match s.startAfter
    case At(t) => t
    case In(d) => now + d
  }

  function NewRow(s: Spec, q: Queue, now: Time): Job
    requires s.singletonSeconds != Some(0)
  {
    Job(
      priority := s.priority.Or(0),
      data := s.data,
      state := Created,
      retryLimit := s.retryLimit.Or(q.retryLimit),
      retryCount := 0,
      retryDelay := s.retryDelay.Or(q.retryDelay),
      retryBackoff := s.retryBackoff.Or(q.retryBackoff),
      retryDelayMax := s.retryDelayMax.OrElse(q.retryDelayMax),
      expireSeconds := s.expireSeconds.Or(q.expireSeconds),
      deletionSeconds := s.deletionSeconds.Or(q.deletionSeconds),
      singletonKey := s.singletonKey,
      singletonOn := if s.singletonSeconds.Some?
                     then Some(Slot(now, s.singletonSeconds.value, s.singletonOffset.Or(0))) else None,
      groupId := s.groupId,
      startAfter := StartTime(s, now),
      createdOn := now,
      startedOn := None,
      completedOn := None,
      keepUntil := StartTime(s, now) + s.retentionSeconds.Or(q.retentionSeconds) as real,
      output := None,
      deadLetter := s.deadLetter.OrElse(q.deadLetter),
      policy := Some(q.policy))
  }

  datatype Error = BadLimit | DivisionByZero | CheckViolation | ForeignKeyViolation | UniqueViolation

  datatype Result<+T> = Ok(value: T) | Err(error: Error)

  /** ON CONFLICT: the key is taken or a unique index holds a clashing row. */
  predicate Conflicts(jobs: Jobs, k: Key, j: Job) {
    k in jobs || exists o | o in jobs :: Clash(k, j, o, jobs[o])
  }

  /** Rows are checked and inserted one after the other; a conflicting one is skipped. */
  function Accept(jobs: Jobs, name: string, q: Queue, specs: seq<Spec>, now: Time): (r: Result<Jobs>)
    ensures r.Err? ==> r.error.DivisionByZero? || r.error.CheckViolation?
    decreases |specs|
  {
    if specs == [] then Ok(jobs)
    else if specs[0].singletonSeconds == Some(0) then Err(DivisionByZero)
    else
      var k, row := Key(name, specs[0].id), NewRow(specs[0], q, now);
      if !Checked(row) then Err(CheckViolation)
      else Accept(if Conflicts(jobs, k, row) then jobs else jobs[k := row], name, q, specs[1..], now)
  }

  // ---- route_to_dead_letter ----

  /** The row a dead-letter queue receives; every column not listed in the INSERT has its default. */
  function CopyRow(q: Queue, data: Payload, output: Payload, now: Time): Job {
    Job(
      priority := 0,
      data := data,
      state := Created,
      retryLimit := q.retryLimit,
      retryCount := 0,
      retryDelay := q.retryDelay,
      retryBackoff := q.retryBackoff,
      retryDelayMax := None,
      expireSeconds := 900,
      deletionSeconds := q.deletionSeconds,
      singletonKey := None,
      singletonOn := None,
      groupId := None,
      startAfter := now,
      createdOn := now,
      startedOn := None,
      completedOn := None,
      keepUntil := now + q.retentionSeconds as real,
      output := output,
      deadLetter := None,
      policy := None)
  }

  datatype Copy = Copy(source: Key, row: Job)

  /** The test in `_route`; the INSERT .. SELECT adds that the queue exists. */
  predicate ToRoute(queues: map<string, Queue>, j: Job) {
    j.state.Failed? && j.deadLetter.Some? && j.deadLetter.value in queues
  }

  /** `_route`: one insert for each returned row that failed and names a dead letter. */
  function Route(queues: map<string, Queue>, updated: Jobs, order: seq<Key>, uuids: seq<Id>, now: Time): map<Key, Copy>
    requires |order| <= |uuids| && forall k | k in order :: k in updated
  {
    if order == [] then map[] else
    var n := |order| - 1;
    var j := updated[order[n]];
    var before := Route(queues, updated, order[..n], uuids, now);
    if ToRoute(queues, j)
    then before[Key(j.deadLetter.value, uuids[n]) :=
                  Copy(order[n], CopyRow(queues[j.deadLetter.value], j.data, j.output, now))]
    else before
  }

  // ---- the statements ----

  /** `locked`, `jitter`, `order` and `uuids` are choices of the database: rows other transactions hold,
      random(), the order of RETURNING, and new UUIDs. */
  datatype Stmt =
    | CreateQueue(name: string, options: Queue)
    | InsertJobs(queue: string, specs: seq<Spec>)
    | FetchNext(queue: string, batch: int, cap: Option<int>, locked: set<Key>)
    | CompleteJobs(queue: string, ids: set<Id>, output: Payload)
    | FailById(queue: string, ids: set<Id>, output: Payload, jitter: map<Key, Jitter>, order: seq<Key>, uuids: seq<Id>)
    | FailExpired(jitter: map<Key, Jitter>, order: seq<Key>, uuids: seq<Id>)
    | DeleteOld
    | CancelJobs(queue: string, ids: set<Id>)
    | ResumeJobs(queue: string, ids: set<Id>)
    | RetryJobs(queue: string, ids: set<Id>)
    | DeleteJobs(queue: string, ids: set<Id>)

  datatype Event = Event(at: Time, stmt: Stmt)

  /** The tables of a new installation. */
  const NO_TABLES := Db(map[], map[])

  const TIMED_OUT: Payload := Some("{\"message\": \"job timed out\"}")

  /** name = $1 AND id IN (..) AND the state test */
  function Matching(jobs: Jobs, queue: string, ids: set<Id>, c: Change, now: Time): set<Key> {
    set k | k in jobs && k.queue == queue && k.id in ids && Guard(c, jobs[k], now)
  }

  function Named(jobs: Jobs, queue: string, ids: set<Id>): set<Key> {
    set k | k in jobs && k.queue == queue && k.id in ids
  }

  /** An active row whose lease has run out. A NULL started_on never has. */
  predicate LeaseExpired(j: Job, now: Time) {
    j.state.Active? && j.startedOn.Some? && j.startedOn.value + j.expireSeconds as real < now
  }

  function Expired(jobs: Jobs, now: Time): set<Key> {
    set k | k in jobs && LeaseExpired(jobs[k], now)
  }

  /** The WHERE clause of the retention sweep. */
  predicate TooOld(j: Job, now: Time) {
    || (j.deletionSeconds > 0 && j.completedOn.Some? && j.completedOn.value + j.deletionSeconds as real < now)
    || (j.state.Queued() && j.keepUntil < now)
  }

  function OldRows(jobs: Jobs, now: Time): set<Key> {
    set k | k in jobs && TooOld(jobs[k], now)
  }

  /** The rows a claim takes when the counts come from `counts`. */
  ghost function Claimed(jobs: Jobs, counts: map<string, nat>, queue: string, batch: nat, cap: Option<int>,
                         locked: set<Key>, now: Time): (claimed: set<Key>)
    ensures claimed <= Candidates(jobs, queue, now, locked)
  {
    var keys := Candidates(jobs, queue, now, locked);
    if cap.None? then Batch(jobs, keys, batch)
    else WithinCap(jobs, Batch(jobs, BelowCap(jobs, keys, counts, cap.value), batch), counts, cap.value)
  }

  /** The rows a fetch claims: the counts are those of the same snapshot. */
  ghost function ClaimedBy(db: Db, e: Event): (claimed: set<Key>)
    requires e.stmt.FetchNext? && e.stmt.batch >= 0
    ensures claimed <= Candidates(db.jobs, e.stmt.queue, e.at, e.stmt.locked)
  {
    Claimed(db.jobs, ActiveCounts(db.jobs, e.stmt.queue), e.stmt.queue, e.stmt.batch, e.stmt.cap, e.stmt.locked, e.at)
  }

  /** The rows a failure report or the timeout sweep fails. */
  function FailedBy(db: Db, e: Event): set<Key>
    requires e.stmt.FailById? || e.stmt.FailExpired?
  {
    match e.stmt
    case FailById(queue, ids, output, jitter, _, _) => Matching(db.jobs, queue, ids, Fail(output, jitter), e.at)
    case _ => Expired(db.jobs, e.at)
  }

  /** The effect of a statement on the tables. */
  datatype Delta =
    | Update(change: Change, touched: set<Key>, copies: map<Key, Copy>)
    | Insert(rows: Jobs)
    | Delete(gone: set<Key>)
    | Register(name: string, options: Queue)

  function CopyRows(copies: map<Key, Copy>): Jobs {
    map c | c in copies :: copies[c].row
  }

  function Patch(db: Db, d: Delta, now: Time): Db {
    match d
    case Update(c, touched, copies) =>
      db.(jobs := Touch(db.jobs, c, touched, now) + CopyRows(copies))
    case Insert(rows) => db.(jobs := db.jobs + rows)
    case Delete(gone) => db.(jobs := db.jobs - gone)
    case Register(name, q) => db.(queues := db.queues[name := q])
  }

  /** A RETURNING list: every row once, in any order. */
  predicate Listing(order: seq<Key>, rows: set<Key>) {
    && (forall i, j | 0 <= i < j < |order| :: order[i] != order[j])
    && (forall k | k in order :: k in rows)
    && (forall k | k in rows :: k in order)
  }

  /** UUIDs nobody has used. */
  predicate Fresh(jobs: Jobs, ids: seq<Id>) {
    && (forall i, j | 0 <= i < j < |ids| :: ids[i] != ids[j])
    && (forall k | k in jobs :: k.id !in ids)
  }

  /** The database's choices are possible ones. */
  predicate Legal(db: Db, e: Event) {
    match e.stmt
    case FailById(queue, ids, output, jitter, order, uuids) =>
      && Listing(order, FailedBy(db, e))
      && |order| <= |uuids| && Fresh(db.jobs, uuids)
    case FailExpired(jitter, order, uuids) =>
      && Listing(order, FailedBy(db, e))
      && |order| <= |uuids| && Fresh(db.jobs, uuids)
    case _ => true
  }

  ghost function FailDelta(db: Db, c: Change, rows: set<Key>, order: seq<Key>, uuids: seq<Id>, now: Time): Delta
    requires c.Fail? && rows <= db.jobs.Keys && Listing(order, rows) && |order| <= |uuids|
  {
    Update(c, rows, Route(db.queues, Touch(db.jobs, c, rows, now), order, uuids, now))
  }

  /** What a statement is about to do, or the error it raises before any unique index is consulted. */
  ghost function Plan(db: Db, e: Event): Result<Delta>
    requires Legal(db, e)
  {
    var jobs, now := db.jobs, e.at;
    match e.stmt
    case CreateQueue(name, q) =>
      if q.deadLetter == Some(name) then Err(CheckViolation)
      else if name in db.queues then Ok(Insert(map[]))
      else if q.deadLetter.Some? && q.deadLetter.value !in db.queues then Err(ForeignKeyViolation)
      else Ok(Register(name, q))
    case InsertJobs(queue, specs) =>
      if queue !in db.queues then Ok(Insert(map[])) else (
        match Accept(jobs, queue, db.queues[queue], specs, now)
        case Err(error) => Err(error)
        case Ok(table) =>
          var rows := table - jobs.Keys;
          if exists k | k in rows :: rows[k].deadLetter.Some? && rows[k].deadLetter.value !in db.queues
          then Err(ForeignKeyViolation) else Ok(Insert(rows))
      )
    case FetchNext(queue, batch, cap, locked) =>
      if batch < 0 then Err(BadLimit)
      else Ok(Update(Claim, ClaimedBy(db, e), map[]))
    case CompleteJobs(queue, ids, output) =>
      Ok(Update(Complete(output), Matching(jobs, queue, ids, Complete(output), now), map[]))
    case FailById(queue, ids, output, jitter, order, uuids) =>
      Ok(FailDelta(db, Fail(output, jitter), FailedBy(db, e), order, uuids, now))
    case FailExpired(jitter, order, uuids) =>
      Ok(FailDelta(db, Fail(TIMED_OUT, jitter), FailedBy(db, e), order, uuids, now))
    case DeleteOld => Ok(Delete(OldRows(jobs, now)))
    case CancelJobs(queue, ids) => Ok(Update(Cancel, Matching(jobs, queue, ids, Cancel, now), map[]))
    case ResumeJobs(queue, ids) => Ok(Update(Resume, Matching(jobs, queue, ids, Resume, now), map[]))
    case RetryJobs(queue, ids) => Ok(Update(Redo, Matching(jobs, queue, ids, Redo, now), map[]))
    case DeleteJobs(queue, ids) => Ok(Delete(Named(jobs, queue, ids)))
  }

  /** A statement or transaction that would break a unique index is rolled back whole. */
  ghost function Exec(db: Db, e: Event): Result<Delta>
    requires Legal(db, e)
  {
    match Plan(db, e)
    case Err(error) => Err(error)
    case Ok(d) => if Unique(Patch(db, d, e.at).jobs) then Ok(d) else Err(UniqueViolation)
  }

  ghost function After(db: Db, e: Event): Db
    requires Legal(db, e)
  {
    match Exec(db, e)
    case Err(_) => db
    case Ok(d) => Patch(db, d, e.at)
  }

  /** A run: statements from any number of clients, one at a time, at times that never go back. */
  ghost predicate Run(db: Db, clock: Time, events: seq<Event>)
    decreases |events|
  {
    events == [] ||
    (clock <= events[0].at && Legal(db, events[0]) && Run(After(db, events[0]), events[0].at, events[1..]))
  }

  ghost function Final(db: Db, clock: Time, events: seq<Event>): Db
    requires Run(db, clock, events)
    decreases |events|
  {
    if events == [] then db else Final(After(db, events[0]), events[0].at, events[1..])
  }
}
