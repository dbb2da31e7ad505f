/** The life of each job over whole runs: how often it is claimed, settled, failed, copied and retained. */
module Lifecycle {
  import opened Options
  import opened Schema
  import opened Backoff
  import opened Statements
  import opened Effects

  /** What has happened to a row since it was inserted. `limit0` is its retry_limit then; `resumes` counts only
      resumes of a job that had been claimed before. */
  datatype Tally = Tally(
    limit0: int,
    claims: nat,
    ends: nat,
    completions: nat,
    failures: nat,
    routed: nat,
    copies: nat,
    retries: nat,
    resumes: nat,
    firstFail: Option<Time>)

  datatype World = World(db: Db, tallies: map<Key, Tally>)

  function Birth(j: Job): Tally {
    Tally(j.retryLimit, 0, 0, 0, 0, 0, 0, 0, 0, None)
  }

  function Count(c: Change, j: Job, t: Tally, now: Time): Tally {
    match c
    case Claim => t.(claims := t.claims + 1)
    case Complete(_) => t.(ends := t.ends + 1, completions := t.completions + 1)
    case Fail(_, _) =>
      var out := StateAfter(c, j).Failed?;
      t.(ends := t.ends + 1,
         firstFail := Some(t.firstFail.Or(now)),
         failures := t.failures + if out then 1 else 0,
         routed := t.routed + if out && j.deadLetter.Some? then 1 else 0)
    case Cancel => if j.state.Active? then t.(ends := t.ends + 1) else t
    case Resume => if j.startedOn.Some? then t.(resumes := t.resumes + 1) else t
    case Redo => t.(retries := t.retries + 1)
  }

  /** The tally of one row after an effect; copies are counted as they are inserted. */
  function TallyOf(w: World, d: Delta, k: Key, row: Job, now: Time): Tally
    requires k in w.db.jobs ==> k in w.tallies
  {
    if k !in w.db.jobs then Birth(row)
    else if !d.Update? then w.tallies[k]
    else
      var t := if k in d.touched then Count(d.change, w.db.jobs[k], w.tallies[k], now) else w.tallies[k];
      t.(copies := t.copies + |CopiesFrom(d.copies, k)|)
  }

  function Recount(w: World, d: Delta, now: Time): map<Key, Tally>
    requires w.tallies.Keys == w.db.jobs.Keys
  {
    var jobs := Patch(w.db, d, now).jobs;
    map k | k in jobs :: TallyOf(w, d, k, jobs[k], now)
  }

  ghost function Next(w: World, e: Event): (after: World)
    requires Legal(w.db, e) && w.tallies.Keys == w.db.jobs.Keys
    ensures after.db == After(w.db, e) && after.tallies.Keys == after.db.jobs.Keys
  {
    match Exec(w.db, e)
    case Err(_) => w
    case Ok(d) => World(Patch(w.db, d, e.at), Recount(w, d, e.at))
  }

  ghost function Follow(w: World, clock: Time, events: seq<Event>): (end: World)
    requires Run(w.db, clock, events) && w.tallies.Keys == w.db.jobs.Keys
    ensures end.db == Final(w.db, clock, events) && end.tallies.Keys == end.db.jobs.Keys
    decreases |events|
  {
    if events == [] then w else Follow(Next(w, events[0]), events[0].at, events[1..])
  }

  const EMPTY := World(NO_TABLES, map[])

  /** The time of the last statement of a run. */
  function Clock(clock: Time, events: seq<Event>): Time {
    if events == [] then clock else events[|events| - 1].at
  }

  // ---- the invariants of a single job ----

  /** Each claim ends at most once, and only an active job has a claim that has not ended. */
  predicate Settled(j: Job, t: Tally) {
    && t.claims == t.ends + (if j.state.Active? then 1 else 0)
    && t.completions == (if j.state.Completed? then 1 else 0)
    && t.failures == t.retries + (if j.state.Failed? then 1 else 0)
    && t.copies == t.routed <= t.failures
  }

  /** The attempts a job may have made: its own, and one for each manual retry or resume. */
  function Budget(t: Tally): int {
    1 + Max(0, t.limit0) + t.retries + t.resumes
  }

  predicate Counted(j: Job, t: Tally) {
    && j.retryCount == Max(0, t.claims - 1)
    && (j.startedOn.Some? <==> t.claims > 0)
    && j.retryLimit == t.limit0 + t.retries
    && t.claims + (if j.state.Retry? || (j.state.Created? && t.claims > 0) then 1 else 0) <= Budget(t)
  }

  /** Without manual retries, completed_on marks exactly the finished jobs. */
  predicate Marked(j: Job, t: Tally) {
    t.retries == 0 ==> (j.completedOn.Some? <==> j.state.Finished())
  }

  /** What the retries of a job cost at least, in seconds. */
  function Waited(j: Job, retries: nat): real {
    LeastWait(j.retryBackoff, j.retryDelay, j.retryDelayMax, retries) as real
  }

  /** A job left to itself waits at least the least delay of each retry. */
  predicate Spaced(j: Job, t: Tally, clock: Time) {
    && (j.startedOn.Some? ==> j.startedOn.value <= clock)
    && ((j.retryBackoff ==> j.retryDelay >= 0) && t.retries == 0 && t.resumes == 0 ==>
          if t.firstFail.None? then t.claims <= 1 && !j.state.Retry? && (j.state.Created? ==> t.claims == 0)
          else
            && !j.state.Created? && t.claims >= 1
            && (j.state.Active? ==> j.retryCount >= 1)
            && (j.retryCount >= 1 && j.startedOn.Some? ==>
                j.startedOn.value - t.firstFail.value >= Waited(j, j.retryCount))
            && (j.state.Retry? ==> j.startAfter - t.firstFail.value >= Waited(j, j.retryCount + 1)))
  }

  predicate Lives(j: Job, t: Tally, clock: Time) {
    Settled(j, t) && Counted(j, t) && Marked(j, t) && Spaced(j, t, clock)
  }

  lemma CountKeepsSettled(c: Change, k: Key, j: Job, t: Tally, now: Time)
    requires Settled(j, t) && Guard(c, j, now)
    ensures var t' := Count(c, j, t, now);
            Settled(Apply(c, k, j, now), t'.(copies := t'.copies + (t'.routed - t.routed)))
  {
    StateMoves(c, k, j, now);
  }

  lemma CountKeepsCounted(c: Change, k: Key, j: Job, t: Tally, now: Time)
    requires Settled(j, t) && Counted(j, t) && Guard(c, j, now)
    ensures Counted(Apply(c, k, j, now), Count(c, j, t, now))
  {
  }

  lemma CountKeepsMarked(c: Change, k: Key, j: Job, t: Tally, now: Time)
    requires Marked(j, t) && Guard(c, j, now)
    ensures Marked(Apply(c, k, j, now), Count(c, j, t, now))
  {
  }

  /** One more retry waits at least its least delay longer. */
  lemma WaitGrows(j: Job, jitter: Jitter)
    requires j.retryBackoff ==> j.retryDelay >= 0
    ensures Pause(j.retryBackoff, j.retryDelay, j.retryDelayMax, j.retryCount, jitter) as real
            >= Waited(j, j.retryCount + 1) - Waited(j, j.retryCount)
    ensures Waited(j, 0) == 0.0
  {
    if j.retryBackoff { DelayBounds(j.retryDelay, j.retryDelayMax, j.retryCount, jitter); }
  }

  lemma CountKeepsSpaced(c: Change, k: Key, j: Job, t: Tally, clock: Time, now: Time)
    requires Settled(j, t) && Counted(j, t) && Spaced(j, t, clock) && Guard(c, j, now) && clock <= now
    ensures Spaced(Apply(c, k, j, now), Count(c, j, t, now), now)
  {
    if c.Fail? && (j.retryBackoff ==> j.retryDelay >= 0) {
      WaitGrows(j, if k in c.jitter then c.jitter[k] else 0.0);
      assert Apply(c, k, j, now).retryCount == j.retryCount;
      assert Waited(Apply(c, k, j, now), j.retryCount + 1) == Waited(j, j.retryCount + 1);
    }
  }

  // ---- the invariants of the table ----

  ghost predicate Good(w: World, clock: Time) {
    && w.tallies.Keys == w.db.jobs.Keys
    && Referential(w.db)
    && forall k | k in w.db.jobs :: Lives(w.db.jobs[k], w.tallies[k], clock)
  }

  /** A new row starts with nothing to its name. */
  lemma BirthLives(j: Job, clock: Time)
    requires Newborn(j, clock)
    ensures Lives(j, Birth(j), clock)
  {
  }

  /** The copies an effect makes of a row are those the tally counts as routed. */
  lemma CopiesAreRouted(w: World, d: Delta, k: Key, now: Time)
    requires w.tallies.Keys == w.db.jobs.Keys && Referential(w.db)
    requires d.Update? && k in d.touched && k in w.db.jobs && OneCopyEach(w.db, d, now)
    ensures |CopiesFrom(d.copies, k)|
            == Count(d.change, w.db.jobs[k], w.tallies[k], now).routed - w.tallies[k].routed
  {
    StateMoves(d.change, k, w.db.jobs[k], now);
    ColumnsKept(d.change, k, w.db.jobs[k], now);
    assert RowIsReferential(w.db.queues, k, w.db.jobs[k]);
  }

  lemma TouchedLives(w: World, d: Delta, k: Key, clock: Time, now: Time)
    requires Good(w, clock) && clock <= now && d.Update? && k in d.touched && k in w.db.jobs
    requires Guard(d.change, w.db.jobs[k], now) && OneCopyEach(w.db, d, now)
    ensures Lives(Apply(d.change, k, w.db.jobs[k], now), TallyOf(w, d, k, w.db.jobs[k], now), now)
  {
    var j, t := w.db.jobs[k], w.tallies[k];
    CountKeepsSettled(d.change, k, j, t, now);
    CountKeepsCounted(d.change, k, j, t, now);
    CountKeepsMarked(d.change, k, j, t, now);
    CountKeepsSpaced(d.change, k, j, t, clock, now);
    CopiesAreRouted(w, d, k, now);
    var t' := Count(d.change, j, t, now);
    CopiesDoNotMatter(Apply(d.change, k, j, now), t', t'.copies + |CopiesFrom(d.copies, k)|, now);
  }

  lemma CopiesDoNotMatter(j: Job, t: Tally, copies: nat, now: Time)
    requires Counted(j, t) && Marked(j, t) && Spaced(j, t, now)
    ensures Counted(j, t.(copies := copies)) && Marked(j, t.(copies := copies)) && Spaced(j, t.(copies := copies), now)
  {
  }

  lemma UntouchedLives(w: World, d: Delta, k: Key, clock: Time, now: Time)
    requires Good(w, clock) && clock <= now && k in w.db.jobs && Sound(w.db, d, now)
    requires d.Update? ==> k !in d.touched
    ensures Lives(w.db.jobs[k], TallyOf(w, d, k, w.db.jobs[k], now), now)
  {
    var j, t := w.db.jobs[k], w.tallies[k];
    assert Lives(j, t, clock);
    if d.Update? { assert t.(copies := t.copies + |CopiesFrom(d.copies, k)|) == t; }
  }

  lemma RowLives(w: World, d: Delta, k: Key, clock: Time, now: Time)
    requires Good(w, clock) && clock <= now && Sound(w.db, d, now) && k in Patch(w.db, d, now).jobs
    ensures Lives(Patch(w.db, d, now).jobs[k], Recount(w, d, now)[k], now)
  {
    var row := Patch(w.db, d, now).jobs[k];
    if k !in w.db.jobs {
      assert Newborn(row, now);
      BirthLives(row, now);
    } else if d.Update? && k in d.touched {
      assert row == Apply(d.change, k, w.db.jobs[k], now);
      TouchedLives(w, d, k, clock, now);
    } else {
      assert row == w.db.jobs[k];
      UntouchedLives(w, d, k, clock, now);
    }
  }

  lemma WaitingLives(w: World, clock: Time, now: Time)
    requires Good(w, clock) && clock <= now
    ensures Good(w, now)
  {
    forall k | k in w.db.jobs ensures Lives(w.db.jobs[k], w.tallies[k], now) {
      assert Lives(w.db.jobs[k], w.tallies[k], clock);
    }
  }

  /** Every statement keeps every invariant of every job. */
  lemma NextIsGood(w: World, clock: Time, e: Event)
    requires Good(w, clock) && Legal(w.db, e) && clock <= e.at && Unique(w.db.jobs)
    ensures Good(Next(w, e), e.at) && Unique(Next(w, e).db.jobs)
  {
    AfterIsConsistent(w.db, e);
    WaitingLives(w, clock, e.at);
    if Exec(w.db, e).Ok? {
      PlanIsSound(w.db, e);
      var d := Plan(w.db, e).value;
      forall k | k in Patch(w.db, d, e.at).jobs
        ensures Lives(Patch(w.db, d, e.at).jobs[k], Recount(w, d, e.at)[k], e.at)
      {
        RowLives(w, d, k, clock, e.at);
      }
    }
  }

  lemma {:induction false} RunsStayGood(w: World, clock: Time, events: seq<Event>)
    requires Good(w, clock) && Unique(w.db.jobs) && Run(w.db, clock, events)
    ensures Good(Follow(w, clock, events), Clock(clock, events))
    decreases |events|
  {
    if events != [] {
      NextIsGood(w, clock, events[0]);
      RunsStayGood(Next(w, events[0]), events[0].at, events[1..]);
    }
  }

  /** A job in a state some run from the empty tables reaches, with its tally. */
  ghost predicate Reached(clock: Time, events: seq<Event>, k: Key) {
    Run(NO_TABLES, clock, events) && k in Follow(EMPTY, clock, events).db.jobs
  }

  ghost function JobOf(clock: Time, events: seq<Event>, k: Key): Job
    requires Reached(clock, events, k)
  {
    Follow(EMPTY, clock, events).db.jobs[k]
  }

  ghost function Story(clock: Time, events: seq<Event>, k: Key): Tally
    requires Reached(clock, events, k)
  {
    Follow(EMPTY, clock, events).tallies[k]
  }

  lemma ReachedLives(clock: Time, events: seq<Event>, k: Key)
    requires Reached(clock, events, k)
    ensures Lives(JobOf(clock, events, k), Story(clock, events, k), Clock(clock, events))
  {
    RunsStayGood(EMPTY, clock, events);
  }

  // ---- the theorems, for every run from the empty tables ----

  /** retry_count is the claims after the first, and the claims are bounded by the retry limit and by hand. */
  lemma AttemptBound(clock: Time, events: seq<Event>, k: Key)
    requires Reached(clock, events, k)
    ensures var t := Story(clock, events, k);
            && JobOf(clock, events, k).retryCount == Max(0, t.claims - 1)
            && t.claims <= 1 + Max(0, t.limit0) + t.retries + t.resumes
  {
    ReachedLives(clock, events, k);
  }

  /** However stale workers and sweeps interleave, every claim ends at most once and at most one completion counts. */
  lemma SingleSettlement(clock: Time, events: seq<Event>, k: Key)
    requires Reached(clock, events, k)
    ensures var j, t := JobOf(clock, events, k), Story(clock, events, k);
            && t.claims == t.ends + (if j.state.Active? then 1 else 0)
            && t.completions == (if j.state.Completed? then 1 else 0)
  {
    ReachedLives(clock, events, k);
  }

  /** One copy for each time the job entered `failed` with a dead letter set, so at most one more than manual
      retries. */
  lemma DeadLetterExactness(clock: Time, events: seq<Event>, k: Key)
    requires Reached(clock, events, k)
    ensures var j, t := JobOf(clock, events, k), Story(clock, events, k);
            && t.copies == t.routed <= t.failures
            && t.failures == t.retries + (if j.state.Failed? then 1 else 0)
            && t.copies <= 1 + t.retries
  {
    ReachedLives(clock, events, k);
  }

  /** Unless it was retried by hand, the retention sweep deletes a job only when it is finished and its deletion
      window is over, or queued and its retention is over; never while it is active. */
  lemma RetentionSafety(clock: Time, events: seq<Event>, k: Key, now: Time)
    requires Reached(clock, events, k) && Story(clock, events, k).retries == 0
    ensures var j := JobOf(clock, events, k);
            && (j.state.Finished() <==> j.completedOn.Some?)
            && (TooOld(j, now) <==>
                if j.state.Finished()
                then j.deletionSeconds > 0 && j.completedOn.Some?
                     && j.completedOn.value + j.deletionSeconds as real < now
                else j.state.Queued() && j.keepUntil < now)
  {
    ReachedLives(clock, events, k);
  }

  /** A job that was left alone and has made n >= 1 retries made its last claim at least the sum of the least pauses
      after its first failure, whatever the jitter: n delays without backoff, and delay * (2^n - 1) seconds with
      backoff, no cap and n <= 16. */
  lemma RetriesAreSpaced(clock: Time, events: seq<Event>, k: Key)
    requires Reached(clock, events, k)
    requires var j, t := JobOf(clock, events, k), Story(clock, events, k);
             && (j.retryBackoff ==> j.retryDelay >= 0) && j.retryCount >= 1 && t.retries == 0 && t.resumes == 0
    ensures var j, t, n := JobOf(clock, events, k), Story(clock, events, k), JobOf(clock, events, k).retryCount;
            && t.firstFail.Some? && j.startedOn.Some?
            && j.startedOn.value - t.firstFail.value
               >= LeastWait(j.retryBackoff, j.retryDelay, j.retryDelayMax, n) as real
            && (!j.retryBackoff ==> j.startedOn.value - t.firstFail.value >= (n * j.retryDelay) as real)
            && (j.retryBackoff && j.retryDelayMax.None? && n <= 16 ==>
                  j.startedOn.value - t.firstFail.value >= (j.retryDelay * (Pow2(n) - 1)) as real)
  {
    ReachedLives(clock, events, k);
    GeometricSpacing(JobOf(clock, events, k), Story(clock, events, k), Clock(clock, events));
  }

  lemma GeometricSpacing(j: Job, t: Tally, clock: Time)
    requires Settled(j, t) && Counted(j, t) && Spaced(j, t, clock)
    requires (j.retryBackoff ==> j.retryDelay >= 0) && j.retryCount >= 1 && t.retries == 0 && t.resumes == 0
    ensures t.firstFail.Some? && j.startedOn.Some?
    ensures j.startedOn.value - t.firstFail.value
            >= LeastWait(j.retryBackoff, j.retryDelay, j.retryDelayMax, j.retryCount) as real
    ensures !j.retryBackoff ==> j.startedOn.value - t.firstFail.value >= (j.retryCount * j.retryDelay) as real
    ensures j.retryBackoff && j.retryDelayMax.None? && j.retryCount <= 16 ==>
              j.startedOn.value - t.firstFail.value >= (j.retryDelay * (Pow2(j.retryCount) - 1)) as real
  {
    if j.retryBackoff && j.retryDelayMax.None? && j.retryCount <= 16 { GeometricWait(j.retryDelay, j.retryCount); }
    if !j.retryBackoff { FixedWait(j.retryDelay, j.retryDelayMax, j.retryCount); }
  }

  lemma PatchKeepsCompleted(db: Db, d: Delta, now: Time, k: Key)
    requires Sound(db, d, now) && k in db.jobs && db.jobs[k].state.Completed?
    ensures k in Patch(db, d, now).jobs ==> Patch(db, d, now).jobs[k] == db.jobs[k]
  {
  }

  /** Nothing but deletion touches a completed job. */
  lemma CompletedIsFinal(db: Db, e: Event, k: Key)
    requires Legal(db, e) && k in db.jobs && db.jobs[k].state.Completed?
    ensures k in After(db, e).jobs ==> After(db, e).jobs[k] == db.jobs[k]
  {
    if Exec(db, e).Ok? {
      PlanIsSound(db, e);
      PatchKeepsCompleted(db, Plan(db, e).value, e.at, k);
    }
  }

  /** A failure report for jobs that are no longer active changes nothing and copies nothing. */
  lemma LateReportsDoNothing(db: Db, e: Event)
    requires Legal(db, e) && Unique(db.jobs) && (e.stmt.FailById? || e.stmt.CompleteJobs?)
    requires forall k | k in db.jobs && k.queue == e.stmt.queue && k.id in e.stmt.ids :: !db.jobs[k].state.Active?
    ensures After(db, e) == db
  {
    var d := Plan(db, e).value;
    assert d.touched == {};
    if e.stmt.FailById? { assert e.stmt.order == []; }
    assert Patch(db, d, e.at).jobs == db.jobs;
  }
}
