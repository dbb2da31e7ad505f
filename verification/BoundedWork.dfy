/** Left to workers and sweeps alone, the queue does a bounded amount of work, dead letters included. */
module BoundedWork {
  import opened Options
  import opened Schema
  import opened Statements
  import opened Effects
  import opened Sums
  import Lifecycle

  /** The claims a row can still have. */
  function Remaining(j: Job): nat {
    if j.state.Finished() then 0
    else if j.state.Active? then Max(0, j.retryLimit - j.retryCount)
    else 1 + Max(0, j.retryLimit - j.retryCount - (if j.startedOn.Some? then 1 else 0))
  }

  /** The claims its dead-letter copy could have: a copy has the attempts of that queue and no dead letter. */
  function Bequest(queues: map<string, Queue>, j: Job): nat {
    if !j.state.Finished() && j.deadLetter.Some? && j.deadLetter.value in queues
    then 1 + Max(0, queues[j.deadLetter.value].retryLimit) else 0
  }

  function Potential(queues: map<string, Queue>, j: Job): nat {
    Remaining(j) + Bequest(queues, j)
  }

  function Potentials(queues: map<string, Queue>, jobs: Jobs): map<Key, nat> {
    map k | k in jobs :: Potential(queues, jobs[k])
  }

  /** The sum over the jobs of their remaining attempts and, for those with a dead letter, of its retry limit + 1. */
  ghost function Work(db: Db): nat {
    Sum(Potentials(db.queues, db.jobs))
  }

  /** Only a claim makes a row active, and it sets started_on. */
  ghost predicate ActiveWasStarted(jobs: Jobs) {
    forall k | k in jobs && jobs[k].state.Active? :: jobs[k].startedOn.Some?
  }

  /** Statements that neither send nor put anything back by hand. */
  predicate Unattended(s: Stmt) {
    s.FetchNext? || s.CompleteJobs? || s.FailById? || s.FailExpired? || s.DeleteOld? || s.CancelJobs? || s.DeleteJobs?
  }

  /** The length of the RETURNING list of a fetch. */
  ghost function ClaimsOf(db: Db, e: Event): nat
    requires Legal(db, e)
  {
    if e.stmt.FetchNext? && Exec(db, e).Ok? then |Exec(db, e).value.touched| else 0
  }

  ghost function TotalClaims(db: Db, clock: Time, events: seq<Event>): nat
    requires Run(db, clock, events)
    decreases |events|
  {
    if events == [] then 0 else
    ClaimsOf(db, events[0]) + TotalClaims(After(db, events[0]), events[0].at, events[1..])
  }

  /** What a change leaves of a row's potential, with the claim it made and the copy it caused. */
  lemma ChangePaysForItself(queues: map<string, Queue>, c: Change, k: Key, j: Job, now: Time)
    requires Guard(c, j, now) && !c.Resume? && !c.Redo? && (j.state.Active? ==> j.startedOn.Some?)
    ensures var a := Apply(c, k, j, now);
            Potential(queues, a) + (if c.Claim? then 1 else 0)
            + (if c.Fail? && ToRoute(queues, a) then Bequest(queues, j) else 0) <= Potential(queues, j)
  {
    StateMoves(c, k, j, now);
    ColumnsKept(c, k, j, now);
    match c {
      case Claim => assert Remaining(j) >= 1;
      case Fail(_, _) => assert Apply(c, k, j, now).retryCount == j.retryCount;
      case _ =>
    }
  }

  /** What each row leaves to the copy this effect makes of it. */
  function Bequests(db: Db, d: Delta, now: Time): map<Key, nat>
    requires d.Update?
  {
    map k | k in db.jobs ::
      if k in d.touched && d.change.Fail? && ToRoute(db.queues, Apply(d.change, k, db.jobs[k], now))
      then Bequest(db.queues, db.jobs[k]) else 0
  }

  lemma RowPays(db: Db, d: Delta, now: Time, k: Key)
    requires d.Update? && ActiveWasStarted(db.jobs) && !d.change.Resume? && !d.change.Redo? && k in db.jobs
    requires k in d.touched ==> Guard(d.change, db.jobs[k], now)
    ensures Potential(db.queues, Touch(db.jobs, d.change, d.touched, now)[k])
            + (if d.change.Claim? && k in d.touched then 1 else 0) + Bequests(db, d, now)[k]
            <= Potential(db.queues, db.jobs[k])
  {
    if k in d.touched { ChangePaysForItself(db.queues, d.change, k, db.jobs[k], now); }
  }

  lemma KeptRowsPay(db: Db, d: Delta, now: Time)
    requires d.Update? && ActiveWasStarted(db.jobs) && !d.change.Resume? && !d.change.Redo?
    requires forall k | k in d.touched :: k in db.jobs && Guard(d.change, db.jobs[k], now)
    ensures Sum(Potentials(db.queues, Touch(db.jobs, d.change, d.touched, now)))
            + (if d.change.Claim? then |d.touched| else 0) + Sum(Bequests(db, d, now)) <= Work(db)
  {
    var kept := Potentials(db.queues, Touch(db.jobs, d.change, d.touched, now));
    var claimed := if d.change.Claim? then d.touched else {};
    var claims: map<Key, nat> := map k | k in db.jobs :: if k in claimed then 1 else 0;
    forall k | k in db.jobs
      ensures kept[k] + claims[k] + Bequests(db, d, now)[k] <= Potentials(db.queues, db.jobs)[k]
    {
      RowPays(db, d, now, k);
    }
    SumBound(kept, claims, Bequests(db, d, now), Potentials(db.queues, db.jobs));
    SumOfOnes(claims, claimed);
  }

  lemma CopyCosts(db: Db, d: Delta, now: Time, c: Key)
    requires d.Update? && CopiesOf(db, d, now) && c in d.copies
    requires forall k | k in d.touched :: k in db.jobs && Guard(d.change, db.jobs[k], now)
    ensures d.copies[c].source in db.jobs
    ensures Potential(db.queues, d.copies[c].row) == Bequests(db, d, now)[d.copies[c].source]
  {
    var source := d.copies[c].source;
    ColumnsKept(d.change, source, db.jobs[source], now);
    StateMoves(d.change, source, db.jobs[source], now);
  }

  lemma OneCopyPerSource(db: Db, d: Delta, now: Time, a: Key, b: Key)
    requires d.Update? && OneCopyEach(db, d, now)
    requires a in d.copies && b in d.copies && d.copies[a].source == d.copies[b].source && d.copies[a].source in db.jobs
    ensures a == b
  {
    var mine := CopiesFrom(d.copies, d.copies[a].source);
    assert mine == {a, b} + (mine - {a, b});
  }

  lemma CopiesAreBequests(db: Db, d: Delta, now: Time)
    requires d.Update? && CopiesOf(db, d, now) && OneCopyEach(db, d, now)
    requires forall k | k in d.touched :: k in db.jobs && Guard(d.change, db.jobs[k], now)
    ensures Sum(Potentials(db.queues, CopyRows(d.copies))) <= Sum(Bequests(db, d, now))
  {
    var owner := map k | k in d.copies :: d.copies[k].source;
    var costs := Potentials(db.queues, CopyRows(d.copies));
    var funds := Bequests(db, d, now);
    forall k | k in costs ensures owner[k] in funds && costs[k] <= funds[owner[k]] {
      CopyCosts(db, d, now, k);
    }
    forall a, b | a in costs && b in costs && owner[a] == owner[b] ensures a == b {
      CopyCosts(db, d, now, a);
      OneCopyPerSource(db, d, now, a, b);
    }
    SumCharged(costs, owner, funds);
  }

  lemma PotentialsOfUnion(queues: map<string, Queue>, a: Jobs, b: Jobs)
    requires a.Keys !! b.Keys
    ensures Sum(Potentials(queues, a + b)) == Sum(Potentials(queues, a)) + Sum(Potentials(queues, b))
  {
    SumUnion(Potentials(queues, a), Potentials(queues, b));
    assert Potentials(queues, a + b) == Potentials(queues, a) + Potentials(queues, b);
  }

  /** A claim takes at least one from the work left, and nothing unattended adds to it. */
  lemma UpdatePaysForItself(db: Db, d: Delta, now: Time)
    requires d.Update? && ActiveWasStarted(db.jobs) && !d.change.Resume? && !d.change.Redo?
    requires forall k | k in d.touched :: k in db.jobs && Guard(d.change, db.jobs[k], now)
    requires CopiesOf(db, d, now) && OneCopyEach(db, d, now)
    ensures (if d.change.Claim? then |d.touched| else 0) + Work(Patch(db, d, now)) <= Work(db)
  {
    KeptRowsPay(db, d, now);
    CopiesAreBequests(db, d, now);
    PotentialsOfUnion(db.queues, Touch(db.jobs, d.change, d.touched, now), CopyRows(d.copies));
  }

  lemma DeletionIsFree(db: Db, gone: set<Key>)
    requires gone <= db.jobs.Keys
    ensures Work(db.(jobs := db.jobs - gone)) <= Work(db)
  {
    var rest := db.jobs - gone;
    var swept := map k | k in gone :: db.jobs[k];
    PotentialsOfUnion(db.queues, rest, swept);
    assert db.jobs == rest + swept;
  }

  lemma StartedStaysStarted(db: Db, d: Delta, now: Time)
    requires ActiveWasStarted(db.jobs) && (d.Update? || d.Delete?)
    requires d.Update? ==> CopiesOf(db, d, now)
    ensures ActiveWasStarted(Patch(db, d, now).jobs)
  {
    if d.Update? {
      forall k | k in db.jobs && k in d.touched
        ensures Apply(d.change, k, db.jobs[k], now).state.Active? ==>
                Apply(d.change, k, db.jobs[k], now).startedOn.Some?
      {
        StateMoves(d.change, k, db.jobs[k], now);
      }
    }
  }

  lemma StepPaysForItself(db: Db, e: Event)
    requires Legal(db, e) && ActiveWasStarted(db.jobs) && Unattended(e.stmt)
    ensures ClaimsOf(db, e) + Work(After(db, e)) <= Work(db)
    ensures ActiveWasStarted(After(db, e).jobs)
  {
    if Exec(db, e).Ok? {
      PlanIsSound(db, e);
      var d := Plan(db, e).value;
      StartedStaysStarted(db, d, e.at);
      if d.Update? { UpdatePaysForItself(db, d, e.at); } else { DeletionIsFree(db, d.gone); }
    }
  }

  /** Without sends and admin steps, every interleaving of workers and sweeps, however long, makes finitely many
      claims in all: those made and those still to come never exceed the work there was at the start. */
  lemma {:induction false} FinitelyManyClaims(db: Db, clock: Time, events: seq<Event>)
    requires Run(db, clock, events) && ActiveWasStarted(db.jobs)
    requires forall e | e in events :: Unattended(e.stmt)
    ensures TotalClaims(db, clock, events) + Work(Final(db, clock, events)) <= Work(db)
    decreases |events|
  {
    if events != [] {
      assert events[0] in events;
      StepPaysForItself(db, events[0]);
      FinitelyManyClaims(After(db, events[0]), events[0].at, events[1..]);
    }
  }

  /** Every state a run from the empty tables reaches qualifies. */
  lemma ReachableStatesQualify(clock: Time, events: seq<Event>)
    requires Run(NO_TABLES, clock, events)
    ensures ActiveWasStarted(Final(NO_TABLES, clock, events).jobs)
  {
    var w := Lifecycle.Follow(Lifecycle.EMPTY, clock, events);
    Lifecycle.RunsStayGood(Lifecycle.EMPTY, clock, events);
    forall k | k in w.db.jobs && w.db.jobs[k].state.Active? ensures w.db.jobs[k].startedOn.Some? {
      assert Lifecycle.Lives(w.db.jobs[k], w.tallies[k], Lifecycle.Clock(clock, events));
    }
  }
}
