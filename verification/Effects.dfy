/** What all statements have in common: the shape of every effect they can have on the tables. */
module Effects {
  import opened Options
  import opened Schema
  import opened Statements

  /** A row as an INSERT leaves it. */
  predicate Newborn(j: Job, now: Time) {
    j.state.Created? && j.retryCount == 0 && j.startedOn.None? && j.completedOn.None? && j.createdOn == now
  }

  /** The copies of a failure: each has a new key and the data and output of a row that has just failed. */
  predicate CopiesOf(db: Db, d: Delta, now: Time)
    requires d.Update?
  {
    forall c | c in d.copies ::
      var copy := d.copies[c];
      && c !in db.jobs && copy.source in d.touched && copy.source in db.jobs && d.change.Fail?
      && var failed := Apply(d.change, copy.source, db.jobs[copy.source], now);
      && ToRoute(db.queues, failed) && failed.deadLetter == Some(c.queue)
      && copy.row == CopyRow(db.queues[c.queue], failed.data, failed.output, now)
      && copy.row.data == failed.data && copy.row.output == failed.output
  }

  /** The copies made from one row. */
  function CopiesFrom(copies: map<Key, Copy>, source: Key): set<Key> {
    set c | c in copies && copies[c].source == source
  }

  /** Each touched row that lands in `failed` with a dead letter gets exactly one copy, every other row none. */
  predicate OneCopyEach(db: Db, d: Delta, now: Time)
    requires d.Update?
  {
    forall k | k in db.jobs ::
      |CopiesFrom(d.copies, k)|
      == if k in d.touched && d.change.Fail? && ToRoute(db.queues, Apply(d.change, k, db.jobs[k], now)) then 1 else 0
  }

  predicate Sound(db: Db, d: Delta, now: Time) {
    match d
    case Update(c, touched, copies) =>
      && (forall k | k in touched :: k in db.jobs && Guard(c, db.jobs[k], now))
      && CopiesOf(db, d, now) && OneCopyEach(db, d, now)
    case Insert(rows) => forall k | k in rows :: k !in db.jobs && k.queue in db.queues && Newborn(rows[k], now)
    case Delete(gone) => gone <= db.jobs.Keys
    case Register(name, q) => name !in db.queues
  }

  lemma {:induction false} AcceptExtends(jobs: Jobs, name: string, q: Queue, specs: seq<Spec>, now: Time)
    requires Accept(jobs, name, q, specs, now).Ok?
    ensures var table := Accept(jobs, name, q, specs, now).value;
            && (forall k | k in jobs :: k in table && table[k] == jobs[k])
            && (forall k | k in table && k !in jobs :: k.queue == name && Newborn(table[k], now) && Checked(table[k]))
            && (Unique(jobs) ==> Unique(table))
    decreases |specs|
  {
    if specs != [] {
      var k, row := Key(name, specs[0].id), NewRow(specs[0], q, now);
      AcceptExtends(if Conflicts(jobs, k, row) then jobs else jobs[k := row], name, q, specs[1..], now);
    }
  }

  /** Every copy stems from a routed row of the listing, under one of the first UUIDs. */
  lemma {:induction false} RouteMakesCopies(queues: map<string, Queue>, updated: Jobs, order: seq<Key>,
                                            uuids: seq<Id>, now: Time)
    requires |order| <= |uuids| && forall k | k in order :: k in updated
    ensures forall c | c in Route(queues, updated, order, uuids, now) ::
              var copy := Route(queues, updated, order, uuids, now)[c];
              && copy.source in order && c.id in uuids[..|order|]
              && ToRoute(queues, updated[copy.source])
              && updated[copy.source].deadLetter == Some(c.queue)
              && copy.row == CopyRow(queues[c.queue], updated[copy.source].data, updated[copy.source].output, now)
              && copy.row.data == updated[copy.source].data && copy.row.output == updated[copy.source].output
  {
    if order != [] {
      var n := |order| - 1;
      RouteMakesCopies(queues, updated, order[..n], uuids, now);
      assert uuids[n] in uuids[..|order|];
      assert forall id | id in uuids[..n] :: id in uuids[..|order|];
    }
  }

  /** A row of the listing is copied once if it is to be routed, and not at all otherwise. */
  lemma {:induction false} RouteCopiesOnce(queues: map<string, Queue>, updated: Jobs, order: seq<Key>, uuids: seq<Id>,
                                           now: Time, k: Key)
    requires |order| <= |uuids| && forall o | o in order :: o in updated
    requires forall i, j | 0 <= i < j < |order| :: order[i] != order[j]
    requires forall i, j | 0 <= i < j < |uuids| :: uuids[i] != uuids[j]
    ensures |CopiesFrom(Route(queues, updated, order, uuids, now), k)|
            == if k in order && ToRoute(queues, updated[k]) then 1 else 0
  {
    var copies := Route(queues, updated, order, uuids, now);
    if order == [] {
      assert CopiesFrom(copies, k) == {};
    } else {
      var n := |order| - 1;
      var before := Route(queues, updated, order[..n], uuids, now);
      RouteMakesCopies(queues, updated, order[..n], uuids, now);
      RouteCopiesOnce(queues, updated, order[..n], uuids, now, k);
      assert order == order[..n] + [order[n]];
      var j := updated[order[n]];
      if ToRoute(queues, j) {
        var key := Key(j.deadLetter.value, uuids[n]);
        assert uuids[n] !in uuids[..n];
        OneMoreCopy(before, key, Copy(order[n], CopyRow(queues[j.deadLetter.value], j.data, j.output, now)), k);
        if order[n] == k { assert CopiesFrom(before, k) == {}; }
      }
    }
  }

  lemma OneMoreCopy(before: map<Key, Copy>, key: Key, copy: Copy, k: Key)
    requires key !in before
    ensures CopiesFrom(before[key := copy], k) == CopiesFrom(before, k) + (if copy.source == k then {key} else {})
    ensures |CopiesFrom(before[key := copy], k)| == |CopiesFrom(before, k)| + (if copy.source == k then 1 else 0)
  {
    assert CopiesFrom(before[key := copy], k) == CopiesFrom(before, k) + (if copy.source == k then {key} else {});
  }

  lemma FailIsSound(db: Db, c: Change, rows: set<Key>, order: seq<Key>, uuids: seq<Id>, now: Time)
    requires c.Fail? && Listing(order, rows) && |order| <= |uuids| && Fresh(db.jobs, uuids)
    requires forall k | k in rows :: k in db.jobs && Guard(c, db.jobs[k], now)
    ensures Sound(db, FailDelta(db, c, rows, order, uuids, now), now)
  {
    var updated := Touch(db.jobs, c, rows, now);
    RouteMakesCopies(db.queues, updated, order, uuids, now);
    forall k | k in db.jobs
      ensures |CopiesFrom(Route(db.queues, updated, order, uuids, now), k)|
              == if k in rows && ToRoute(db.queues, Apply(c, k, db.jobs[k], now)) then 1 else 0
    {
      RouteCopiesOnce(db.queues, updated, order, uuids, now, k);
    }
  }

  lemma NothingCopied(db: Db, d: Delta, now: Time)
    requires d.Update? && d.copies == map[] && !d.change.Fail?
    ensures CopiesOf(db, d, now) && OneCopyEach(db, d, now)
  {
    forall k | k in db.jobs ensures |CopiesFrom(d.copies, k)| == 0 {
      assert CopiesFrom(d.copies, k) == {};
    }
  }

  /** Whatever a statement plans touches only rows its WHERE clause admits and adds only newborn rows. */
  lemma PlanIsSound(db: Db, e: Event)
    requires Legal(db, e) && Plan(db, e).Ok?
    ensures Sound(db, Plan(db, e).value, e.at)
  {
    var d := Plan(db, e).value;
    match e.stmt
    case InsertJobs(queue, specs) =>
      if queue in db.queues { AcceptExtends(db.jobs, queue, db.queues[queue], specs, e.at); }
    case FailById(queue, ids, output, jitter, order, uuids) =>
      FailIsSound(db, Fail(output, jitter), FailedBy(db, e), order, uuids, e.at);
    case FailExpired(jitter, order, uuids) =>
      FailIsSound(db, Fail(TIMED_OUT, jitter), FailedBy(db, e), order, uuids, e.at);
    case _ =>
      if d.Update? { NothingCopied(db, d, e.at); }
  }

  /** No UPDATE ever writes these columns. */
  lemma ColumnsKept(c: Change, k: Key, j: Job, now: Time)
    ensures var a := Apply(c, k, j, now);
            && a.policy == j.policy && a.deadLetter == j.deadLetter && a.data == j.data
            && a.singletonKey == j.singletonKey && a.singletonOn == j.singletonOn && a.groupId == j.groupId
            && a.createdOn == j.createdOn && a.keepUntil == j.keepUntil && a.priority == j.priority
            && a.deletionSeconds == j.deletionSeconds && a.expireSeconds == j.expireSeconds
            && a.retryDelay == j.retryDelay && a.retryBackoff == j.retryBackoff && a.retryDelayMax == j.retryDelayMax
  {
  }

  /** The state a change leads to. */
  function StateAfter(c: Change, j: Job): State {
    match c
    case Claim => Active
    case Complete(_) => Completed
    case Fail(_, _) => if j.retryCount < j.retryLimit then Retry else Failed
    case Cancel => Cancelled
    case Resume => Created
    case Redo => Retry
  }

  lemma StateMoves(c: Change, k: Key, j: Job, now: Time)
    ensures Apply(c, k, j, now).state == StateAfter(c, j)
  {
  }

  lemma UpdateIsReferential(db: Db, d: Delta, now: Time)
    requires Referential(db) && d.Update? && CopiesOf(db, d, now)
    ensures Referential(Patch(db, d, now))
  {
    var jobs := Patch(db, d, now).jobs;
    forall k | k in jobs ensures RowIsReferential(db.queues, k, jobs[k]) {
      if k in d.copies {
        assert jobs[k] == d.copies[k].row;
      } else {
        ColumnsKept(d.change, k, db.jobs[k], now);
        assert RowIsReferential(db.queues, k, db.jobs[k]);
      }
    }
  }

  /** An UPDATE that copies nothing. */
  lemma NoCopies(db: Db, c: Change, touched: set<Key>, now: Time)
    ensures Patch(db, Update(c, touched, map[]), now) == db.(jobs := Touch(db.jobs, c, touched, now))
  {
    assert Touch(db.jobs, c, touched, now) + CopyRows(map[]) == Touch(db.jobs, c, touched, now);
  }

  /** All a committed fetch does. */
  lemma FetchIsTouch(db: Db, e: Event)
    requires e.stmt.FetchNext? && Exec(db, e).Ok?
    ensures e.stmt.batch >= 0 && Exec(db, e).value == Update(Claim, ClaimedBy(db, e), map[])
    ensures After(db, e) == db.(jobs := Touch(db.jobs, Claim, ClaimedBy(db, e), e.at))
  {
    NoCopies(db, Claim, ClaimedBy(db, e), e.at);
  }

  /** All an insert does: it raises what a row raises, or leaves the tables with the rows accepted. */
  lemma InsertIsAccept(db: Db, e: Event)
    requires Unique(db.jobs) && e.stmt.InsertJobs? && e.stmt.queue in db.queues
    ensures match Accept(db.jobs, e.stmt.queue, db.queues[e.stmt.queue], e.stmt.specs, e.at)
            case Err(x) => Exec(db, e) == Err(x)
            case Ok(table) =>
              if exists k | k in table - db.jobs.Keys ::
                   table[k].deadLetter.Some? && table[k].deadLetter.value !in db.queues
              then Exec(db, e) == Err(ForeignKeyViolation)
              else Exec(db, e).Ok? && After(db, e) == db.(jobs := table)
  {
    var r := Accept(db.jobs, e.stmt.queue, db.queues[e.stmt.queue], e.stmt.specs, e.at);
    if r.Ok? {
      AcceptExtends(db.jobs, e.stmt.queue, db.queues[e.stmt.queue], e.stmt.specs, e.at);
      assert db.jobs + (r.value - db.jobs.Keys) == r.value;
    }
  }

  /** Every statement keeps the unique indexes, the foreign keys and the checks. */
  lemma AfterIsConsistent(db: Db, e: Event)
    requires Legal(db, e) && Consistent(db)
    ensures Consistent(After(db, e))
  {
    if Exec(db, e).Ok? {
      PlanIsSound(db, e);
      var d := Plan(db, e).value;
      if d.Update? {
        UpdateIsReferential(db, d, e.at);
      } else if e.stmt.InsertJobs? && e.stmt.queue in db.queues {
        AcceptExtends(db.jobs, e.stmt.queue, db.queues[e.stmt.queue], e.stmt.specs, e.at);
      }
    }
  }

  /** Every reachable state satisfies all six unique indexes and every constraint. */
  lemma {:induction false} RunsStayConsistent(db: Db, clock: Time, events: seq<Event>)
    requires Run(db, clock, events) && Consistent(db)
    ensures Consistent(Final(db, clock, events))
    decreases |events|
  {
    if events != [] {
      AfterIsConsistent(db, events[0]);
      RunsStayConsistent(After(db, events[0]), events[0].at, events[1..]);
    }
  }

  // ---- runs put together ----

  lemma {:induction false} RunAppend(db: Db, clock: Time, first: seq<Event>, later: Time, second: seq<Event>)
    requires Run(db, clock, first) && Run(Final(db, clock, first), later, second)
    requires clock <= later && forall e | e in first :: e.at <= later
    ensures Run(db, clock, first + second)
    ensures Final(db, clock, first + second) == Final(Final(db, clock, first), later, second)
    decreases |first|
  {
    if first == [] {
      assert first + second == second;
    } else {
      assert first[0] in first;
      RunAppend(After(db, first[0]), first[0].at, first[1..], later, second);
      assert (first + second)[1..] == first[1..] + second;
    }
  }

  lemma RunMore(db: Db, clock: Time, events: seq<Event>, e: Event)
    requires Run(db, clock, events) && Legal(Final(db, clock, events), e)
    requires clock <= e.at && forall o | o in events :: o.at <= e.at
    ensures Run(db, clock, events + [e]) && Final(db, clock, events + [e]) == After(Final(db, clock, events), e)
  {
    assert [e][1..] == [];
    RunAppend(db, clock, events, e.at, [e]);
  }

  // ---- what can be reached ----

  ghost predicate RunTo(clock: Time, events: seq<Event>, db: Db, now: Time) {
    && Run(NO_TABLES, clock, events) && Final(NO_TABLES, clock, events) == db
    && clock <= now && forall e | e in events :: e.at <= now
  }

  /** Some run from the empty tables has led to these tables by now. */
  ghost predicate Reachable(db: Db, now: Time) { exists clock, events :: RunTo(clock, events, db, now) }

  lemma StartIsReachable(now: Time)
    ensures Reachable(NO_TABLES, now)
  {
    assert RunTo(now, [], NO_TABLES, now);
  }

  /** One more statement. */
  lemma StepIsReachable(db: Db, now: Time, e: Event)
    requires Reachable(db, now) && Legal(db, e) && now <= e.at
    ensures Reachable(After(db, e), e.at)
  {
    var clock, events :| RunTo(clock, events, db, now);
    RunMore(NO_TABLES, clock, events, e);
    assert RunTo(clock, events + [e], After(db, e), e.at);
  }

  lemma ReachableIsConsistent(db: Db, now: Time)
    requires Reachable(db, now)
    ensures Consistent(db)
  {
    var clock, events :| RunTo(clock, events, db, now);
    RunsStayConsistent(NO_TABLES, clock, events);
  }
}
