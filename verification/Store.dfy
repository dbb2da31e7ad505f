/** The tables as one mutable object, and the statements and transactions that change them. */
module Store {
  import opened Options
  import opened Schema
  import opened Backoff
  import opened Claiming
  import opened Statements
  import opened Effects
  import opened Indexes
  import Cron

  /** The tables went from `before` to `after` as the statement says, raising `error` if it raises one. */
  ghost predicate Executed(before: Db, e: Event, after: Db, error: Option<Error>) {
    && Legal(before, e) && after == After(before, e)
    && error == match Exec(before, e) { case Ok(_) => None case Err(x) => Some(x) }
  }

  /** A copy is under no unique index. */
  lemma CopyNeverConflicts(jobs: Jobs, k: Key)
    requires k !in jobs
    ensures forall row: Job | row.policy.None? && row.singletonOn.None? :: !Conflicts(jobs, k, row)
  {
  }

  /** The copies after one more returned row, and why its key is still free. */
  lemma RouteStep(queues: map<string, Queue>, updated: Jobs, order: seq<Key>, uuids: seq<Id>, now: Time, i: nat)
    requires i < |order| <= |uuids| && Fresh(updated, uuids) && forall k | k in order :: k in updated
    ensures var copies := Route(queues, updated, order[..i], uuids, now);
            var table, row := updated + CopyRows(copies), updated[order[i]];
            && order[i] in table && table[order[i]] == row
            && (row.deadLetter.Some? ==> Key(row.deadLetter.value, uuids[i]) !in table)
            && updated + CopyRows(Route(queues, updated, order[..i + 1], uuids, now))
               == if ToRoute(queues, row)
                  then table[Key(row.deadLetter.value, uuids[i]) :=
                             CopyRow(queues[row.deadLetter.value], row.data, row.output, now)]
                  else table
  {
    assert order[..i + 1][..i] == order[..i] && order[..i + 1][i] == order[i] && order[i] in order;
    KeysAreFree(queues, updated, order, uuids, now, i);
    var copies, row := Route(queues, updated, order[..i], uuids, now), updated[order[i]];
    if ToRoute(queues, row) {
      var key := Key(row.deadLetter.value, uuids[i]);
      var copy := CopyRow(queues[row.deadLetter.value], row.data, row.output, now);
      assert CopyRows(copies[key := Copy(order[i], copy)]) == CopyRows(copies)[key := copy];
      assert updated + CopyRows(copies)[key := copy] == (updated + CopyRows(copies))[key := copy];
    }
  }

  lemma KeysAreFree(queues: map<string, Queue>, updated: Jobs, order: seq<Key>, uuids: seq<Id>, now: Time, i: nat)
    requires i < |order| <= |uuids| && Fresh(updated, uuids) && forall k | k in order :: k in updated
    ensures forall c | c in Route(queues, updated, order[..i], uuids, now) :: c !in updated && c.id != uuids[i]
    ensures forall k | k in updated :: k.id != uuids[i]
  {
    RouteMakesCopies(queues, updated, order[..i], uuids, now);
    assert uuids[i] in uuids && uuids[i] !in uuids[..i];
    forall c | c in Route(queues, updated, order[..i], uuids, now) ensures c !in updated && c.id != uuids[i] {
      assert c.id in uuids[..i];
      assert c.id in uuids;
    }
  }

  class Tables {
    var jobs: Jobs
    var queues: map<string, Queue>
    var cronOn: Option<Time>

    ghost function View(): Db
      reads this
    {
      Db(jobs, queues)
    }

    /** The database lets nobody see the tables in any other condition. */
    ghost predicate Valid()
      reads this
    {
      Consistent(View())
    }

    constructor ()
      ensures Valid() && View() == Db(map[], map[]) && cronOn == None
    {
      jobs, queues, cronOn := map[], map[], None;
    }

    /** Replace the job table unless a unique index objects. */
    method Commit(candidate: Jobs) returns (error: Option<Error>)
      modifies this`jobs
      ensures error == if Unique(candidate) then None else Some(UniqueViolation)
      ensures jobs == if Unique(candidate) then candidate else old(jobs)
    {
      if Unique(candidate) {
        jobs, error := candidate, None;
      } else {
        error := Some(UniqueViolation);
      }
    }

    method CreateQueue(now: Time, name: string, options: Queue) returns (error: Option<Error>)
      requires Valid()
      modifies this`queues
      ensures Valid() && Executed(old(View()), Event(now, Stmt.CreateQueue(name, options)), View(), error)
    {
      AfterIsConsistent(View(), Event(now, Stmt.CreateQueue(name, options)));
      assert jobs + map[] == jobs;
      if options.deadLetter == Some(name) {
        error := Some(CheckViolation);
      } else if name in queues {
        error := None;
      } else if options.deadLetter.Some? && options.deadLetter.value !in queues {
        error := Some(ForeignKeyViolation);
      } else {
        queues, error := queues[name := options], None;
      }
    }

    /** Inserts row by row, skipping those that conflict. */
    static method AcceptRows(jobs: Jobs, queue: string, q: Queue, specs: seq<Spec>, now: Time)
      returns (table: Jobs, ids: seq<Id>, error: Option<Error>)
      ensures match Accept(jobs, queue, q, specs, now)
              case Ok(t) => error == None && table == t
              case Err(x) => error == Some(x)
      ensures error.None? ==> forall id :: id in ids <==> Key(queue, id) in table && Key(queue, id) !in jobs
    {
      table, ids, error := jobs, [], None;
      for i := 0 to |specs|
        invariant Accept(table, queue, q, specs[i..], now) == Accept(jobs, queue, q, specs, now)
        invariant forall k | k in jobs :: k in table
        invariant forall id :: id in ids <==> Key(queue, id) in table && Key(queue, id) !in jobs
      {
        var s := specs[i];
        assert specs[i..][1..] == specs[i + 1..];
        if s.singletonSeconds == Some(0) {
          return table, ids, Some(DivisionByZero);
        }
        var k, row := Key(queue, s.id), NewRow(s, q, now);
        if !Checked(row) {
          return table, ids, Some(CheckViolation);
        }
        if !Conflicts(table, k, row) {
          table := table[k := row];
          ids := ids + [s.id];
        }
      }
    }

    /** Returns the ids of the rows inserted; conflicting rows are skipped, anything else aborts the whole batch. */
    method InsertJobs(now: Time, queue: string, specs: seq<Spec>) returns (ids: seq<Id>, error: Option<Error>)
      requires Valid()
      modifies this`jobs
      ensures Valid() && Executed(old(View()), Event(now, Stmt.InsertJobs(queue, specs)), View(), error)
      ensures forall id :: id in ids <==> Key(queue, id) in jobs && Key(queue, id) !in old(jobs)
    {
      ghost var e := Event(now, Stmt.InsertJobs(queue, specs));
      AfterIsConsistent(View(), e);
      ids, error := [], None;
      if queue !in queues {
        assert jobs + map[] == jobs;
        return;
      }
      InsertIsAccept(View(), e);
      var table;
      table, ids, error := AcceptRows(jobs, queue, queues[queue], specs, now);
      if error.Some? {
        return [], error;
      }
      AcceptExtends(jobs, queue, queues[queue], specs, now);
      if exists k | k in table - jobs.Keys :: table[k].deadLetter.Some? && table[k].deadLetter.value !in queues {
        return [], Some(ForeignKeyViolation);
      }
      jobs := table;
    }

    /** The SELECT part of a claim: the ordered, limited and, with a cap, filtered batch. */
    method ChooseBatch(now: Time, queue: string, batch: nat, cap: Option<int>, locked: set<Key>)
      returns (claimed: seq<Key>)
      ensures forall k :: k in claimed <==>
                          k in Claimed(jobs, ActiveCounts(jobs, queue), queue, batch, cap, locked, now)
      ensures cap.None? ==> claimed == Top(jobs, Candidates(jobs, queue, now, locked), batch)
    {
      var keys := Candidates(jobs, queue, now, locked);
      if cap.None? {
        claimed := Scan(jobs, keys, batch);
      } else {
        var counts := ActiveCounts(jobs, queue);
        var next := Scan(jobs, BelowCap(jobs, keys, counts, cap.value), batch);
        claimed := HoldToCap(next, counts, cap.value);
      }
    }

    /** The rows of a RETURNING clause, in whatever order the database finds them. */
    static method ListRows(rows: set<Key>) returns (order: seq<Key>)
      ensures Listing(order, rows) && |order| == |rows|
    {
      order := [];
      var rest := rows;
      while rest != {}
        invariant rest <= rows && Listing(order, rows - rest) && |order| == |rows| - |rest|
        decreases |rest|
      {
        var k :| k in rest;
        order := order + [k];
        rest := rest - {k};
      }
      assert rows - rest == rows;
    }

    /** Claims a batch; returns the claimed keys in whatever order the database finds them. */
    method FetchNext(now: Time, queue: string, batch: int, cap: Option<int>, locked: set<Key>)
      returns (claimed: seq<Key>, error: Option<Error>)
      requires Valid()
      modifies this`jobs
      ensures Valid() && Executed(old(View()), Event(now, Stmt.FetchNext(queue, batch, cap, locked)), View(), error)
      ensures error.None? ==>
                && batch >= 0
                && Listing(claimed, ClaimedBy(old(View()), Event(now, Stmt.FetchNext(queue, batch, cap, locked))))
      ensures error.Some? ==> claimed == []
    {
      AfterIsConsistent(View(), Event(now, Stmt.FetchNext(queue, batch, cap, locked)));
      if batch < 0 {
        return [], Some(BadLimit);
      }
      var next := ChooseBatch(now, queue, batch, cap, locked);
      var touched := set k | k in next;
      assert touched == ClaimedBy(View(), Event(now, Stmt.FetchNext(queue, batch, cap, locked)));
      NoCopies(View(), Claim, touched, now);
      error := Commit(Touch(jobs, Claim, touched, now));
      claimed := [];
      if error.None? { claimed := ListRows(touched); }
    }

    /** group_filtered, row by row. */
    method HoldToCap(next: seq<Key>, counts: map<string, nat>, cap: int) returns (kept: seq<Key>)
      requires forall k | k in next :: k in jobs
      ensures forall k :: k in kept <==> k in WithinCap(jobs, Elements(next), counts, cap)
    {
      kept := [];
      var batch := set k | k in next;
      assert batch == Elements(next);
      for i := 0 to |next|
        invariant forall k :: k in kept <==> k in next[..i] && k in WithinCap(jobs, batch, counts, cap)
      {
        var k := next[i];
        assert next[..i + 1] == next[..i] + [k];
        var group := jobs[k].groupId;
        if group.None? || CountOf(counts, group.value) + Rank(jobs, batch, k) <= cap {
          kept := kept + [k];
        }
      }
      assert next[..|next|] == next;
    }

    method CompleteJobs(now: Time, queue: string, ids: set<Id>, output: Payload) returns (error: Option<Error>)
      requires Valid()
      modifies this`jobs
      ensures Valid() && Executed(old(View()), Event(now, Stmt.CompleteJobs(queue, ids, output)), View(), error)
      ensures error == None
    {
      AfterIsConsistent(View(), Event(now, Stmt.CompleteJobs(queue, ids, output)));
      NeverAborts(View(), Event(now, Stmt.CompleteJobs(queue, ids, output)));
      var c := Complete(output);
      NoCopies(View(), c, Matching(jobs, queue, ids, c, now), now);
      error := Commit(Touch(jobs, c, Matching(jobs, queue, ids, c, now), now));
    }

    method CancelJobs(now: Time, queue: string, ids: set<Id>) returns (error: Option<Error>)
      requires Valid()
      modifies this`jobs
      ensures Valid() && Executed(old(View()), Event(now, Stmt.CancelJobs(queue, ids)), View(), error) && error == None
    {
      AfterIsConsistent(View(), Event(now, Stmt.CancelJobs(queue, ids)));
      NeverAborts(View(), Event(now, Stmt.CancelJobs(queue, ids)));
      NoCopies(View(), Cancel, Matching(jobs, queue, ids, Cancel, now), now);
      error := Commit(Touch(jobs, Cancel, Matching(jobs, queue, ids, Cancel, now), now));
    }

    method ResumeJobs(now: Time, queue: string, ids: set<Id>) returns (error: Option<Error>)
      requires Valid()
      modifies this`jobs
      ensures Valid() && Executed(old(View()), Event(now, Stmt.ResumeJobs(queue, ids)), View(), error)
    {
      AfterIsConsistent(View(), Event(now, Stmt.ResumeJobs(queue, ids)));
      NoCopies(View(), Resume, Matching(jobs, queue, ids, Resume, now), now);
      error := Commit(Touch(jobs, Resume, Matching(jobs, queue, ids, Resume, now), now));
    }

    method RetryJobs(now: Time, queue: string, ids: set<Id>) returns (error: Option<Error>)
      requires Valid()
      modifies this`jobs
      ensures Valid() && Executed(old(View()), Event(now, Stmt.RetryJobs(queue, ids)), View(), error)
    {
      AfterIsConsistent(View(), Event(now, Stmt.RetryJobs(queue, ids)));
      NoCopies(View(), Redo, Matching(jobs, queue, ids, Redo, now), now);
      error := Commit(Touch(jobs, Redo, Matching(jobs, queue, ids, Redo, now), now));
    }

    method DeleteJobs(now: Time, queue: string, ids: set<Id>)
      requires Valid()
      modifies this`jobs
      ensures Valid() && Executed(old(View()), Event(now, Stmt.DeleteJobs(queue, ids)), View(), None)
    {
      AfterIsConsistent(View(), Event(now, Stmt.DeleteJobs(queue, ids)));
      NeverAborts(View(), Event(now, Stmt.DeleteJobs(queue, ids)));
      jobs := jobs - Named(jobs, queue, ids);
    }

    method DeleteOld(now: Time)
      requires Valid()
      modifies this`jobs
      ensures Valid() && Executed(old(View()), Event(now, Stmt.DeleteOld), View(), None)
    {
      AfterIsConsistent(View(), Event(now, Stmt.DeleteOld));
      NeverAborts(View(), Event(now, Stmt.DeleteOld));
      jobs := jobs - OldRows(jobs, now);
    }

    // ---- failing and dead-letter routing: two statements in one transaction ----

    /** One INSERT .. SELECT into the dead-letter queue: no row if the queue does not exist. Only a UUID drawn twice can
        make it raise, and it never disturbs a unique index. */
    method RouteToDeadLetter(now: Time, deadLetter: string, data: Payload, output: Payload, id: Id)
      returns (error: Option<Error>)
      modifies this`jobs
      ensures deadLetter !in queues ==> jobs == old(jobs) && error == None
      ensures deadLetter in queues ==>
                var k, row := Key(deadLetter, id), CopyRow(queues[deadLetter], data, output, now);
                if Conflicts(old(jobs), k, row) then jobs == old(jobs) && error == Some(UniqueViolation)
                else jobs == old(jobs)[k := row] && error == None
      ensures error.Some? <==> deadLetter in queues && Key(deadLetter, id) in old(jobs)
      ensures Unique(old(jobs)) ==> Unique(jobs)
    {
      error := None;
      if deadLetter in queues {
        var k, row := Key(deadLetter, id), CopyRow(queues[deadLetter], data, output, now);
        if k !in jobs { CopyNeverConflicts(jobs, k); }
        if Conflicts(jobs, k, row) {
          error := Some(UniqueViolation);
        } else {
          jobs := jobs[k := row];
        }
      }
    }

    /** `_route`: one insert for each returned row that failed with a dead letter. None of them can raise. */
    method RouteRows(now: Time, order: seq<Key>, uuids: seq<Id>)
      requires forall k | k in order :: k in jobs
      requires |order| <= |uuids| && Fresh(jobs, uuids)
      modifies this`jobs
      ensures jobs == old(jobs) + CopyRows(Route(queues, old(jobs), order, uuids, now))
    {
      ghost var updated := jobs;
      assert jobs + CopyRows(map[]) == jobs;
      for i := 0 to |order|
        invariant jobs == updated + CopyRows(Route(queues, updated, order[..i], uuids, now))
      {
        RouteStep(queues, updated, order, uuids, now, i);
        var row := jobs[order[i]];
        if row.state.Failed? && row.deadLetter.Some? {
          CopyNeverConflicts(jobs, Key(row.deadLetter.value, uuids[i]));
          var error := RouteToDeadLetter(now, row.deadLetter.value, row.data, row.output, uuids[i]);
          assert error.None?;
        }
      }
      assert order[..|order|] == order;
    }

    /** The fail UPDATE and the routing of the rows it returns, committed or rolled back together. */
    method FailAndRoute(now: Time, c: Change, rows: set<Key>, uuids: seq<Id>)
      returns (order: seq<Key>, error: Option<Error>)
      requires Valid() && c.Fail? && |rows| <= |uuids| && Fresh(jobs, uuids)
      requires forall k | k in rows :: k in jobs && Guard(c, jobs[k], now)
      modifies this`jobs
      ensures Listing(order, rows) && |order| == |rows|
      ensures var d := FailDelta(old(View()), c, rows, order, uuids, now);
              if Unique(Patch(old(View()), d, now).jobs)
              then error == None && View() == Patch(old(View()), d, now)
              else error == Some(UniqueViolation) && View() == old(View())
    {
      order := ListRows(rows);
      ghost var d := FailDelta(View(), c, rows, order, uuids, now);
      FailIsSound(View(), c, rows, order, uuids, now);
      CopiesNeverClash(queues, Touch(jobs, c, rows, now), d.copies);
      error := Commit(Touch(jobs, c, rows, now));
      if error.None? {
        RouteRows(now, order, uuids);
      }
    }

    /** fail_by_id: fails the jobs that are still active and routes those that are out of retries. */
    method FailById(now: Time, queue: string, ids: set<Id>, output: Payload, jitter: map<Key, Jitter>, uuids: seq<Id>)
      returns (order: seq<Key>, error: Option<Error>)
      requires Valid() && Fresh(jobs, uuids) && |Matching(jobs, queue, ids, Fail(output, jitter), now)| <= |uuids|
      modifies this`jobs
      ensures Valid()
      ensures Executed(old(View()), Event(now, Stmt.FailById(queue, ids, output, jitter, order, uuids)), View(), error)
    {
      ghost var before := View();
      order, error := FailAndRoute(now, Fail(output, jitter),
                                   Matching(jobs, queue, ids, Fail(output, jitter), now), uuids);
      AfterIsConsistent(before, Event(now, Stmt.FailById(queue, ids, output, jitter, order, uuids)));
    }

    /** fail_expired: the timeout sweep. */
    method FailExpired(now: Time, jitter: map<Key, Jitter>, uuids: seq<Id>)
      returns (order: seq<Key>, error: Option<Error>)
      requires Valid() && Fresh(jobs, uuids) && |Expired(jobs, now)| <= |uuids|
      modifies this`jobs
      ensures Valid()
      ensures Executed(old(View()), Event(now, Stmt.FailExpired(jitter, order, uuids)), View(), error)
    {
      ghost var before := View();
      order, error := FailAndRoute(now, Fail(TIMED_OUT, jitter), Expired(jobs, now), uuids);
      AfterIsConsistent(before, Event(now, Stmt.FailExpired(jitter, order, uuids)));
    }

    /** Claims the cron tick for this caller, if it is time: called at tick after tick it lets exactly the winners
        win. */
    method TrySetCronTime(now: Time, interval: real) returns (won: bool)
      modifies this`cronOn
      ensures won == Cron.Wins(old(cronOn), now, interval)
      ensures cronOn == if won then Some(now) else old(cronOn)
      ensures forall ticks :: Cron.Winners(old(cronOn), [now] + ticks, interval)
                              == (if won then [now] else []) + Cron.Winners(cronOn, ticks, interval)
    {
      assert forall ticks: seq<Time> :: ([now] + ticks)[1..] == ticks;
      won := now - cronOn.Or(now - Cron.WEEK) > interval;
      if won { cronOn := Some(now); }
    }
  }
}
