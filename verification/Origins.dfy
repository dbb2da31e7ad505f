/** Where rows come from: a send inherits from its queue, a dead-letter copy inherits almost nothing. */
module Origins {
  import opened Options
  import opened Schema
  import opened Statements
  import opened Effects
  import opened Indexes
  import BoundedWork
  import Lifecycle

  /** A row that was sent: it carries its queue's policy, and a dead letter if the queue has one. */
  predicate Sent(q: Queue, j: Job) {
    j.policy == Some(q.policy) && (q.deadLetter.Some? ==> j.deadLetter.Some?)
  }

  /** A row that was routed: no policy, key, slot, group, cap on its delay or dead letter of its own. */
  predicate Copied(j: Job) {
    && j.policy.None? && j.deadLetter.None? && j.singletonKey.None? && j.singletonOn.None? && j.groupId.None?
    && j.retryDelayMax.None? && j.priority == 0 && j.expireSeconds == 900
  }

  predicate HasOrigin(queues: map<string, Queue>, k: Key, j: Job) {
    k.queue in queues && (Sent(queues[k.queue], j) || Copied(j))
  }

  ghost predicate Originated(db: Db) {
    forall k | k in db.jobs :: HasOrigin(db.queues, k, db.jobs[k])
  }

  lemma {:induction false} AcceptedAreSent(jobs: Jobs, name: string, q: Queue, specs: seq<Spec>, now: Time)
    requires Accept(jobs, name, q, specs, now).Ok?
    ensures var table := Accept(jobs, name, q, specs, now).value;
            forall k | k in table && k !in jobs :: k.queue == name && Sent(q, table[k])
    decreases |specs|
  {
    if specs != [] {
      var k, row := Key(name, specs[0].id), NewRow(specs[0], q, now);
      var more := if Conflicts(jobs, k, row) then jobs else jobs[k := row];
      AcceptedAreSent(more, name, q, specs[1..], now);
      AcceptExtends(more, name, q, specs[1..], now);
    }
  }

  lemma UpdateKeepsOrigins(db: Db, d: Delta, now: Time)
    requires Originated(db) && d.Update? && CopiesOf(db, d, now)
    ensures Originated(Patch(db, d, now))
  {
    var after := Patch(db, d, now).jobs;
    forall k | k in after ensures HasOrigin(db.queues, k, after[k]) {
      if k in d.copies {
        assert Copied(d.copies[k].row);
      } else {
        assert HasOrigin(db.queues, k, db.jobs[k]);
        ColumnsKept(d.change, k, db.jobs[k], now);
      }
    }
  }

  /** No statement alters a queue or the origin of a row. */
  lemma AfterKeepsOrigins(db: Db, e: Event)
    requires Legal(db, e) && Originated(db)
    ensures Originated(After(db, e))
    ensures forall q | q in db.queues :: q in After(db, e).queues && After(db, e).queues[q] == db.queues[q]
  {
    if Exec(db, e).Ok? {
      PlanIsSound(db, e);
      var d := Plan(db, e).value;
      if d.Update? {
        UpdateKeepsOrigins(db, d, e.at);
      } else if e.stmt.InsertJobs? && e.stmt.queue in db.queues {
        AcceptedAreSent(db.jobs, e.stmt.queue, db.queues[e.stmt.queue], e.stmt.specs, e.at);
      }
    }
  }

  /** A queue is never altered once created, and in every reachable state each job either carries the policy of its
      queue or is a dead-letter copy without policy, key and dead letter. */
  lemma {:induction false} OriginsHold(db: Db, clock: Time, events: seq<Event>)
    requires Run(db, clock, events) && Originated(db)
    ensures Originated(Final(db, clock, events))
    ensures forall q | q in db.queues ::
              q in Final(db, clock, events).queues && Final(db, clock, events).queues[q] == db.queues[q]
    decreases |events|
  {
    if events != [] {
      AfterKeepsOrigins(db, events[0]);
      OriginsHold(After(db, events[0]), events[0].at, events[1..]);
    }
  }

  /** So in every run from the empty tables a queue's own policy holds between any two jobs sent to it under one key. */
  lemma QueuePolicyHolds(clock: Time, events: seq<Event>, k: Key, o: Key)
    requires Run(NO_TABLES, clock, events)
    requires var jobs := Final(NO_TABLES, clock, events).jobs;
             && k in jobs && o in jobs && k != o && k.queue == o.queue && KeyText(jobs[k]) == KeyText(jobs[o])
             && !Copied(jobs[k]) && !Copied(jobs[o])
    ensures var db := Final(NO_TABLES, clock, events);
            && k.queue in db.queues && db.jobs[k].policy == Some(db.queues[k.queue].policy)
            && PolicyAdmitsBoth(db.jobs[k], db.jobs[o])
  {
    OriginsHold(NO_TABLES, clock, events);
    var db := Final(NO_TABLES, clock, events);
    assert HasOrigin(db.queues, k, db.jobs[k]) && HasOrigin(db.queues, o, db.jobs[o]);
    PoliciesHold(NO_TABLES, clock, events, k, o);
  }

  /** A copy starts afresh: claimable at once, with all attempts of its queue and a lease of fifteen minutes, in no
      unique index, kept while queued for the queue's retention, and never to be routed again. */
  lemma CopyStartsAfresh(db: Db, e: Event, c: Key)
    requires Legal(db, e) && Exec(db, e).Ok? && Exec(db, e).value.Update? && c in Exec(db, e).value.copies
    ensures c !in db.jobs && c in After(db, e).jobs && c.queue in db.queues
    ensures var copy, q := After(db, e).jobs[c], db.queues[c.queue];
            && Copied(copy) && Guard(Claim, copy, e.at) && BoundedWork.Remaining(copy) == 1 + Max(0, q.retryLimit)
            && PolicyEntry(c, copy).None? && ThrottleEntry(c, copy).None?
            && (forall t :: TooOld(copy, t) <==> t > e.at + q.retentionSeconds as real)
            && (forall t :: LeaseExpired(Apply(Claim, c, copy, e.at), t) <==> t > e.at + 900.0)
    ensures forall change: Change, t: Time :: !ToRoute(db.queues, Apply(change, c, After(db, e).jobs[c], t))
  {
    CopyIsInserted(db, e, c);
    var copy, source := Exec(db, e).value.copies[c], Exec(db, e).value.copies[c].source;
    FreshCopy(c, db.queues[c.queue], db.jobs[source].data, Exec(db, e).value.change.output, e.at);
    NeverRouted(db.queues, c, copy.row);
  }

  lemma CopyIsInserted(db: Db, e: Event, c: Key)
    requires Legal(db, e) && Exec(db, e).Ok? && Exec(db, e).value.Update? && c in Exec(db, e).value.copies
    ensures var d := Exec(db, e).value;
            && c !in db.jobs && c in After(db, e).jobs && After(db, e).jobs[c] == d.copies[c].row
            && c.queue in db.queues && d.copies[c].source in db.jobs && d.change.Fail?
            && d.copies[c].row == CopyRow(db.queues[c.queue], db.jobs[d.copies[c].source].data, d.change.output, e.at)
  {
    PlanIsSound(db, e);
    CopyInPatch(db, Exec(db, e).value, e.at, c);
  }

  lemma CopyInPatch(db: Db, d: Delta, now: Time, c: Key)
    requires d.Update? && CopiesOf(db, d, now) && c in d.copies
    ensures c !in db.jobs && c in Patch(db, d, now).jobs && Patch(db, d, now).jobs[c] == d.copies[c].row
    ensures c.queue in db.queues && d.copies[c].source in db.jobs && d.change.Fail?
    ensures d.copies[c].row == CopyRow(db.queues[c.queue], db.jobs[d.copies[c].source].data, d.change.output, now)
  {
  }

  lemma FreshCopy(c: Key, q: Queue, data: Payload, output: Payload, now: Time)
    ensures var copy := CopyRow(q, data, output, now);
            && Copied(copy) && Guard(Claim, copy, now) && BoundedWork.Remaining(copy) == 1 + Max(0, q.retryLimit)
            && PolicyEntry(c, copy).None? && ThrottleEntry(c, copy).None?
            && (forall t :: TooOld(copy, t) <==> t > now + q.retentionSeconds as real)
            && (forall t :: LeaseExpired(Apply(Claim, c, copy, now), t) <==> t > now + 900.0)
  {
  }

  lemma NeverRouted(queues: map<string, Queue>, c: Key, copy: Job)
    requires copy.deadLetter.None?
    ensures forall change: Change, t: Time :: !ToRoute(queues, Apply(change, c, copy, t))
  {
    forall change: Change, t: Time ensures !ToRoute(queues, Apply(change, c, copy, t)) {
      ColumnsKept(change, c, copy, t);
    }
  }
}
