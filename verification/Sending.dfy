/** What a send becomes on its way to the insert, and what one insert of one job does. */
module Sending {
  import opened Options
  import opened Schema
  import opened Statements
  import opened Effects

  /** The options of a send that reach its insert. */
  datatype SendOptions = SendOptions(
    priority: int,
    startAfter: Option<Start>,
    singletonKey: Option<string>,
    singletonSeconds: Option<int>,
    singletonNextSlot: bool,
    deadLetter: Option<string>,
    groupId: Option<string>,
    retryLimit: Option<int>,
    retryDelay: Option<int>,
    retryBackoff: Option<bool>,
    expireSeconds: Option<int>)

  const DEFAULTS := SendOptions(0, None, None, None, false, None, None, None, None, None, None)

  /** `_job_payload`: an option that is not set is left out; a next-slot send is offset by one slot. */
  function JobPayload(id: Id, data: Payload, o: SendOptions): Spec {
    Spec(
      id := id,
      data := data,
      priority := Some(o.priority),
      startAfter := o.startAfter.Or(In(0.0)),
      singletonKey := o.singletonKey,
      singletonSeconds := o.singletonSeconds,
      singletonOffset := if o.singletonNextSlot then o.singletonSeconds else None,
      groupId := o.groupId,
      expireSeconds := o.expireSeconds,
      deletionSeconds := None,
      retentionSeconds := None,
      retryLimit := o.retryLimit,
      retryDelay := o.retryDelay,
      retryBackoff := o.retryBackoff,
      retryDelayMax := None,
      deadLetter := o.deadLetter)
  }

  /** The queue that create_queue makes of a policy alone. */
  function QueueWith(policy: Policy): Queue { Queue(policy, 2, 0, false, None, 900, 1209600, 604800, None) }

  /** On the empty tables a queue is created. */
  lemma QueueIsCreated(name: string, q: Queue, now: Time)
    requires q.deadLetter.None?
    ensures var e := Event(now, CreateQueue(name, q));
            Exec(NO_TABLES, e).Ok? && After(NO_TABLES, e) == Db(map[], map[name := q])
  {
  }

  /** A send that meets no conflict adds its row. */
  lemma SendIsAccepted(db: Db, queue: string, s: Spec, now: Time)
    requires Unique(db.jobs) && queue in db.queues && s.singletonSeconds != Some(0)
    requires var row := NewRow(s, db.queues[queue], now);
             Checked(row) && row.deadLetter.None? && !Conflicts(db.jobs, Key(queue, s.id), row)
    ensures var e := Event(now, InsertJobs(queue, [s]));
            && Exec(db, e).Ok?
            && After(db, e) == db.(jobs := db.jobs[Key(queue, s.id) := NewRow(s, db.queues[queue], now)])
  {
    var q, k, row := db.queues[queue], Key(queue, s.id), NewRow(s, db.queues[queue], now);
    var table := db.jobs[k := row];
    assert [s][1..] == [];
    assert Accept(db.jobs, queue, q, [s], now) == Accept(table, queue, q, [], now) == Ok(table);
    AcceptExtends(db.jobs, queue, q, [s], now);
    assert table - db.jobs.Keys == map[k := row];
    assert db.jobs + map[k := row] == table;
  }

  /** A send that conflicts is skipped. */
  lemma SendIsSkipped(db: Db, queue: string, s: Spec, now: Time)
    requires Unique(db.jobs) && queue in db.queues && s.singletonSeconds != Some(0)
    requires var row := NewRow(s, db.queues[queue], now);
             Checked(row) && Conflicts(db.jobs, Key(queue, s.id), row)
    ensures var e := Event(now, InsertJobs(queue, [s]));
            Exec(db, e).Ok? && After(db, e) == db
  {
    assert [s][1..] == [];
    assert Accept(db.jobs, queue, db.queues[queue], [s], now)
        == Accept(db.jobs, queue, db.queues[queue], [], now) == Ok(db.jobs);
    assert db.jobs - db.jobs.Keys == map[];
    assert db.jobs + map[] == db.jobs;
  }

  /** The queue and the rows of two sends. */
  function TwoRows(queue: string, q: Queue, s0: Spec, s1: Spec, t: Time, later: Time): Db
    requires s0.singletonSeconds.None? && s1.singletonSeconds.None?
  {
    Db(map[Key(queue, s0.id) := NewRow(s0, q, t), Key(queue, s1.id) := NewRow(s1, q, later)], map[queue := q])
  }

  /** From the empty tables: a queue is created, and two sends that do not clash are accepted. */
  lemma TwoSends(queue: string, q: Queue, s0: Spec, s1: Spec, t: Time, later: Time)
    requires t <= later && q.deadLetter.None? && s0.id != s1.id && s0.singletonSeconds.None?
    requires s1.singletonSeconds.None?
    requires s0.deadLetter.None? && Checked(NewRow(s0, q, t)) && s1.deadLetter.None? && Checked(NewRow(s1, q, later))
    requires !Clash(Key(queue, s1.id), NewRow(s1, q, later), Key(queue, s0.id), NewRow(s0, q, t))
    ensures Reachable(TwoRows(queue, q, s0, s1, t, later), later)
  {
    var none := Db(map[], map[queue := q]);
    var one := Db(map[Key(queue, s0.id) := NewRow(s0, q, t)], map[queue := q]);
    StartIsReachable(t);
    QueueIsCreated(queue, q, t);
    StepIsReachable(NO_TABLES, t, Event(t, CreateQueue(queue, q)));
    SendIsAccepted(none, queue, s0, t);
    StepIsReachable(none, t, Event(t, InsertJobs(queue, [s0])));
    SendIsAccepted(one, queue, s1, later);
    StepIsReachable(one, t, Event(later, InsertJobs(queue, [s1])));
  }
}
