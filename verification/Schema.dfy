/** The rows of the job and queue tables and the constraints declared on them. */
module Schema {
  import opened Options

  /** Seconds since the epoch; `timestamp` and `timestamptz` are not told apart. */
  type Time = real

  /** A UUID, ordered as the database orders it. */
  type Id = nat

  /** A nullable jsonb column, kept as its text. */
  type Payload = Option<string>

  /** The job_state enum; Rank is the numeric value behind its comparisons. */
  datatype State = Created | Retry | Active | Completed | Cancelled | Failed {
    function Rank(): nat {
      match this
      case Created => 0
      case Retry => 1
      case Active => 2
      case Completed => 3
      case Cancelled => 4
      case Failed => 5
    }

    /** state < 'active' */
    predicate Queued() { Rank() < Active.Rank() }

    /** state > 'active' */
    predicate Finished() { Rank() > Active.Rank() }
  }

  datatype Policy = Standard | Short | Singleton | Stately | Exclusive | KeyStrictFifo

  /** The primary key (name, id) of a job. */
  datatype Key = Key(queue: string, id: Id)

  datatype Job = Job(
    priority: int,
    data: Payload,
    state: State,
    retryLimit: int,
    retryCount: nat,
    retryDelay: int,
    retryBackoff: bool,
    retryDelayMax: Option<int>,
    expireSeconds: int,
    deletionSeconds: int,
    singletonKey: Option<string>,
    singletonOn: Option<int>,
    groupId: Option<string>,
    startAfter: Time,
    createdOn: Time,
    startedOn: Option<Time>,
    completedOn: Option<Time>,
    keepUntil: Time,
    output: Payload,
    deadLetter: Option<string>,
    policy: Option<Policy>)

  datatype Queue = Queue(
    policy: Policy,
    retryLimit: int,
    retryDelay: int,
    retryBackoff: bool,
    retryDelayMax: Option<int>,
    expireSeconds: int,
    retentionSeconds: int,
    deletionSeconds: int,
    deadLetter: Option<string>)

  type Jobs = map<Key, Job>

  datatype Db = Db(jobs: Jobs, queues: map<string, Queue>)

  /** One entry of one of the unique partial indexes job_i1, i2, i3, i6, i8 and i4. */
  datatype Entry =
    | ShortEntry(queue: string, key: string)
    | SingletonEntry(queue: string, key: string)
    | StatelyEntry(queue: string, state: State, key: string)
    | ExclusiveEntry(queue: string, key: string)
    | FifoEntry(queue: string, key: string)
    | SlotEntry(queue: string, slot: int, key: string)

  /** COALESCE(singleton_key, '') */
  function KeyText(j: Job): string { j.singletonKey.Or("") }

  /** The entry of a row in the index of its own policy, if the index covers it. */
  function PolicyEntry(k: Key, j: Job): Option<Entry> {
    EntryFor(k.queue, j.policy, j.state, j.singletonKey)
  }

  function EntryFor(queue: string, policy: Option<Policy>, state: State, key: Option<string>): Option<Entry> {
    match policy
    case Some(Short) => if state.Created? then Some(ShortEntry(queue, key.Or(""))) else None
    case Some(Singleton) => if state.Active? then Some(SingletonEntry(queue, key.Or(""))) else None
    case Some(Stately) =>
      if state.Rank() <= Active.Rank() then Some(StatelyEntry(queue, state, key.Or(""))) else None
    case Some(Exclusive) =>
      if state.Rank() <= Active.Rank() then Some(ExclusiveEntry(queue, key.Or(""))) else None
    case Some(KeyStrictFifo) =>
      if (state.Active? || state.Retry? || state.Failed?) && key.Some? then Some(FifoEntry(queue, key.value)) else None
    case _ => None
  }

  /** The entry of a row in the throttle index job_i4, if the index covers it. */
  function ThrottleEntry(k: Key, j: Job): Option<Entry> {
    if !j.state.Cancelled? && j.singletonOn.Some?
    then Some(SlotEntry(k.queue, j.singletonOn.value, KeyText(j))) else None
  }

  /** Two rows that some unique index cannot hold together. */
  predicate Clash(k1: Key, j1: Job, k2: Key, j2: Job) {
    || (PolicyEntry(k1, j1).Some? && PolicyEntry(k1, j1) == PolicyEntry(k2, j2))
    || (ThrottleEntry(k1, j1).Some? && ThrottleEntry(k1, j1) == ThrottleEntry(k2, j2))
  }

  /** All six unique indexes hold. */
  predicate Unique(jobs: Jobs) {
    forall k1, k2 | k1 in jobs && k2 in jobs && k1 != k2 :: !Clash(k1, jobs[k1], k2, jobs[k2])
  }

  /** NOT (policy = 'key_strict_fifo' AND singleton_key IS NULL) */
  predicate Checked(j: Job) {
    !(j.policy == Some(KeyStrictFifo) && j.singletonKey.None?)
  }

  /** The constraints of one job row: its queue, its CHECK and its dead letter. */
  predicate RowIsReferential(queues: map<string, Queue>, k: Key, j: Job) {
    k.queue in queues && Checked(j) && (j.deadLetter.Some? ==> j.deadLetter.value in queues)
  }

  /** The foreign keys and CHECK constraints of both tables. */
  predicate Referential(db: Db) {
    && (forall k | k in db.jobs :: RowIsReferential(db.queues, k, db.jobs[k]))
    && (forall q | q in db.queues ::
          db.queues[q].deadLetter.Some? ==>
            db.queues[q].deadLetter.value in db.queues && db.queues[q].deadLetter.value != q)
  }

  /** Everything the database itself guarantees of its contents. */
  predicate Consistent(db: Db) {
    Unique(db.jobs) && Referential(db)
  }
}
