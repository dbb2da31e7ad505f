/** How far a per-group cap holds, for claims one at a time and for claims working from stale counts. */
module GroupCap {
  import opened Options
  import opened Schema
  import opened Claiming
  import opened Statements
  import opened Effects
  import opened Sending

  lemma CountsAreActive(jobs: Jobs, queue: string, group: string)
    ensures CountOf(ActiveCounts(jobs, queue), group) == |ActiveIn(jobs, queue, group)|
  {
    var active := ActiveIn(jobs, queue, group);
    if active != {} {
      var k :| k in active;
      assert jobs[k].groupId.value == group;
      assert group in ActiveCounts(jobs, queue);
    }
  }

  /** The active rows of a group after rows of its queue are claimed. */
  lemma ClaimAdds(jobs: Jobs, claimed: set<Key>, queue: string, group: string, now: Time)
    requires forall k | k in claimed :: k in jobs && k.queue == queue && jobs[k].state.Queued()
    ensures ActiveIn(Touch(jobs, Claim, claimed, now), queue, group)
            == ActiveIn(jobs, queue, group) + Group(jobs, claimed, group)
    ensures |ActiveIn(Touch(jobs, Claim, claimed, now), queue, group)|
            == |ActiveIn(jobs, queue, group)| + |Group(jobs, claimed, group)|
  {
    var after := Touch(jobs, Claim, claimed, now);
    assert ActiveIn(after, queue, group) == ActiveIn(jobs, queue, group) + Group(jobs, claimed, group);
    assert ActiveIn(jobs, queue, group) !! Group(jobs, claimed, group);
  }

  predicate ClaimsFrom(s: Stmt, queue: string) { s.FetchNext? && s.queue == queue }

  lemma UpdateOnlyFrees(db: Db, d: Delta, now: Time, queue: string, group: string)
    requires d.Update? && CopiesOf(db, d, now) && !d.change.Claim?
    ensures ActiveIn(Patch(db, d, now).jobs, queue, group) <= ActiveIn(db.jobs, queue, group)
  {
    var after := Patch(db, d, now).jobs;
    forall k | k in ActiveIn(after, queue, group) ensures k in ActiveIn(db.jobs, queue, group) {
      if k !in d.copies && k in d.touched {
        StateMoves(d.change, k, db.jobs[k], now);
      }
    }
  }

  lemma ClaimElsewhere(db: Db, claimed: set<Key>, now: Time, queue: string, group: string)
    requires forall k | k in claimed :: k in db.jobs && k.queue != queue
    ensures ActiveIn(Touch(db.jobs, Claim, claimed, now), queue, group) == ActiveIn(db.jobs, queue, group)
  {
  }

  lemma Smaller<T>(a: set<T>, b: set<T>)
    requires a <= b
    ensures |a| <= |b|
  {
    assert b == a + (b - a);
  }

  /** No other statement makes a row of the queue active. */
  lemma OthersOnlyFree(db: Db, e: Event, queue: string, group: string)
    requires Legal(db, e) && !ClaimsFrom(e.stmt, queue)
    ensures |ActiveIn(After(db, e).jobs, queue, group)| <= |ActiveIn(db.jobs, queue, group)|
  {
    if Exec(db, e).Ok? {
      PlanIsSound(db, e);
      var d := Plan(db, e).value;
      if e.stmt.FetchNext? {
        FetchElsewhere(db, e, queue, group);
      } else {
        PatchOnlyFrees(db, d, e.at, queue, group);
      }
      Smaller(ActiveIn(After(db, e).jobs, queue, group), ActiveIn(db.jobs, queue, group));
    }
  }

  lemma FetchElsewhere(db: Db, e: Event, queue: string, group: string)
    requires e.stmt.FetchNext? && e.stmt.queue != queue && Exec(db, e).Ok?
    ensures ActiveIn(After(db, e).jobs, queue, group) == ActiveIn(db.jobs, queue, group)
  {
    FetchIsTouch(db, e);
    ClaimElsewhere(db, ClaimedBy(db, e), e.at, queue, group);
  }

  lemma PatchOnlyFrees(db: Db, d: Delta, now: Time, queue: string, group: string)
    requires Sound(db, d, now) && !(d.Update? && d.change.Claim?)
    ensures ActiveIn(Patch(db, d, now).jobs, queue, group) <= ActiveIn(db.jobs, queue, group)
  {
    if d.Update? { UpdateOnlyFrees(db, d, now, queue, group); }
  }

  /** The batch a capped fetch ranks. */
  ghost function BatchOf(db: Db, e: Event): (batch: set<Key>)
    requires e.stmt.FetchNext? && e.stmt.cap.Some? && e.stmt.batch >= 0
    ensures batch <= Candidates(db.jobs, e.stmt.queue, e.at, e.stmt.locked)
  {
    var keys := Candidates(db.jobs, e.stmt.queue, e.at, e.stmt.locked);
    Batch(db.jobs, BelowCap(db.jobs, keys, ActiveCounts(db.jobs, e.stmt.queue), e.stmt.cap.value), e.stmt.batch)
  }

  lemma ClaimIsWithinCap(db: Db, e: Event)
    requires e.stmt.FetchNext? && e.stmt.cap.Some? && e.stmt.batch >= 0
    ensures ClaimedBy(db, e)
            == WithinCap(db.jobs, BatchOf(db, e), ActiveCounts(db.jobs, e.stmt.queue), e.stmt.cap.value)
  {
  }

  /** A committed claim takes from each group exactly the smaller of its rows in the batch and its free slots. */
  lemma ClaimTakesExactly(db: Db, e: Event, group: string)
    requires Legal(db, e) && e.stmt.FetchNext? && e.stmt.cap.Some? && Exec(db, e).Ok?
    ensures e.stmt.batch >= 0
    ensures var active := |ActiveIn(db.jobs, e.stmt.queue, group)|;
            |ActiveIn(After(db, e).jobs, e.stmt.queue, group)|
            == active + Min(|Group(db.jobs, BatchOf(db, e), group)|, Max(0, e.stmt.cap.value - active))
  {
    var q, c := e.stmt.queue, e.stmt.cap.value;
    FetchIsTouch(db, e);
    ClaimIsWithinCap(db, e);
    CountsAreActive(db.jobs, q, group);
    GroupTake(db.jobs, BatchOf(db, e), ActiveCounts(db.jobs, q), c, group);
    ClaimAdds(db.jobs, ClaimedBy(db, e), q, group, e.at);
  }

  /** If every claim on a queue uses the same cap, no group of it ever has more active jobs than that. */
  lemma {:induction false} CapHolds(db: Db, clock: Time, events: seq<Event>, queue: string, group: string, cap: int)
    requires Run(db, clock, events) && |ActiveIn(db.jobs, queue, group)| <= Max(0, cap)
    requires forall e | e in events && ClaimsFrom(e.stmt, queue) :: e.stmt.cap == Some(cap)
    ensures |ActiveIn(Final(db, clock, events).jobs, queue, group)| <= Max(0, cap)
    decreases |events|
  {
    if events != [] {
      var e := events[0];
      assert e in events;
      if !ClaimsFrom(e.stmt, queue) {
        OthersOnlyFree(db, e, queue, group);
      } else if Exec(db, e).Ok? {
        ClaimTakesExactly(db, e, group);
      }
      CapHolds(After(db, e), e.at, events[1..], queue, group, cap);
    }
  }

  /** A capped claim finds something exactly when some unlocked due job is ungrouped or in a group below its cap. */
  lemma ClaimProgress(db: Db, e: Event)
    requires e.stmt.FetchNext? && e.stmt.cap.Some? && e.stmt.cap.value >= 1 && e.stmt.batch >= 1
    ensures ClaimedBy(db, e) != {} <==>
            exists k | k in Candidates(db.jobs, e.stmt.queue, e.at, e.stmt.locked) ::
              var g := db.jobs[k].groupId;
              g.None? || |ActiveIn(db.jobs, e.stmt.queue, g.value)| < e.stmt.cap.value
  {
    var keys := Candidates(db.jobs, e.stmt.queue, e.at, e.stmt.locked);
    var counts := ActiveCounts(db.jobs, e.stmt.queue);
    GroupProgress(db.jobs, keys, counts, e.stmt.cap.value, e.stmt.batch);
    assert ClaimedBy(db, e) == WithinCap(db.jobs, BatchOf(db, e), counts, e.stmt.cap.value);
    forall k | k in keys && db.jobs[k].groupId.Some?
      ensures CountOf(counts, db.jobs[k].groupId.value) == |ActiveIn(db.jobs, e.stmt.queue, db.jobs[k].groupId.value)|
    {
      CountsAreActive(db.jobs, e.stmt.queue, db.jobs[k].groupId.value);
    }
    if k :| k in keys && (db.jobs[k].groupId.None? ||
                          |ActiveIn(db.jobs, e.stmt.queue, db.jobs[k].groupId.value)| < e.stmt.cap.value) {
      assert k in BelowCap(db.jobs, keys, counts, e.stmt.cap.value);
    }
  }

  // ---- claims that overlap ----

  /** The tables and the counts that claims in flight on one queue have already read. */
  datatype Floor = Floor(db: Db, inFlight: seq<map<string, nat>>)

  /** A claim counts at one moment and commits at another; `locked` are the rows other transactions hold when it picks
      its batch, those of other claims in flight among them. */
  datatype Move =
    | Snapshot(at: Time)
    | Commit(i: nat, batch: nat, locked: set<Key>, at: Time)
    | Other(e: Event)

  function TimeOf(m: Move): Time {
    match m
    case Snapshot(at) => at
    case Commit(_, _, _, at) => at
    case Other(e) => e.at
  }

  /** At most `k` claims are in flight. */
  ghost predicate Possible(f: Floor, m: Move, queue: string, k: nat) {
    match m
    case Snapshot(_) => |f.inFlight| < k
    case Commit(i, _, _, _) => i < |f.inFlight|
    case Other(e) => Legal(f.db, e) && !ClaimsFrom(e.stmt, queue)
  }

  ghost function Moved(f: Floor, m: Move, queue: string, cap: nat, k: nat): Floor
    requires Possible(f, m, queue, k)
  {
    match m
    case Snapshot(_) => f.(inFlight := f.inFlight + [ActiveCounts(f.db.jobs, queue)])
    case Commit(i, batch, locked, at) =>
      var claimed := Claimed(f.db.jobs, f.inFlight[i], queue, batch, Some(cap), locked, at);
      var jobs := Touch(f.db.jobs, Claim, claimed, at);
      Floor(if Unique(jobs) then f.db.(jobs := jobs) else f.db, f.inFlight[..i] + f.inFlight[i + 1..])
    case Other(e) => f.(db := After(f.db, e))
  }

  /** Any interleaving of claims in flight with everything else, at times that never go back. */
  ghost predicate Moves(f: Floor, clock: Time, moves: seq<Move>, queue: string, cap: nat, k: nat)
    decreases |moves|
  {
    moves == [] ||
    (clock <= TimeOf(moves[0]) && Possible(f, moves[0], queue, k) &&
     Moves(Moved(f, moves[0], queue, cap, k), TimeOf(moves[0]), moves[1..], queue, cap, k))
  }

  ghost function Settled(f: Floor, clock: Time, moves: seq<Move>, queue: string, cap: nat, k: nat): Floor
    requires Moves(f, clock, moves, queue, cap, k)
    decreases |moves|
  {
    if moves == [] then f
    else Settled(Moved(f, moves[0], queue, cap, k), TimeOf(moves[0]), moves[1..], queue, cap, k)
  }

  /** What the claims in flight may still add to a group: each the free slots it saw. */
  function Quotas(inFlight: seq<map<string, nat>>, group: string, cap: nat): nat {
    if inFlight == [] then 0 else Free(inFlight[0], cap, group) + Quotas(inFlight[1..], group, cap)
  }

  lemma {:induction false} QuotasBound(inFlight: seq<map<string, nat>>, group: string, cap: nat)
    ensures Quotas(inFlight, group, cap) <= |inFlight| * cap
  {
    if inFlight != [] {
      QuotasBound(inFlight[1..], group, cap);
      RoomForOneMore(|inFlight| - 1, |inFlight|, cap, Quotas(inFlight[1..], group, cap));
    }
  }

  lemma {:induction false} QuotasSplit(a: seq<map<string, nat>>, b: seq<map<string, nat>>, group: string, cap: nat)
    ensures Quotas(a + b, group, cap) == Quotas(a, group, cap) + Quotas(b, group, cap)
  {
    if a == [] {
      assert a + b == b;
    } else {
      QuotasSplit(a[1..], b, group, cap);
      assert (a + b)[1..] == a[1..] + b;
    }
  }

  /** The active jobs of a group and all that claims in flight may add stay within k caps. */
  ghost predicate Bounded(f: Floor, queue: string, group: string, cap: nat, k: nat) {
    |f.inFlight| <= k && |ActiveIn(f.db.jobs, queue, group)| + Quotas(f.inFlight, group, cap) <= k * cap
  }

  lemma RoomForOneMore(n: nat, k: nat, cap: nat, quotas: nat)
    requires n < k && quotas <= n * cap
    ensures quotas + cap <= k * cap
  {
    assert (n + 1) * cap <= k * cap;
  }

  lemma SnapshotStaysBounded(f: Floor, at: Time, queue: string, group: string, cap: nat, k: nat)
    requires Bounded(f, queue, group, cap, k) && |f.inFlight| < k
    ensures Bounded(Moved(f, Snapshot(at), queue, cap, k), queue, group, cap, k)
  {
    var mine := ActiveCounts(f.db.jobs, queue);
    CountsAreActive(f.db.jobs, queue, group);
    QuotasSplit(f.inFlight, [mine], group, cap);
    QuotasBound(f.inFlight, group, cap);
    RoomForOneMore(|f.inFlight|, k, cap, Quotas(f.inFlight, group, cap));
    assert Quotas([mine], group, cap) == Free(mine, cap, group) + Quotas([], group, cap);
  }

  /** A claim from stale counts takes no more than the quota those counts left it. */
  lemma ClaimedWithinQuota(jobs: Jobs, counts: map<string, nat>, queue: string, batch: nat, cap: nat, locked: set<Key>,
                           now: Time, group: string)
    ensures |Group(jobs, Claimed(jobs, counts, queue, batch, Some(cap), locked, now), group)|
            <= Free(counts, cap, group)
  {
    var keys := Candidates(jobs, queue, now, locked);
    GroupTake(jobs, Batch(jobs, BelowCap(jobs, keys, counts, cap), batch), counts, cap, group);
  }

  lemma CommitStaysBounded(f: Floor, i: nat, batch: nat, locked: set<Key>, at: Time,
                           queue: string, group: string, cap: nat, k: nat)
    requires Bounded(f, queue, group, cap, k) && Possible(f, Commit(i, batch, locked, at), queue, k)
    ensures Bounded(Moved(f, Commit(i, batch, locked, at), queue, cap, k), queue, group, cap, k)
  {
    var before, mine, after := f.inFlight[..i], f.inFlight[i], f.inFlight[i + 1..];
    assert f.inFlight == before + ([mine] + after);
    QuotasSplit(before, [mine] + after, group, cap);
    QuotasSplit(before, after, group, cap);
    ClaimedWithinQuota(f.db.jobs, mine, queue, batch, cap, locked, at, group);
    ClaimAdds(f.db.jobs, Claimed(f.db.jobs, mine, queue, batch, Some(cap), locked, at), queue, group, at);
  }

  /** With at most k claims in flight, however stale their counts and whatever settles in between, a group never
      has more than k times its cap active. */
  lemma {:induction false} StaleCapHolds(f: Floor, clock: Time, moves: seq<Move>, queue: string, group: string,
                                         cap: nat, k: nat)
    requires Moves(f, clock, moves, queue, cap, k) && Bounded(f, queue, group, cap, k)
    ensures Bounded(Settled(f, clock, moves, queue, cap, k), queue, group, cap, k)
    ensures |ActiveIn(Settled(f, clock, moves, queue, cap, k).db.jobs, queue, group)| <= k * cap
    decreases |moves|
  {
    if moves != [] {
      match moves[0] {
        case Snapshot(at) => SnapshotStaysBounded(f, at, queue, group, cap, k);
        case Commit(i, batch, locked, at) => CommitStaysBounded(f, i, batch, locked, at, queue, group, cap, k);
        case Other(e) => OthersOnlyFree(f.db, e, queue, group);
      }
      StaleCapHolds(Moved(f, moves[0], queue, cap, k), TimeOf(moves[0]), moves[1..], queue, group, cap, k);
    }
  }

  // ---- and that bound is met ----

  /** The keys numbered m to n - 1. */
  function Numbered(queue: string, m: nat, n: nat): set<Key> { set i: nat | m <= i < n :: Key(queue, i) }

  lemma {:induction false} CountNumbered(queue: string, m: nat, n: nat)
    requires m <= n
    ensures |Numbered(queue, m, n)| == n - m
    decreases n - m
  {
    if n == m {
      assert Numbered(queue, m, n) == {};
    } else {
      CountNumbered(queue, m, n - 1);
      assert Numbered(queue, m, n) == {Key(queue, n - 1)} + Numbered(queue, m, n - 1);
      AddOne(Numbered(queue, m, n - 1), Key(queue, n - 1));
    }
  }

  /** Jobs of one group sent to a standard queue, due, the first m of them active. */
  ghost predicate Staged(jobs: Jobs, queue: string, group: string, n: nat, m: nat, now: Time) {
    && jobs.Keys == Numbered(queue, 0, n)
    && forall k | k in jobs ::
         && jobs[k].policy == Some(Standard) && jobs[k].singletonOn.None? && jobs[k].groupId == Some(group)
         && jobs[k].startAfter <= now && jobs[k].state == if k.id < m then Active else Created
  }

  function Sends(group: string, lo: nat, n: nat): seq<Spec>
    decreases n - lo
  {
    if lo >= n then [] else [JobPayload(lo, None, DEFAULTS.(groupId := Some(group)))] + Sends(group, lo + 1, n)
  }

  /** All of the group's jobs are accepted. */
  lemma {:induction false} SendsAreAccepted(jobs: Jobs, queue: string, group: string, lo: nat, n: nat, now: Time)
    requires lo <= n && Staged(jobs, queue, group, lo, 0, now) && forall k | k in jobs :: jobs[k].deadLetter.None?
    ensures var r := Accept(jobs, queue, QueueWith(Standard), Sends(group, lo, n), now);
            r.Ok? && Staged(r.value, queue, group, n, 0, now) && forall k | k in r.value :: r.value[k].deadLetter.None?
    decreases n - lo
  {
    if lo < n {
      var specs := Sends(group, lo, n);
      var k, row := Key(queue, lo), NewRow(specs[0], QueueWith(Standard), now);
      assert specs[1..] == Sends(group, lo + 1, n);
      assert !Conflicts(jobs, k, row);
      assert Numbered(queue, 0, lo + 1) == Numbered(queue, 0, lo) + {k};
      SendsAreAccepted(jobs[k := row], queue, group, lo + 1, n, now);
    }
  }

  lemma GroupIsSent(queue: string, group: string, n: nat, now: Time)
    ensures var db := Db(map[], map[queue := QueueWith(Standard)]);
            var e := Event(now, InsertJobs(queue, Sends(group, 0, n)));
            Exec(db, e).Ok? && Staged(After(db, e).jobs, queue, group, n, 0, now)
  {
    var db, e := Db(map[], map[queue := QueueWith(Standard)]), Event(now, InsertJobs(queue, Sends(group, 0, n)));
    assert Numbered(queue, 0, 0) == {};
    SendsAreAccepted(map[], queue, group, 0, n, now);
    var table := Accept(map[], queue, QueueWith(Standard), Sends(group, 0, n), now).value;
    var none: set<Key> := {};
    assert table - none == table && map[] + table == table;
    assert Exec(db, e) == Ok(Insert(table));
  }

  lemma StagedCandidates(jobs: Jobs, queue: string, group: string, n: nat, m: nat, cap: nat, now: Time)
    requires Staged(jobs, queue, group, n, m, now) && m + cap <= n
    ensures Candidates(jobs, queue, now, Numbered(queue, m + cap, n))
            == Numbered(queue, m, m + cap)
    ensures forall k | k in Numbered(queue, m, m + cap) :: k in jobs && jobs[k].groupId == Some(group)
  {
  }

  /** A whole batch of one group fits a cap of its size if nobody of the group was seen active. */
  lemma BatchFits(jobs: Jobs, keys: set<Key>, group: string, cap: nat)
    requires OfOneQueue(jobs, keys) && |keys| == cap && forall k | k in keys :: jobs[k].groupId == Some(group)
    ensures WithinCap(jobs, keys, map[], cap) == keys
  {
    assert Group(jobs, keys, group) == keys;
    forall k | k in keys ensures Rank(jobs, keys, k) <= cap {
      Smaller(UpTo(keys, k), keys);
    }
  }

  lemma WholeBatch(jobs: Jobs, keys: set<Key>, cap: nat)
    requires OfOneQueue(jobs, keys) && |keys| == cap
    ensures BelowCap(jobs, keys, map[], cap) == keys && Batch(jobs, keys, cap) == keys
  {
    TopIsFull(jobs, keys, cap);
    SameSize(Batch(jobs, keys, cap), keys);
  }

  lemma ClaimedFrom(jobs: Jobs, counts: map<string, nat>, queue: string, batch: nat, cap: int, locked: set<Key>,
                    now: Time, open: set<Key>, taken: set<Key>)
    requires open == BelowCap(jobs, Candidates(jobs, queue, now, locked), counts, cap)
    requires taken == Batch(jobs, open, batch)
    ensures Claimed(jobs, counts, queue, batch, Some(cap), locked, now) == WithinCap(jobs, taken, counts, cap)
  {
  }

  /** A claim that saw nobody active takes every row that is not locked, if they are as many as its batch and
      its cap. */
  lemma StaleClaimTakesAll(jobs: Jobs, keys: set<Key>, queue: string, group: string, cap: nat, locked: set<Key>,
                           now: Time)
    requires keys == Candidates(jobs, queue, now, locked) && |keys| == cap
    requires forall k | k in keys :: k in jobs && jobs[k].groupId == Some(group)
    ensures Claimed(jobs, map[], queue, cap, Some(cap), locked, now) == keys
  {
    WholeBatch(jobs, keys, cap);
    BatchFits(jobs, keys, group, cap);
    ClaimedFrom(jobs, map[], queue, cap, cap, locked, now, keys, keys);
  }

  /** No index covers a standard job that is not throttled. */
  lemma StagedIsUnique(jobs: Jobs, queue: string, group: string, n: nat, m: nat, now: Time)
    requires Staged(jobs, queue, group, n, m, now)
    ensures Unique(jobs)
  {
  }

  lemma StagedClaim(jobs: Jobs, queue: string, group: string, n: nat, m: nat, cap: nat, now: Time)
    requires Staged(jobs, queue, group, n, m, now) && m + cap <= n
    ensures var after := Touch(jobs, Claim, Numbered(queue, m, m + cap), now);
            Staged(after, queue, group, n, m + cap, now)
  {
    var after := Touch(jobs, Claim, Numbered(queue, m, m + cap), now);
    forall k | k in after ensures after[k].state == if k.id < m + cap then Active else Created {
      assert k in Numbered(queue, 0, n) && k == Key(queue, k.id);
    }
  }

  lemma NextShare(jobs: Jobs, queue: string, group: string, n: nat, m: nat, cap: nat, now: Time)
    requires Staged(jobs, queue, group, n, m, now) && m + cap <= n
    ensures Claimed(jobs, map[], queue, cap, Some(cap), Numbered(queue, m + cap, n), now)
            == Numbered(queue, m, m + cap)
  {
    var keys, locked := Numbered(queue, m, m + cap), Numbered(queue, m + cap, n);
    assert |keys| == cap by { CountNumbered(queue, m, m + cap); }
    assert keys == Candidates(jobs, queue, now, locked) by { StagedCandidates(jobs, queue, group, n, m, cap, now); }
    assert forall k | k in keys :: k in jobs && jobs[k].groupId == Some(group);
    StaleClaimTakesAll(jobs, keys, queue, group, cap, locked, now);
  }

  /** The commits of `left` claims, each holding the next `cap` rows while those behind are held by the others. */
  function Commits(queue: string, cap: nat, n: nat, m: nat, left: nat, now: Time): seq<Move>
    decreases left
  {
    if left == 0 then [] else
    [Commit(0, cap, Numbered(queue, m + cap, n), now)] + Commits(queue, cap, n, m + cap, left - 1, now)
  }

  lemma OneCommit(f: Floor, queue: string, group: string, cap: nat, n: nat, m: nat, k: nat, now: Time)
    requires Staged(f.db.jobs, queue, group, n, m, now) && m + cap <= n
    requires f.inFlight != [] && f.inFlight[0] == map[]
    ensures var move := Commit(0, cap, Numbered(queue, m + cap, n), now);
            && Possible(f, move, queue, k)
            && Staged(Moved(f, move, queue, cap, k).db.jobs, queue, group, n, m + cap, now)
            && Moved(f, move, queue, cap, k).inFlight == f.inFlight[1..]
  {
    NextShare(f.db.jobs, queue, group, n, m, cap, now);
    StagedClaim(f.db.jobs, queue, group, n, m, cap, now);
    var after := Touch(f.db.jobs, Claim, Numbered(queue, m, m + cap), now);
    StagedIsUnique(after, queue, group, n, m + cap, now);
    assert f.inFlight[..0] + f.inFlight[1..] == f.inFlight[1..];
  }

  /** Claims that counted while nobody was active. */
  predicate Unseeing(inFlight: seq<map<string, nat>>) { forall i | 0 <= i < |inFlight| :: inFlight[i] == map[] }

  lemma {:induction false} CommitsFill(f: Floor, queue: string, group: string, cap: nat, n: nat, m: nat, left: nat,
                                       k: nat, now: Time)
    requires Staged(f.db.jobs, queue, group, n, m, now) && m + left * cap == n
    requires |f.inFlight| == left && Unseeing(f.inFlight)
    ensures Moves(f, now, Commits(queue, cap, n, m, left, now), queue, cap, k)
    ensures Staged(Settled(f, now, Commits(queue, cap, n, m, left, now), queue, cap, k).db.jobs,
                   queue, group, n, n, now)
    decreases left
  {
    if left > 0 {
      var move := Commit(0, cap, Numbered(queue, m + cap, n), now);
      OneShareLess(left, cap);
      OneCommit(f, queue, group, cap, n, m, k, now);
      CommitsFill(Moved(f, move, queue, cap, k), queue, group, cap, n, m + cap, left - 1, k, now);
      FirstMove(f, move, Commits(queue, cap, n, m + cap, left - 1, now), queue, cap, k);
    }
  }

  lemma OneShareLess(left: nat, cap: nat)
    requires left > 0
    ensures left * cap == cap + (left - 1) * cap && left * cap >= cap
  {
    assert (left - 1) * cap >= 0;
  }

  /** `j` more claims count, and then all k of them commit. */
  function Overlap(queue: string, cap: nat, n: nat, j: nat, k: nat, now: Time): seq<Move> {
    if j == 0 then Commits(queue, cap, n, 0, k, now) else [Snapshot(now)] + Overlap(queue, cap, n, j - 1, k, now)
  }

  lemma {:induction false} OverlapFills(f: Floor, queue: string, group: string, cap: nat, n: nat, j: nat,
                                        k: nat, now: Time)
    requires Staged(f.db.jobs, queue, group, n, 0, now) && k * cap == n && j <= k
    requires |f.inFlight| == k - j && Unseeing(f.inFlight)
    ensures Moves(f, now, Overlap(queue, cap, n, j, k, now), queue, cap, k)
    ensures Staged(Settled(f, now, Overlap(queue, cap, n, j, k, now), queue, cap, k).db.jobs, queue, group, n, n, now)
    decreases j
  {
    if j == 0 {
      CommitsFill(f, queue, group, cap, n, 0, k, k, now);
    } else {
      var moves := Overlap(queue, cap, n, j, k, now);
      assert ActiveCounts(f.db.jobs, queue) == map[];
      assert moves[1..] == Overlap(queue, cap, n, j - 1, k, now);
      OverlapFills(Moved(f, moves[0], queue, cap, k), queue, group, cap, n, j - 1, k, now);
    }
  }

  const NOBODY := Floor(NO_TABLES, [])

  /** A queue is created, enough jobs of one group are sent, k claims count, and k claims commit. */
  function Rush(queue: string, group: string, cap: nat, k: nat, now: Time): seq<Move> {
    [Other(Event(now, CreateQueue(queue, QueueWith(Standard)))),
     Other(Event(now, InsertJobs(queue, Sends(group, 0, k * cap))))]
    + Overlap(queue, cap, k * cap, k, k, now)
  }

  /** For every k and every cap the bound is met, from the empty tables and with jobs anybody can send. */
  lemma StaleCapIsTight(queue: string, group: string, cap: nat, k: nat, now: Time)
    ensures var moves := Rush(queue, group, cap, k, now);
            && Moves(NOBODY, now, moves, queue, cap, k)
            && |ActiveIn(Settled(NOBODY, now, moves, queue, cap, k).db.jobs, queue, group)| == k * cap
  {
    var n, rest := k * cap, Overlap(queue, cap, k * cap, k, k, now);
    var create := Event(now, CreateQueue(queue, QueueWith(Standard)));
    var send := Event(now, InsertJobs(queue, Sends(group, 0, n)));
    QueueIsCreated(queue, QueueWith(Standard), now);
    GroupIsSent(queue, group, n, now);
    var created := Floor(After(NO_TABLES, create), []);
    var sent := Floor(After(created.db, send), []);
    OverlapFills(sent, queue, group, cap, n, k, k, now);
    FirstMove(created, Other(send), rest, queue, cap, k);
    FirstMove(NOBODY, Other(create), [Other(send)] + rest, queue, cap, k);
    assert Rush(queue, group, cap, k, now) == [Other(create)] + ([Other(send)] + rest);
    AllActive(Settled(sent, now, rest, queue, cap, k).db.jobs, queue, group, n, now);
  }

  lemma AllActive(jobs: Jobs, queue: string, group: string, n: nat, now: Time)
    requires Staged(jobs, queue, group, n, n, now)
    ensures |ActiveIn(jobs, queue, group)| == n
  {
    assert ActiveIn(jobs, queue, group) == Numbered(queue, 0, n);
    CountNumbered(queue, 0, n);
  }

  lemma FirstMove(f: Floor, m: Move, rest: seq<Move>, queue: string, cap: nat, k: nat)
    requires Possible(f, m, queue, k) && Moves(Moved(f, m, queue, cap, k), TimeOf(m), rest, queue, cap, k)
    ensures Moves(f, TimeOf(m), [m] + rest, queue, cap, k)
    ensures Settled(f, TimeOf(m), [m] + rest, queue, cap, k)
            == Settled(Moved(f, m, queue, cap, k), TimeOf(m), rest, queue, cap, k)
  {
    assert ([m] + rest)[1..] == rest;
  }

  /** No interleaving with at most k claims in flight ever has more than `bound` jobs of the group active. */
  ghost predicate NeverMoreThan(bound: nat, queue: string, group: string, cap: nat, k: nat) {
    forall clock, moves | Moves(NOBODY, clock, moves, queue, cap, k) ::
      |ActiveIn(Settled(NOBODY, clock, moves, queue, cap, k).db.jobs, queue, group)| <= bound
  }

  /** So k times the cap is exactly what a group is held to. */
  lemma StaleBoundIff(bound: nat, queue: string, group: string, cap: nat, k: nat)
    ensures NeverMoreThan(bound, queue, group, cap, k) <==> k * cap <= bound
  {
    if k * cap <= bound {
      forall clock, moves | Moves(NOBODY, clock, moves, queue, cap, k)
        ensures |ActiveIn(Settled(NOBODY, clock, moves, queue, cap, k).db.jobs, queue, group)| <= bound
      {
        assert ActiveIn(NOBODY.db.jobs, queue, group) == {};
        StaleCapHolds(NOBODY, clock, moves, queue, group, cap, k);
      }
    } else {
      StaleCapIsTight(queue, group, cap, k, 0.0);
    }
  }

  /** The cap itself holds across all nodes exactly when claims never overlap, or when it admits nobody. */
  lemma CapHoldsIff(queue: string, group: string, cap: nat, k: nat)
    ensures NeverMoreThan(cap, queue, group, cap, k) <==> k <= 1 || cap == 0
  {
    StaleBoundIff(cap, queue, group, cap, k);
    if k >= 2 { assert k * cap == cap + (k - 1) * cap && (k - 1) * cap >= cap; }
  }
}
