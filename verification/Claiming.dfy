/** Which rows `fetch_next_job` claims: the ordered, limited batch and the per-group rank filter over it. */
module Claiming {
  import opened Options
  import opened Schema

  /** All keys belong to one queue and name rows of the table. */
  predicate OfOneQueue(jobs: Jobs, keys: set<Key>) {
    keys <= jobs.Keys && forall a, b | a in keys && b in keys :: a.queue == b.queue
  }

  /** Queued and due rows of the queue that no other transaction has locked. */
  function Candidates(jobs: Jobs, queue: string, now: Time, locked: set<Key>): set<Key> {
    set k | k in jobs && k.queue == queue && jobs[k].state.Queued() && jobs[k].startAfter <= now && k !in locked
  }

  /** ORDER BY priority DESC, created_on, id */
  predicate Ahead(jobs: Jobs, a: Key, b: Key)
    requires a in jobs && b in jobs
  {
    || jobs[a].priority > jobs[b].priority
    || (jobs[a].priority == jobs[b].priority &&
        (jobs[a].createdOn < jobs[b].createdOn || (jobs[a].createdOn == jobs[b].createdOn && a.id < b.id)))
  }

  predicate IsFirst(jobs: Jobs, keys: set<Key>, k: Key)
    requires keys <= jobs.Keys
  {
    k in keys && forall o | o in keys && o != k :: Ahead(jobs, k, o)
  }

  /** A linear scan for the first row in claim order. */
  method FindFirst(jobs: Jobs, keys: set<Key>) returns (first: Key)
    requires OfOneQueue(jobs, keys) && keys != {}
    ensures IsFirst(jobs, keys, first)
  {
    first :| first in keys;
    var rest := keys - {first};
    while rest != {}
      invariant rest <= keys - {first} && first in keys
      invariant forall o | o in keys - rest && o != first :: Ahead(jobs, first, o)
      decreases |rest|
    {
      var next :| next in rest;
      ghost var before := first;
      if Ahead(jobs, next, first) {
        first := next;
      }
      forall o | o in keys - (rest - {next}) && o != first ensures Ahead(jobs, first, o) {
        if o != before && o != next { assert o in keys - rest && Ahead(jobs, before, o); }
      }
      rest := rest - {next};
    }
  }

  lemma FirstExists(jobs: Jobs, keys: set<Key>)
    requires OfOneQueue(jobs, keys) && keys != {}
    ensures exists k :: IsFirst(jobs, keys, k)
    decreases |keys|
  {
    var k :| k in keys;
    var rest := keys - {k};
    if rest == {} {
      assert keys == rest + {k};
      assert IsFirst(jobs, keys, k);
    } else {
      FirstExists(jobs, rest);
      var f :| IsFirst(jobs, rest, f);
      var first := if Ahead(jobs, k, f) then k else f;
      forall o | o in keys && o != first ensures Ahead(jobs, first, o) {
        if o in rest && o != f { assert Ahead(jobs, f, o); }
      }
      assert IsFirst(jobs, keys, first);
    }
  }

  /** ORDER BY .. LIMIT n */
  ghost function Top(jobs: Jobs, keys: set<Key>, n: nat): (top: seq<Key>)
    requires OfOneQueue(jobs, keys)
    ensures forall k | k in top :: k in keys
    decreases n
  {
    if n == 0 || keys == {} then [] else
    FirstExists(jobs, keys);
    var f :| IsFirst(jobs, keys, f);
    [f] + Top(jobs, keys - {f}, n - 1)
  }

  /** The rows of a listing. */
  ghost function Elements(s: seq<Key>): set<Key> { set k | k in s }

  /** The batch: a set of rows, since the UPDATE that follows ignores its order. */
  ghost function Batch(jobs: Jobs, keys: set<Key>, n: nat): (batch: set<Key>)
    requires OfOneQueue(jobs, keys)
    ensures batch <= keys
  {
    Elements(Top(jobs, keys, n))
  }

  /** The listing is sorted in claim order. */
  predicate Sorted(jobs: Jobs, s: seq<Key>)
    requires forall k | k in s :: k in jobs
  {
    forall i, j | 0 <= i < j < |s| :: Ahead(jobs, s[i], s[j])
  }

  /** One step of Top: its head, and the listing of what remains. */
  lemma TopCons(jobs: Jobs, keys: set<Key>, n: nat) returns (f: Key)
    requires OfOneQueue(jobs, keys) && n > 0 && keys != {}
    ensures IsFirst(jobs, keys, f) && Top(jobs, keys, n) == [f] + Top(jobs, keys - {f}, n - 1)
  {
    f := Top(jobs, keys, n)[0];
    FirstExists(jobs, keys);
  }

  lemma TopStep(jobs: Jobs, keys: set<Key>, n: nat) returns (f: Key)
    requires OfOneQueue(jobs, keys) && n > 0 && keys != {}
    ensures IsFirst(jobs, keys, f) && Top(jobs, keys, n) == [f] + Top(jobs, keys - {f}, n - 1)
    ensures Batch(jobs, keys, n) == {f} + Batch(jobs, keys - {f}, n - 1)
  {
    f := TopCons(jobs, keys, n);
  }

  lemma AddOne<T>(s: set<T>, x: T)
    requires x !in s
    ensures |{x} + s| == |s| + 1
  {
  }

  lemma TopHead(jobs: Jobs, keys: set<Key>, n: nat) returns (f: Key)
    requires OfOneQueue(jobs, keys) && n > 0 && keys != {}
    ensures f in keys && |Top(jobs, keys, n)| == 1 + |Top(jobs, keys - {f}, n - 1)|
  {
    f := TopCons(jobs, keys, n);
  }

  lemma OneLess(keys: set<Key>, f: Key)
    requires f in keys
    ensures |keys| == |keys - {f}| + 1
  {
    assert keys == {f} + (keys - {f});
  }

  lemma {:induction false} TopLength(jobs: Jobs, keys: set<Key>, n: nat)
    requires OfOneQueue(jobs, keys)
    ensures |Top(jobs, keys, n)| == Min(n, |keys|)
    decreases n
  {
    if n > 0 && keys != {} {
      var f := TopHead(jobs, keys, n);
      OneLess(keys, f);
      TopLength(jobs, keys - {f}, n - 1);
    }
  }

  lemma {:induction false} DistinctElements(s: seq<Key>)
    requires forall i, j | 0 <= i < j < |s| :: s[i] != s[j]
    ensures |Elements(s)| == |s|
  {
    if s == [] {
      assert Elements(s) == {};
    } else {
      DistinctElements(s[1..]);
      assert Elements(s) == {s[0]} + Elements(s[1..]);
      AddOne(Elements(s[1..]), s[0]);
    }
  }

  /** The listing is in claim order. */
  lemma {:induction false} TopIsSorted(jobs: Jobs, keys: set<Key>, n: nat)
    requires OfOneQueue(jobs, keys)
    ensures Sorted(jobs, Top(jobs, keys, n))
    decreases n
  {
    if n > 0 && keys != {} {
      var f := TopCons(jobs, keys, n);
      TopIsSorted(jobs, keys - {f}, n - 1);
      SortedBehind(jobs, keys, f, Top(jobs, keys - {f}, n - 1));
    }
  }

  lemma SortedBehind(jobs: Jobs, keys: set<Key>, f: Key, rest: seq<Key>)
    requires keys <= jobs.Keys && IsFirst(jobs, keys, f)
    requires forall k | k in rest :: k in keys && k != f
    requires Sorted(jobs, rest)
    ensures forall k | k in [f] + rest :: k in jobs
    ensures Sorted(jobs, [f] + rest)
  {
    var all := [f] + rest;
    forall i, j | 0 <= i < j < |all| ensures Ahead(jobs, all[i], all[j]) {
      assert all[j] == rest[j - 1] && rest[j - 1] in rest;
      if i > 0 { assert all[i] == rest[i - 1]; }
    }
  }

  /** The batch is as large as limit and candidates allow. */
  lemma TopIsFull(jobs: Jobs, keys: set<Key>, n: nat)
    requires OfOneQueue(jobs, keys)
    ensures |Batch(jobs, keys, n)| == Min(n, |keys|)
  {
    var top := Top(jobs, keys, n);
    TopLength(jobs, keys, n);
    TopIsSorted(jobs, keys, n);
    assert forall i, j | 0 <= i < j < |top| :: Ahead(jobs, top[i], top[j]) && top[i] != top[j];
    DistinctElements(top);
  }

  /** Nothing left out is ahead of anything in the batch. */
  lemma {:induction false} TopIsOptimal(jobs: Jobs, keys: set<Key>, n: nat)
    requires OfOneQueue(jobs, keys)
    ensures forall k, o | k in Batch(jobs, keys, n) && o in keys - Batch(jobs, keys, n) :: Ahead(jobs, k, o)
    decreases n
  {
    if n > 0 && keys != {} {
      var f := TopStep(jobs, keys, n);
      TopIsOptimal(jobs, keys - {f}, n - 1);
      var rest := Batch(jobs, keys - {f}, n - 1);
      assert keys - ({f} + rest) == keys - {f} - rest;
    }
  }

  /** Claim order leaves no choice: whoever is first is the only one. */
  lemma FirstIsUnique(jobs: Jobs, keys: set<Key>, a: Key, b: Key)
    requires OfOneQueue(jobs, keys) && IsFirst(jobs, keys, a) && IsFirst(jobs, keys, b)
    ensures a == b
  {
  }

  /** Whoever is first is in every batch, and alone in a batch of one. */
  lemma FirstIsTaken(jobs: Jobs, keys: set<Key>, n: nat, first: Key)
    requires OfOneQueue(jobs, keys) && IsFirst(jobs, keys, first) && n >= 1
    ensures first in Batch(jobs, keys, n)
    ensures n == 1 ==> Batch(jobs, keys, n) == {first}
  {
    var f := TopStep(jobs, keys, n);
    FirstIsUnique(jobs, keys, f, first);
    if n == 1 { assert Top(jobs, keys - {f}, 0) == []; }
  }

  lemma Regroup<T>(a: seq<T>, b: seq<T>, c: seq<T>)
    ensures a + (b + c) == a + b + c
  {
  }

  lemma ScanStep(jobs: Jobs, rest: set<Key>, n: nat, batch: seq<Key>, f: Key)
    requires OfOneQueue(jobs, rest) && n > 0 && IsFirst(jobs, rest, f)
    ensures batch + Top(jobs, rest, n) == batch + [f] + Top(jobs, rest - {f}, n - 1)
  {
    var g := TopStep(jobs, rest, n);
    FirstIsUnique(jobs, rest, f, g);
    Regroup(batch, [f], Top(jobs, rest - {f}, n - 1));
  }

  /** The ordered scan that stops at the limit. */
  method Scan(jobs: Jobs, keys: set<Key>, n: nat) returns (batch: seq<Key>)
    requires OfOneQueue(jobs, keys)
    ensures batch == Top(jobs, keys, n)
  {
    batch := [];
    var rest := keys;
    while |batch| < n && rest != {}
      invariant |batch| <= n && rest <= keys
      invariant batch + Top(jobs, rest, n - |batch|) == Top(jobs, keys, n)
      decreases |rest|
    {
      var f := FindFirst(jobs, rest);
      ScanStep(jobs, rest, n - |batch|, batch, f);
      batch := batch + [f];
      rest := rest - {f};
    }
  }

  // ---- the group-limited claim ----

  /** The active rows of one group of a queue. */
  function ActiveIn(jobs: Jobs, queue: string, group: string): set<Key> {
    set k | k in jobs && k.queue == queue && jobs[k].state.Active? && jobs[k].groupId == Some(group)
  }

  /** active_group_counts: a group with no active row has no entry. */
  function ActiveCounts(jobs: Jobs, queue: string): map<string, nat> {
    var groups := set k | k in jobs && k.queue == queue && jobs[k].state.Active? && jobs[k].groupId.Some?
                        :: jobs[k].groupId.value;
    map g | g in groups :: |ActiveIn(jobs, queue, g)|
  }

  /** COALESCE(active_cnt, 0) */
  function CountOf(counts: map<string, nat>, group: string): nat {
    if group in counts then counts[group] else 0
  }

  /** The rows the ordered batch may draw from: ungrouped, or in a group not seen at its cap. */
  function BelowCap(jobs: Jobs, keys: set<Key>, counts: map<string, nat>, cap: int): set<Key>
    requires keys <= jobs.Keys
  {
    set k | k in keys &&
            (jobs[k].groupId.None? || jobs[k].groupId.value !in counts || counts[jobs[k].groupId.value] < cap)
  }

  function Group(jobs: Jobs, keys: set<Key>, group: string): set<Key>
    requires keys <= jobs.Keys
  {
    set k | k in keys && jobs[k].groupId == Some(group)
  }

  /** Those at or before `k` in id order. */
  function UpTo(keys: set<Key>, k: Key): set<Key> {
    set u | u in keys && u.id <= k.id
  }

  /** ROW_NUMBER() OVER (PARTITION BY group_id ORDER BY id) */
  function Rank(jobs: Jobs, batch: set<Key>, k: Key): nat
    requires batch <= jobs.Keys && k in batch && jobs[k].groupId.Some?
  {
    |UpTo(Group(jobs, batch, jobs[k].groupId.value), k)|
  }

  /** group_filtered: what is left of the batch when each group is held to its cap. */
  function WithinCap(jobs: Jobs, batch: set<Key>, counts: map<string, nat>, cap: int): set<Key>
    requires batch <= jobs.Keys
  {
    set k | k in batch &&
            (jobs[k].groupId.None? || CountOf(counts, jobs[k].groupId.value) + Rank(jobs, batch, k) <= cap)
  }

  /** The keys of rank at most `m`. */
  function LowRanks(keys: set<Key>, m: int): set<Key> {
    set k | k in keys && |UpTo(keys, k)| <= m
  }

  lemma LastById(keys: set<Key>) returns (last: Key)
    requires keys != {}
    ensures last in keys && forall k | k in keys :: k.id <= last.id
    decreases |keys|
  {
    var k :| k in keys;
    if keys == {k} {
      last := k;
    } else {
      var l := LastById(keys - {k});
      last := if l.id < k.id then k else l;
    }
  }

  /** ROW_NUMBER counts 1, 2, 3, ..: at most m rows have rank at most m, and exactly m when there are that many. */
  lemma {:induction false} RanksCountUp(jobs: Jobs, keys: set<Key>, m: int)
    requires OfOneQueue(jobs, keys)
    ensures |LowRanks(keys, m)| == Min(|keys|, Max(0, m))
    decreases |keys|
  {
    if keys != {} {
      var last := LastById(keys);
      var rest := keys - {last};
      RanksCountUp(jobs, rest, m);
      LastRank(jobs, keys, last, m);
      assert keys == {last} + rest;
      AddOne(rest, last);
      if |keys| <= m { AddOne(LowRanks(rest, m), last); }
    }
  }

  /** The last row by id has the highest rank and changes no other. */
  lemma LastRank(jobs: Jobs, keys: set<Key>, last: Key, m: int)
    requires OfOneQueue(jobs, keys) && last in keys && forall k | k in keys :: k.id <= last.id
    ensures LowRanks(keys, m) == (if |keys| <= m then {last} else {}) + LowRanks(keys - {last}, m)
  {
    var rest := keys - {last};
    assert UpTo(keys, last) == keys;
    forall k | k in rest ensures UpTo(keys, k) == UpTo(rest, k) {
      assert last.queue == k.queue && last.id != k.id;
    }
  }

  /** For any counts, fresh or stale: each group gets exactly the smaller of its share of the batch and its free
      slots. */
  lemma GroupTake(jobs: Jobs, batch: set<Key>, counts: map<string, nat>, cap: int, group: string)
    requires OfOneQueue(jobs, batch)
    ensures |Group(jobs, WithinCap(jobs, batch, counts, cap), group)|
            == Min(|Group(jobs, batch, group)|, Max(0, cap - CountOf(counts, group)))
  {
    var members := Group(jobs, batch, group);
    RanksCountUp(jobs, members, cap - CountOf(counts, group));
    assert Group(jobs, WithinCap(jobs, batch, counts, cap), group)
           == LowRanks(members, cap - CountOf(counts, group));
  }

  lemma FirstById(keys: set<Key>) returns (first: Key)
    requires keys != {}
    ensures first in keys && forall k | k in keys :: first.id <= k.id
    decreases |keys|
  {
    var k :| k in keys;
    if keys == {k} {
      first := k;
    } else {
      var f := FirstById(keys - {k});
      first := if k.id < f.id then k else f;
    }
  }

  /** The limit comes before the filter and still never starves: a claim is made exactly when one is possible. */
  lemma GroupProgress(jobs: Jobs, keys: set<Key>, counts: map<string, nat>, cap: int, n: nat)
    requires OfOneQueue(jobs, keys) && cap >= 1 && n >= 1
    ensures WithinCap(jobs, Batch(jobs, BelowCap(jobs, keys, counts, cap), n), counts, cap) != {}
            <==> BelowCap(jobs, keys, counts, cap) != {}
  {
    var open := BelowCap(jobs, keys, counts, cap);
    if open != {} {
      var first := TopStep(jobs, open, n);
      SomeoneWithinCap(jobs, Batch(jobs, open, n), counts, cap);
    }
  }

  lemma SomeoneWithinCap(jobs: Jobs, batch: set<Key>, counts: map<string, nat>, cap: int)
    requires OfOneQueue(jobs, batch) && batch != {} && cap >= 1 && BelowCap(jobs, batch, counts, cap) == batch
    ensures WithinCap(jobs, batch, counts, cap) != {}
  {
    var k :| k in batch;
    assert k in BelowCap(jobs, batch, counts, cap);
    if jobs[k].groupId.Some? {
      var members := Group(jobs, batch, jobs[k].groupId.value);
      assert k in members;
      var f := FirstById(members);
      assert UpTo(members, f) == {f} by {
        forall u | u in UpTo(members, f) ensures u == f { assert u.queue == f.queue; }
      }
      assert f in WithinCap(jobs, batch, counts, cap);
    } else {
      assert k in WithinCap(jobs, batch, counts, cap);
    }
  }

  /** Ranking by id ignores priority: the row claimed in a group can be the least urgent of the batch. */
  lemma GroupClaimIgnoresPriority(urgent: Key, idle: Key, j: Job)
    requires urgent.queue == idle.queue && idle.id < urgent.id && j.groupId.Some? && j.state.Queued()
    ensures var jobs := map[urgent := j.(priority := 1), idle := j.(priority := 0)];
            && Ahead(jobs, urgent, idle)
            && WithinCap(jobs, {urgent, idle}, map[], 1) == {idle}
  {
    var jobs := map[urgent := j.(priority := 1), idle := j.(priority := 0)];
    var members := Group(jobs, {urgent, idle}, j.groupId.value);
    assert UpTo(members, idle) == {idle};
    assert UpTo(members, urgent) == {urgent, idle};
  }

  /** The first two of three rows in claim order. */
  lemma FirstTwoOfThree(jobs: Jobs, a: Key, b: Key, c: Key)
    requires OfOneQueue(jobs, {a, b, c}) && a != b && b != c && a != c
    requires Ahead(jobs, a, b) && Ahead(jobs, a, c) && Ahead(jobs, b, c)
    ensures Batch(jobs, {a, b, c}, 2) == {a, b}
  {
    var first := TopStep(jobs, {a, b, c}, 2);
    FirstIsUnique(jobs, {a, b, c}, first, a);
    assert {a, b, c} - {a} == {b, c};
    var second := TopStep(jobs, {b, c}, 1);
    FirstIsUnique(jobs, {b, c}, second, b);
    assert Batch(jobs, {b, c} - {b}, 0) == {};
  }

  /** Of two rows of a group with one free slot, the first by id is claimed. */
  lemma OneOfPair(jobs: Jobs, a: Key, b: Key)
    requires OfOneQueue(jobs, {a, b}) && a.id < b.id && jobs[a].groupId.Some? && jobs[b].groupId == jobs[a].groupId
    ensures WithinCap(jobs, {a, b}, map[], 1) == {a}
  {
    var members := Group(jobs, {a, b}, jobs[a].groupId.value);
    assert UpTo(members, a) == {a} && UpTo(members, b) == {a, b};
  }

  lemma OneAndUngrouped(jobs: Jobs, a: Key, c: Key)
    requires OfOneQueue(jobs, {a, c}) && jobs[a].groupId.Some? && jobs[c].groupId.None?
    ensures WithinCap(jobs, {a, c}, map[], 1) == {a, c}
  {
    assert UpTo(Group(jobs, {a, c}, jobs[a].groupId.value), a) == {a};
  }

  /** The limit before the filter costs claims: two jobs of a group with one free slot fill a batch of two, and the
      ungrouped job behind them stays although there was room for it. */
  lemma GroupClaimIsNotMaximal(jobs: Jobs, a: Key, b: Key, c: Key)
    requires OfOneQueue(jobs, {a, b, c}) && a.id < b.id && c != a && c != b
    requires jobs[a].priority > jobs[b].priority > jobs[c].priority
    requires jobs[a].groupId.Some? && jobs[b].groupId == jobs[a].groupId && jobs[c].groupId.None?
    ensures BelowCap(jobs, {a, b, c}, map[], 1) == {a, b, c}
    ensures WithinCap(jobs, Batch(jobs, BelowCap(jobs, {a, b, c}, map[], 1), 2), map[], 1) == {a}
    ensures WithinCap(jobs, {a, c}, map[], 1) == {a, c}
  {
    FirstTwoOfThree(jobs, a, b, c);
    OneOfPair(jobs, a, b);
    OneAndUngrouped(jobs, a, c);
    assert BelowCap(jobs, {a, b, c}, map[], 1) == {a, b, c};
  }

  // ---- exactly which rows a capped claim keeps, and when it could have kept more ----

  /** The free slots a claim sees in a group. */
  function Free(counts: map<string, nat>, cap: int, group: string): nat { Max(0, cap - CountOf(counts, group)) }

  lemma RankByGroup(jobs: Jobs, batch: set<Key>, counts: map<string, nat>, cap: int, group: string, k: Key)
    requires OfOneQueue(jobs, batch) && k in Group(jobs, batch, group)
    ensures k in WithinCap(jobs, batch, counts, cap) <==> Rank(jobs, batch, k) <= Free(counts, cap, group)
  {
    assert k in UpTo(Group(jobs, batch, group), k);
  }

  lemma RankGrows(jobs: Jobs, batch: set<Key>, group: string, k: Key, u: Key)
    requires OfOneQueue(jobs, batch) && k in Group(jobs, batch, group) && u in Group(jobs, batch, group) && k.id < u.id
    ensures Rank(jobs, batch, k) < Rank(jobs, batch, u)
  {
    var members := Group(jobs, batch, group);
    var before := UpTo(members, k);
    assert u !in before && UpTo(members, u) == UpTo(members, u) - before - {u} + (before + {u});
    FewerThan(before, UpTo(members, u), u);
  }

  lemma FewerThan(a: set<Key>, b: set<Key>, u: Key)
    requires a <= b && u in b && u !in a
    ensures |a| < |b|
  {
    assert b == {u} + a + (b - a - {u});
  }

  /** The rows kept in a group are its lowest ids in the batch. */
  lemma KeptAreLowestIds(jobs: Jobs, batch: set<Key>, counts: map<string, nat>, cap: int, group: string, k: Key, u: Key)
    requires OfOneQueue(jobs, batch) && k in Group(jobs, batch, group) && u in Group(jobs, batch, group)
    requires k in WithinCap(jobs, batch, counts, cap) && u !in WithinCap(jobs, batch, counts, cap)
    ensures k.id < u.id
  {
    RankByGroup(jobs, batch, counts, cap, group, k);
    RankByGroup(jobs, batch, counts, cap, group, u);
    if u.id < k.id { RankGrows(jobs, batch, group, u, k); }
  }

  /** What a group keeps comes before what it loses, in claim order. */
  predicate Faithful(jobs: Jobs, batch: set<Key>, counts: map<string, nat>, cap: int, group: string)
    requires OfOneQueue(jobs, batch)
  {
    forall k, u | k in Group(jobs, batch, group) && u in Group(jobs, batch, group)
                  && k in WithinCap(jobs, batch, counts, cap) && u !in WithinCap(jobs, batch, counts, cap) ::
      Ahead(jobs, k, u)
  }

  /** A capped claim respects claim order within a group exactly when no row of its batch beyond the free slots, by id,
      is more urgent than one within them. */
  lemma FaithfulIff(jobs: Jobs, batch: set<Key>, counts: map<string, nat>, cap: int, group: string)
    requires OfOneQueue(jobs, batch)
    ensures var members := Group(jobs, batch, group);
            Faithful(jobs, batch, counts, cap, group) <==>
            !exists k, u :: k in members && u in members && Ahead(jobs, u, k)
                            && Rank(jobs, batch, k) <= Free(counts, cap, group) < Rank(jobs, batch, u)
  {
    var members, kept := Group(jobs, batch, group), WithinCap(jobs, batch, counts, cap);
    forall k | k in members
      ensures k in kept <==> Rank(jobs, batch, k) <= Free(counts, cap, group)
    {
      RankByGroup(jobs, batch, counts, cap, group, k);
    }
    forall k, u | k in members && u in members && k in kept && u !in kept
      ensures Ahead(jobs, k, u) <==> !Ahead(jobs, u, k)
    {
      EitherIsAhead(jobs, k, u);
    }
  }

  lemma EitherIsAhead(jobs: Jobs, k: Key, u: Key)
    requires k in jobs && u in jobs && k.queue == u.queue && k != u
    ensures Ahead(jobs, k, u) <==> !Ahead(jobs, u, k)
  {
  }

  /** And under every cap exactly when the ids of the group ascend in claim order. */
  lemma AlwaysFaithfulIff(jobs: Jobs, batch: set<Key>, counts: map<string, nat>, group: string)
    requires OfOneQueue(jobs, batch)
    ensures (forall cap :: Faithful(jobs, batch, counts, cap, group)) <==>
            forall k, u | k in Group(jobs, batch, group) && u in Group(jobs, batch, group) && k.id < u.id ::
              Ahead(jobs, k, u)
  {
    var members := Group(jobs, batch, group);
    if forall k, u | k in members && u in members && k.id < u.id :: Ahead(jobs, k, u) {
      forall cap ensures Faithful(jobs, batch, counts, cap, group) {
        forall k, u | k in members && u in members
                      && k in WithinCap(jobs, batch, counts, cap) && u !in WithinCap(jobs, batch, counts, cap)
          ensures Ahead(jobs, k, u)
        {
          KeptAreLowestIds(jobs, batch, counts, cap, group, k, u);
        }
      }
    } else {
      var k, u :| k in members && u in members && k.id < u.id && !Ahead(jobs, k, u);
      var cap := CountOf(counts, group) + Rank(jobs, batch, k);
      RankGrows(jobs, batch, group, k, u);
      RankByGroup(jobs, batch, counts, cap, group, k);
      RankByGroup(jobs, batch, counts, cap, group, u);
      assert !Faithful(jobs, batch, counts, cap, group);
    }
  }

  /** One more row could be claimed without breaking the limit or a cap. */
  predicate RoomFor(jobs: Jobs, claimed: set<Key>, counts: map<string, nat>, cap: int, n: nat, c: Key)
    requires claimed <= jobs.Keys && c in jobs
  {
    && c !in claimed && |claimed| < n
    && (jobs[c].groupId.Some? ==>
          |Group(jobs, claimed, jobs[c].groupId.value)| < Free(counts, cap, jobs[c].groupId.value))
  }

  /** A row outside the batch whose group the batch does not fill. */
  predicate PassedOver(jobs: Jobs, batch: set<Key>, counts: map<string, nat>, cap: int, c: Key)
    requires batch <= jobs.Keys && c in jobs
  {
    c !in batch &&
    (jobs[c].groupId.Some? ==> |Group(jobs, batch, jobs[c].groupId.value)| < Free(counts, cap, jobs[c].groupId.value))
  }

  lemma KeptWholeIff(jobs: Jobs, batch: set<Key>, counts: map<string, nat>, cap: int)
    requires OfOneQueue(jobs, batch)
    ensures WithinCap(jobs, batch, counts, cap) == batch <==>
            forall g :: |Group(jobs, batch, g)| <= Free(counts, cap, g)
  {
    var kept := WithinCap(jobs, batch, counts, cap);
    forall g ensures |Group(jobs, kept, g)| == Min(|Group(jobs, batch, g)|, Free(counts, cap, g)) {
      GroupTake(jobs, batch, counts, cap, g);
    }
    if forall g :: |Group(jobs, batch, g)| <= Free(counts, cap, g) {
      forall k | k in batch ensures k in kept {
        if jobs[k].groupId.Some? {
          var g := jobs[k].groupId.value;
          assert |Group(jobs, kept, g)| == |Group(jobs, batch, g)|;
          SameSize(Group(jobs, kept, g), Group(jobs, batch, g));
          assert k in Group(jobs, batch, g);
        }
      }
    }
  }

  lemma SameSize<T>(a: set<T>, b: set<T>)
    requires a <= b && |a| == |b|
    ensures a == b
  {
    assert b == a + (b - a);
  }

  lemma LostLeavesNoRoom(jobs: Jobs, batch: set<Key>, counts: map<string, nat>, cap: int, n: nat, c: Key)
    requires OfOneQueue(jobs, batch) && |batch| <= n && c in jobs
    ensures var kept := WithinCap(jobs, batch, counts, cap);
            kept != batch ==> (RoomFor(jobs, kept, counts, cap, n, c) <==> PassedOver(jobs, batch, counts, cap, c))
  {
    var kept := WithinCap(jobs, batch, counts, cap);
    if kept != batch {
      var k :| k in batch && k !in kept;
      FewerThan(kept, batch, k);
      if jobs[c].groupId.Some? {
        var g := jobs[c].groupId.value;
        GroupTake(jobs, batch, counts, cap, g);
        if c in batch && c !in kept { LostWasFull(jobs, batch, counts, cap, g, c); }
      }
    }
  }

  lemma LostWasFull(jobs: Jobs, batch: set<Key>, counts: map<string, nat>, cap: int, group: string, c: Key)
    requires OfOneQueue(jobs, batch) && c in Group(jobs, batch, group) && c !in WithinCap(jobs, batch, counts, cap)
    ensures |Group(jobs, WithinCap(jobs, batch, counts, cap), group)| >= Free(counts, cap, group)
  {
    var kept := WithinCap(jobs, batch, counts, cap);
    GroupTake(jobs, batch, counts, cap, group);
    if |Group(jobs, kept, group)| < Free(counts, cap, group) {
      SameSize(Group(jobs, kept, group), Group(jobs, batch, group));
    }
  }

  /** A row of a group seen at its cap has no room either way. */
  lemma ClosedHasNoRoom(jobs: Jobs, keys: set<Key>, batch: set<Key>, counts: map<string, nat>, cap: int, n: nat, c: Key)
    requires OfOneQueue(jobs, keys) && batch <= keys && c in keys && c !in BelowCap(jobs, keys, counts, cap)
    ensures !RoomFor(jobs, WithinCap(jobs, batch, counts, cap), counts, cap, n, c)
    ensures !PassedOver(jobs, batch, counts, cap, c)
  {
  }

  /** The limit before the filter costs claims exactly when some group of the batch exceeds its free slots while a
      candidate outside the batch is passed over that has no group, or one that the batch does not fill. */
  lemma GroupClaimIsMaximalIff(jobs: Jobs, keys: set<Key>, counts: map<string, nat>, cap: int, n: nat)
    requires OfOneQueue(jobs, keys)
    ensures var batch := Batch(jobs, BelowCap(jobs, keys, counts, cap), n);
            (!exists c :: c in keys && RoomFor(jobs, WithinCap(jobs, batch, counts, cap), counts, cap, n, c)) <==>
            || (forall g :: |Group(jobs, batch, g)| <= Free(counts, cap, g))
            || (!exists c :: c in keys && PassedOver(jobs, batch, counts, cap, c))
  {
    var open := BelowCap(jobs, keys, counts, cap);
    var batch := Batch(jobs, open, n);
    var kept := WithinCap(jobs, batch, counts, cap);
    TopIsFull(jobs, open, n);
    KeptWholeIff(jobs, batch, counts, cap);
    if kept == batch { NoRoomBehindWhole(jobs, open, batch, counts, cap, n); }
    forall c | c in keys
      ensures if kept == batch then !RoomFor(jobs, kept, counts, cap, n, c)
              else RoomFor(jobs, kept, counts, cap, n, c) <==> PassedOver(jobs, batch, counts, cap, c)
    {
      if c !in open {
        ClosedHasNoRoom(jobs, keys, batch, counts, cap, n, c);
      } else if kept != batch {
        LostLeavesNoRoom(jobs, batch, counts, cap, n, c);
      }
    }
  }

  lemma NoRoomBehindWhole(jobs: Jobs, open: set<Key>, batch: set<Key>, counts: map<string, nat>, cap: int, n: nat)
    requires open <= jobs.Keys && batch <= open && |batch| == Min(n, |open|)
    ensures forall c | c in open :: !RoomFor(jobs, batch, counts, cap, n, c)
  {
    if |batch| < n { SameSize(batch, open); }
  }
}
