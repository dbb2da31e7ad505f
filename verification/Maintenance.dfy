/** The maintenance task over the tables. */
module Maintenance {
  import opened Options
  import opened Schema
  import opened Backoff
  import opened Statements
  import opened Store
  import opened Sweeping

  class Maintenance {
    const tables: Tables

    constructor (tables: Tables)
      ensures this.tables == tables
    {
      this.tables := tables;
    }

    /** Both sweeps once; an error of the first propagates and the second is not reached. */
    method Sweep(now: Time, jitter: map<Key, Jitter>, uuids: seq<Id>) returns (order: seq<Key>, error: Option<Error>)
      requires tables.Valid() && Fresh(tables.jobs, uuids) && |Expired(tables.jobs, now)| <= |uuids|
      modifies tables
      ensures tables.Valid()
      ensures Legal(old(tables.View()), Timeout(now, Choices(jitter, order, uuids)))
      ensures tables.View() == Swept(old(tables.View()), now, Choices(jitter, order, uuids))
      ensures error.None? ==> Expired(tables.jobs, now) == {} && OldRows(tables.jobs, now) == {}
      ensures error.Some? ==> tables.View() == old(tables.View())
    {
      ghost var before := tables.View();
      order, error := tables.FailExpired(now, jitter, uuids);
      if error.None? {
        TimeoutRecoversAll(before, now, Choices(jitter, order, uuids));
        RetentionDeletesAll(tables.View(), now);
        tables.DeleteOld(now);
      }
    }
  }
}
