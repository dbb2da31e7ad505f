# Underboss, verified

Underboss keeps its jobs in one SQL table. Workers, schedulers, sweeps and callers on any number of nodes change that
table through a handful of statements, and the queue's guarantees rest on what those statements do to the rows, on six
unique partial indexes, and on how the statements interleave. This project models the tables, every statement and
transaction, the cron tick and the worker's poll loop in Dafny, and proves what holds in every run.

## How it is organised

| file | content |
|---|---|
| `Schema.dfy` | job and queue rows, the unique indexes as index entries, foreign keys and checks |
| `Claiming.dfy` | claim order, limit, and the per-group rank filter of `fetch_next_job` |
| `Backoff.dfy` | the retry delay |
| `Statements.dfy` | SET and WHERE clauses, inserts, dead-letter routing; `Plan`, `Exec` and `After` give the effect of a statement and its rollback, `Run` and `Final` a whole run |
| `Effects.dfy` | the shape every effect has, and consistency of every reachable state |
| `Sending.dfy` | the options of a send, and what one insert of one job does |
| `Indexes.dfy` | which statements a unique index can abort, and exactly when |
| `Columns.dfy` | what each statement leaves in the tables, column by column, and what becomes of a handler's batch |
| `Policies.dfy` | what the policies promise in words, and exactly when it holds |
| `PlainClaim.dfy`, `GroupCap.dfy` | claims without and with a group cap, one at a time and overlapping |
| `Origins.dfy` | what rows inherit, over a run: policies of queues, and dead-letter copies |
| `Holding.dfy` | what can touch a claimed job before its lease ends; jobs retried by hand; cancel undone by resume |
| `Lifecycle.dfy` | tallies of each job's claims, ends, failures, copies and manual steps over a run |
| `Sums.dfy`, `BoundedWork.dfy` | the potential that bounds all work |
| `Throttle.dfy`, `Cron.dfy` | slots, ticks and occurrences |
| `Sweeping.dfy` | the maintenance sweep |
| `Witnesses.dfy` | runs from the empty tables that lead where a promise breaks |
| `Store.dfy`, `Maintenance.dfy`, `Scheduler.dfy` | the tables as a mutable object and the methods that change them, proved equal to `Exec` |
| `Worker.dfy` | the poll loop as a state machine, and the loop itself proved to drive it |

`dafny verify dfyconfig.toml` checks everything.

Times are real numbers of seconds, UUIDs are ordered numbers, and NULL is `None`. What the database or the outside world
chooses is a parameter of a statement: the time, rows other transactions hold locked, values of `random()`, the order of a
RETURNING list, and new UUIDs. A statement (or a fail-and-route transaction) takes effect at one point; an error leaves
the tables as they were. A run is any sequence of statements at times that never go back.

## Where the code and its documentation part

These are properties one would expect from the documentation that the code does not have, each with the exact condition.

- Policies: `short` promises at most one queued job, but its index covers only `created`, so a job that goes back to
  `retry` stands beside the next one sent (`ShortCanHoldTwo`). It holds in every run in which no short job of the key
  fails with retries left or is retried by hand (`ShortHolds`), each such step breaks it with the next send
  (`RequeueBreaksShort`), and a send keeps it if and only if none waits (`ShortHoldsIff`). All policies hold per
  `singleton_key`, not per queue: under every policy a queue takes two jobs of different keys and runs both
  (`TwoKeysAreSent`, `PolicyIsPerKey`, `PoliciesHold`).
- Claims: a job at the head of the queue whose key is held makes every plain fetch raise, so nothing behind it is claimed
  (`BlockedHeadStopsTheQueue`, reached in `HeldHeadIsReached` and `HeldFifoHeadIsReached`); at the default batch size that
  is the only way to raise (`SingleFetchAbortsIff`, `ClaimAbortsIff`). Under `singleton` and `stately` an active job holds
  its key; under `key_strict_fifo` a job waiting for a retry does too, and a failed one until it is retried by hand,
  deleted or swept (`FailedFifoJobHoldsItsKey`).
- `key_strict_fifo` is first-in-first-out only among due, unlocked jobs of equal priority (`StrictFifo`): at the default
  batch size a fetch overtakes if and only if the head of the queue has an older queued job of its key
  (`FifoOvertakesIff`), and of two jobs the younger is claimed if and only if it is more urgent or the older one is not yet
  due or locked (`StrictFifoCanBeOvertaken`).
- Maintenance: one stately job whose lease has expired while another of its key waits in `retry` makes the timeout sweep
  raise, and the retention sweep behind it never runs (`FailAbortsIff`, reached in `StatelyDeadlockIsReached`). Neither can
  move any more: sweeps stand still until one of the two is completed, cancelled or deleted by name
  (`StatelyConflictStopsSweeps`; a retention sweep on its own could end it too, but `sweep` never runs it alone).
- Retention: a job retried by hand keeps its old `completed_on` and is deleted while queued or running, exactly once its
  deletion window is over (`RetriedJobsAreSwept`, reached in `RetriedJobIsSwept`); otherwise it is not
  (`RetentionSafety`).
- Group caps, if all claims on the queue use one cap: with at most k claims in flight across all nodes a group is held to
  exactly k times the cap (`StaleCapHolds`, `StaleCapIsTight`, `StaleBoundIff`), so the cap itself holds if and only if
  claims never overlap or it is zero (`CapHoldsIff`, `CapHolds`). Within a group the lowest ids are kept, whatever their
  priority (`KeptAreLowestIds`, `GroupClaimIgnoresPriority`), which respects claim order if and only if no row beyond the
  free slots is more urgent than one within them (`FaithfulIff`, `AlwaysFaithfulIff`). A claim can be smaller than it could
  be (`GroupClaimIsNotMaximal`), if and only if a group of the batch exceeds its free slots while a candidate that fits is
  passed over (`GroupClaimIsMaximalIff`).
- Cron: with the default interval an occurrence can be stepped over (`DefaultIntervalCanMiss`, `MissedIff`); with an
  interval and a tick period under a minute together none is, and each is enqueued exactly once (`SteadyTicksMissNothing`,
  `EveryOccurrenceOnce`); with an interval of a week or more the clock never starts (`ClockStartsIff`). Two names have
  schedules that share one throttle key if and only if one name with the separator behind it begins with the other
  (`ScheduleKeysCollideIff`, `ScheduleKeysCanCollide`), and then the first of them to send in a minute suppresses the other
  (`SecondSendSkippedIff`). A schedule with an unknown time zone is stored, and from then on silences every schedule sorted
  behind it (`SendsStopAtError`, `DueIsSent`).
- Worker: the poll loop dies if and only if a handler returns a mapping that JSON cannot encode, raises an exception whose
  text cannot be formed or something that is no `Exception`, or a database call does the latter (`CrashesIff`). A batch
  claimed in the table has no settlement started if and only if the reply to its fetch was lost, or an error escaped or the
  task was cancelled while its handler ran; and it is left unsettled if and only if that happened or its settlement was
  started and did not commit, whether or not the loop lives on (`BatchesAccountedFor`, `BatchSettledIff`).
- Backoff: the lower bound on the time between first failure and last claim starts with the first retry; a job that failed
  without any was last claimed before its first failure (`RetriesAreSpaced`).

## Model

| member | source | states |
|---|---|---|
| Columns.CopyCarriesFailure | src/underboss/sql.py:330-341 | every row a committed failure adds is a copy of a row it has just failed for good, with that row's payload, the reported output, the settings of the dead-letter queue and defaults elsewhere |
| Columns.FailureIsRouted | src/underboss/failure.py:17-22 | a row is copied once if it fails for good and names a dead letter that exists, and otherwise not at all |
| Columns.FailureWrites | src/underboss/sql.py:252-319 | a committed failure report or timeout sweep fails the rows it hits if their retries are spent, sends them back to `retry` with the exact time of the next attempt otherwise, with the reported output, and leaves all others alone |
| Columns.RetryComesInTime | src/underboss/sql.py:268 | without backoff the next attempt is claimable exactly from the end of the delay |
| Columns.BackoffStaysInWindow | src/underboss/sql.py:269-275 | with backoff the wait lies between the power-of-two step and twice that, both held to the cap |
| Columns.PauseIsWait | src/underboss/sql.py:268-275 | the wait is the delay, or the power-of-two step times 1 + random(), held to the cap and rounded |
| Columns.BatchEndsAsHandled | src/underboss/worker.py:146-171 | in every run of the loop, the jobs of a handler that returned are completed with what it returned, those of one that raised an exception are failed with it, and jobs no longer active are left alone |
| Columns.CompletionCompletes | src/underboss/sql.py:243-249 | every active row named is completed with its time and output, no other column and no other row changes |
| Columns.CancelCancels | src/underboss/sql.py:404-412 | every unfinished row named is cancelled, nothing else changes |
| Columns.ResumeResumes | src/underboss/sql.py:415-423 | every cancelled row named is `created` again, nothing else changes |
| Columns.RetryRequeues | src/underboss/sql.py:426-434 | every failed row named waits in `retry` with one more attempt, nothing else changes |
| Columns.DeleteDeletes | src/underboss/sql.py:437-443 | exactly the rows named are gone |
| Columns.SweepDeletes | src/underboss/sql.py:344-354 | exactly the rows past their deletion window, or queued past their retention, are gone |
| Columns.InsertStores | src/underboss/sql.py:63-143 | every added row holds what one of the specs asked for, with the queue's settings where it asked for none; a spec that adds no row is a duplicate by id or index |
| Columns.SendStoresOptions | src/underboss/underboss.py:72-99 | every option of a send reaches its row, and what a send cannot set comes from the queue |
| Columns.DefaultSend | src/underboss/sql.py:30-44 | what a plain send to a queue with default options gets |
| Columns.PayloadRoundTrip | src/underboss/underboss.py:303-327 | through every run, until the job is deleted, its payload is the one that was sent |
| Columns.OrderIsKept | src/underboss/sql.py:178-454 | no statement ever writes the columns that make up what was ordered |
| Columns.QueueIsStored | src/underboss/sql.py:23-46 | a new queue is stored as asked if its dead letter is another queue that exists, an old one is left alone, anything else is refused |
| Columns.ClaimWrites | src/underboss/sql.py:178-186 | a fetch writes state, started_on and retry_count of waiting rows of its queue and nothing else |
| Columns.PassedRowIsBehind | src/underboss/sql.py:168-177 | a plain fetch passes a waiting row only when its batch is full of rows of higher priority, else created earlier, else of a lower id |
| Columns.PassedByCap | src/underboss/sql.py:190-218 | a capped fetch passes a waiting row only when its group was at the cap, or was filled by lower ids, or a full batch came before it |
| Columns.ClashIffColumns | src/underboss/schema.py:241-285 | the six partial unique indexes, by the columns of two rows |
| Effects.PlanIsSound | src/underboss/sql.py:243-454 | every statement touches only rows its WHERE clause admits, adds only new rows, and makes exactly one copy, with that failure's data and output, of each row that fails with a dead letter |
| Effects.RouteMakesCopies | src/underboss/sql.py:330-341 | every routed copy stems from a failed row, goes to its dead-letter queue and carries its data and output |
| Effects.RouteCopiesOnce | src/underboss/failure.py:17-22 | a returned row is copied once if it failed with a dead letter, otherwise not at all |
| Effects.AcceptExtends | src/underboss/sql.py:74-143 | an insert keeps all rows, adds only checked newborn rows of its queue, and keeps the indexes by skipping conflicts |
| Effects.AfterIsConsistent | src/underboss/schema.py:203-285 | every statement keeps all six unique indexes, the foreign keys and the checks |
| Effects.RunsStayConsistent | src/underboss/schema.py:203-285 | so does every run |
| Indexes.PoliciesHold | src/underboss/types.py:28-37 | what each policy guarantees per queue and key in every reachable state |
| Indexes.ClashIffBlocked | src/underboss/schema.py:241-285 | for any change of any two rows: the unique indexes object exactly in the listed cases |
| Indexes.NeverAborts | src/underboss/sql.py:231-249 | complete, cancel, delete and the retention sweep never hit a unique index |
| Indexes.InsertSkipsConflicts | src/underboss/sql.py:141-142 | an insert never raises a unique violation |
| Indexes.CopiesNeverClash | src/underboss/sql.py:330-341 | dead-letter inserts never decide whether the indexes hold |
| Indexes.FailAbortsIff | src/underboss/sql.py:283-319 | a failure report or timeout sweep aborts if and only if a stately job with retries left meets another of its key in `retry` |
| Indexes.ClaimAbortsIff | src/underboss/sql.py:150-228 | a fetch aborts if and only if its limit is negative or it takes a row of a blocking policy whose key is held |
| Indexes.ClaimNeverAborts | src/underboss/schema.py:241-285 | claims of standard, short, exclusive and policy-less rows always go through |
| Indexes.ReturnAbortsIff | src/underboss/sql.py:415-434 | a resume or manual retry aborts if and only if a row it returns is blocked in its new state or its throttle slot |
| Indexes.BlockedHeadStopsTheQueue | src/underboss/sql.py:167-187 | a head of the queue whose key is held (by an active job under singleton and stately, by an active, retrying or failed one under key_strict_fifo) makes every plain fetch abort, for every batch size |
| Indexes.SingleFetchAbortsIff | src/underboss/sql.py:167-187 | with a batch of one, a plain fetch aborts if and only if the head of the queue is so held back |
| Policies.ShortHolds | src/underboss/types.py:32 | at most one short job of a key is queued in every run in which none of the key fails with retries left and none is retried by hand |
| Policies.ShortHoldsIff | src/underboss/schema.py:241-246 | in every reachable state, the next send leaves at most one queued if and only if none of the key waits for a retry |
| Policies.RequeueBreaksShort | src/underboss/sql.py:263-265 | every step that makes a short job wait leads to two queued ones with the next send |
| Witnesses.ShortCanHoldTwo | src/underboss/schema.py:241-246 | from the empty tables: a short job is claimed, another is sent, the first fails with retries left, and two are queued |
| Witnesses.TwoKeysAreSent | src/underboss/schema.py:241-285 | from the empty tables, a queue of any policy accepts two jobs of different keys |
| Witnesses.PolicyIsPerKey | src/underboss/types.py:32-36 | and one fetch activates both |
| Witnesses.HeldHeadIsReached | src/underboss/schema.py:249-277 | from the empty tables, a singleton, stately or key_strict_fifo queue gets a head whose key is held by an active job |
| Witnesses.HeldFifoHeadIsReached | src/underboss/schema.py:273-277 | and a key_strict_fifo queue one held by a job that has failed, with retries left or without |
| Policies.FailedFifoJobHoldsItsKey | src/underboss/schema.py:273-277 | through every run a failed key_strict_fifo job keeps all others of its key from running, and aborts plain fetches they head, until it is retried by hand, deleted or swept |
| Claiming.FindFirst | src/underboss/sql.py:174 | the first row in claim order |
| Claiming.Scan | src/underboss/sql.py:168-177 | the ordered scan up to the limit yields exactly the ordered, limited list |
| Claiming.TopIsSorted | src/underboss/sql.py:174-175 | that list is strictly in claim order |
| Claiming.TopIsFull | src/underboss/sql.py:174-175 | it is as long as limit and candidates allow |
| Claiming.TopIsOptimal | src/underboss/sql.py:174-175 | nothing left out comes before anything in it |
| Claiming.FirstIsUnique | src/underboss/sql.py:174 | claim order leaves no choice |
| Claiming.RanksCountUp | src/underboss/sql.py:208-214 | the row numbers of a group count 1, 2, 3, so exactly min(size, m) rows have number at most m |
| Claiming.GroupTake | src/underboss/sql.py:208-218 | for any counts, a group gets exactly min(its rows in the batch, max(0, cap - count)) |
| Claiming.GroupProgress | src/underboss/sql.py:196-218 | although the limit precedes the filter, something is claimed if and only if something may be |
| Claiming.GroupClaimIgnoresPriority | src/underboss/sql.py:210 | the row kept in a group can be the least urgent of the batch |
| Claiming.GroupClaimIsNotMaximal | src/underboss/sql.py:196-218 | the limit before the filter leaves an ungrouped job unclaimed although there is room in the batch |
| Claiming.KeptAreLowestIds | src/underboss/sql.py:208-218 | the rows kept in a group are its lowest ids in the batch |
| Claiming.FaithfulIff | src/underboss/sql.py:208-218 | a capped claim respects claim order in a group if and only if no row beyond the free slots by id is more urgent than one within them |
| Claiming.AlwaysFaithfulIff | src/underboss/sql.py:210 | under every cap if and only if the ids of the group ascend in claim order |
| Claiming.GroupClaimIsMaximalIff | src/underboss/sql.py:196-218 | no further candidate fits if and only if no group of the batch exceeds its free slots or no candidate that fits was passed over |
| PlainClaim.ClaimIsOptimal | src/underboss/sql.py:168-187 | for any locked rows: exactly min(batch, candidates) rows are claimed and none left behind precedes a claimed one |
| PlainClaim.ClaimActivatesOnlyItsRows | src/underboss/sql.py:178-186 | a fetch activates exactly its rows, all due and unlocked in its queue, counts a retry only for rows started before, and leaves all others alone |
| PlainClaim.StrictFifo | src/underboss/types.py:36 | a claim under key_strict_fifo, capped or not, finds its key free; a plain one passes an older job only if that is not due, locked or of lower priority |
| PlainClaim.FifoOvertakesIff | src/underboss/types.py:36 | with a batch of one, a committed plain fetch claims a younger job of a key while an older one stays queued if and only if the head of the queue has an older queued one |
| PlainClaim.TwoAreSent | src/underboss/sql.py:63-143 | from the empty tables, two jobs of one key are sent to a key_strict_fifo queue, the first perhaps delayed, the second perhaps more urgent |
| PlainClaim.StrictFifoCanBeOvertaken | src/underboss/sql.py:170-176 | and the second is claimed first if and only if it is more urgent or the first is not yet due or locked |
| GroupCap.ClaimTakesExactly | src/underboss/sql.py:189-228 | a committed capped fetch adds exactly min(batch rows, free slots) active jobs to each group |
| GroupCap.CapHolds | src/underboss/sql.py:157-158 | if all claims on a queue use one cap, no group ever exceeds it in any run |
| GroupCap.ClaimProgress | src/underboss/sql.py:196-218 | a capped fetch claims something if and only if an unlocked due job is ungrouped or in a group below its cap |
| GroupCap.StaleCapHolds | src/underboss/sql.py:190-226 | with at most k claims in flight on stale counts, active jobs plus outstanding quotas of a group stay within k caps on every interleaving |
| GroupCap.StaleCapIsTight | src/underboss/sql.py:190-226 | for every k and cap, a run from the empty tables in which k overlapping claims give a group k times its cap |
| GroupCap.StaleBoundIff | src/underboss/sql.py:190-226 | a bound holds on all interleavings with at most k claims in flight if and only if it is at least k times the cap |
| GroupCap.CapHoldsIff | src/underboss/types.py:129-131 | so the cap holds across all nodes if and only if k <= 1 or the cap is zero |
| Backoff.DelayBounds | src/underboss/sql.py:266-276 | for every jitter the rounded delay lies between the capped power of two and twice the uncapped one, and never above the cap |
| Backoff.GeometricWait | src/underboss/sql.py:269-275 | without a cap the least delays of up to 16 retries add up to delay * (2^n - 1) |
| Backoff.FixedWait | src/underboss/sql.py:268 | without backoff n pauses add up to n delays |
| Backoff.RoundKeepsIntegerBounds | src/underboss/sql.py:275 | the cast of the delay goes to a nearest integer, halves to even, and keeps integer bounds |
| Origins.OriginsHold | src/underboss/sql.py:23-143 | in every run a created queue never changes, and each job carries its queue's policy or is a copy without policy, key and dead letter |
| Origins.QueuePolicyHolds | src/underboss/types.py:28-37 | in every run the policy of a queue holds between any two jobs sent to it under one key |
| Origins.CopyStartsAfresh | src/underboss/sql.py:322-341 | a copy is claimable at once with all attempts of its queue, in no unique index, and is never routed again |
| Holding.OnlyDisturbersTouch | src/underboss/sql.py:150-443 | an active job is touched only by statements that name it and by sweeps that find it expired |
| Holding.LeaseHolds | src/underboss/sql.py:305-319 | through any run a claimed job stays as claimed until its lease ends, unless somebody names it or, if it was retried by hand, a retention sweep finds it too old |
| Holding.LeaseEnds | src/underboss/sql.py:305-319 | a committed timeout sweep fails it exactly if the lease is over |
| Holding.CancelThenResume | src/underboss/sql.py:404-423 | a cancel followed by a resume restores the tables if and only if every row named was created without completed_on, completed or failed |
| Lifecycle.NextIsGood | src/underboss/sql.py:243-454 | every statement keeps the life-cycle invariants of every job |
| Lifecycle.AttemptBound | src/underboss/sql.py:178-183 | in every run retry_count is the claims after the first, and claims <= 1 + retry limit + manual retries + resumes of started jobs |
| Lifecycle.SingleSettlement | src/underboss/sql.py:243-249 | in every run claims equal ends plus one if active, and a job completes at most once |
| Lifecycle.CompletedIsFinal | src/underboss/sql.py:243-249 | nothing but deletion touches a completed job |
| Lifecycle.DeadLetterExactness | src/underboss/failure.py:17-44 | in every run the copies of a job equal the times it failed with a dead letter, at most 1 + manual retries |
| Lifecycle.LateReportsDoNothing | src/underboss/failure.py:25-37 | reports for jobs no longer active change and copy nothing |
| Lifecycle.RetentionSafety | src/underboss/sql.py:344-354 | unless retried by hand, a job is swept exactly when finished past its deletion window or queued past its retention, never while active |
| Holding.RetriedJobsAreSwept | src/underboss/sql.py:426-434 | a job retried by hand survives a retention sweep if and only if its old deletion window is not over, and while it is queued its retention neither |
| Witnesses.RetriedJobIsSwept | src/underboss/sql.py:351-353 | from the empty tables: a retried job is swept while queued within its retention, and while running |
| Lifecycle.RetriesAreSpaced | src/underboss/sql.py:252-280 | in every run a job left alone with n retries was last claimed at least the sum of n least pauses after its first failure: n delays without backoff, delay * (2^n - 1) seconds with backoff, no cap and n <= 16 |
| BoundedWork.UpdatePaysForItself | src/underboss/sql.py:252-341 | each claim takes one from the work left; failing, retrying and copying never add to it |
| BoundedWork.FinitelyManyClaims | src/underboss/sql.py:252-341 | without sends and admin steps, all claims of every interleaving together are bounded by the remaining attempts plus retry limit + 1 of each dead letter |
| BoundedWork.ReachableStatesQualify | src/underboss/sql.py:178-183 | the bound applies from every reachable state |
| Throttle.SlotWindow | src/underboss/sql.py:93-98 | a time lies within its slot |
| Throttle.SlotIsMultiple | src/underboss/sql.py:93-98 | a slot is a multiple of its width |
| Throttle.EncodingFitsGate | src/underboss/underboss.py:72-99 | a throttled send, encoded for its insert, fits a gate if and only if it has its width, is for the next slot only if the gate spans two, does not start in the past, and its queue keeps jobs for the span |
| Throttle.SendTakesSlot | src/underboss/underboss.py:82-85 | its row takes the current slot, or for a next-slot send the one after it |
| Throttle.NewRowIsCovered | src/underboss/sql.py:88-106 | an accepted throttled row outlasts its slot in the table |
| Throttle.OneJobPerSlotEver | src/underboss/schema.py:280-285 | over every run with sweeps, at most one throttled send is ever accepted per slot |
| Throttle.AtMostOnePerSlotCounted | src/underboss/sql.py:88-100 | between t1 and t2 at most floor(t2/S) - floor(t1/S) + 1 sends are accepted, and one more if next-slot sends are made |
| Throttle.SlotReopensIff | src/underboss/sql.py:350-353 | a sweep opens a taken slot if and only if its row was too old to keep |
| Cron.WinnersAreSpaced | src/underboss/sql.py:384-395 | winning ticks of all nodes are strictly more than the interval apart |
| Cron.ClockStartsIff | src/underboss/sql.py:393 | the clock ever starts if and only if the interval is under a week |
| Cron.FoundIff | src/underboss/scheduler.py:50-55 | a tick finds an occurrence due if and only if it falls strictly inside the following minute |
| Cron.DueSlotIsOccurrence | src/underboss/scheduler.py:50-55 | whenever a schedule is due, its 60 s slot is the occurrence |
| Cron.SlotIsOccurrenceIff | src/underboss/sql.py:93-98 | a send has the slot of an occurrence if and only if it reaches the table within the minute after it |
| Cron.MissedIff | src/underboss/scheduler.py:136-153 | an occurrence between two wins is missed if and only if consecutive wins step over its minute |
| Cron.Coverage | src/underboss/scheduler.py:136-153 | with wins less than a minute apart every occurrence is found |
| Cron.WinsAreFrequent | src/underboss/sql.py:384-395 | with ticks at most a period apart, wins are at most the interval and one period apart |
| Cron.SteadyTicksMissNothing | src/underboss/scheduler.py:61-69 | with interval and tick period under a minute together, every occurrence between wins is found due |
| Cron.DefaultIntervalCanMiss | src/underboss/scheduler.py:61-69 | with the default interval one can be missed |
| Cron.ScheduleKeysCollideIff | src/underboss/scheduler.py:150 | two names have schedules that share a throttle key if and only if one name with the separator behind it begins with the other; one name never does |
| Cron.ScheduleKeysCanCollide | src/underboss/scheduler.py:150 | two schedules that share one |
| Sweeping.TimeoutRecoversAll | src/underboss/sql.py:305-319 | after a committed timeout sweep no lease is expired |
| Sweeping.TimeoutCommits | src/underboss/failure.py:40-44 | with no stately job it always commits |
| Sweeping.SweepIsIdempotent | src/underboss/maintenance.py:49-52 | sweeping twice at one moment equals sweeping once, copies included |
| Sweeping.StatelyConflictStopsSweeps | src/underboss/maintenance.py:49-52 | from the moment the lease expires, through every run in which neither job is completed, cancelled or deleted by name nor swept by a retention sweep on its own, both stay as they are and every maintenance sweep raises and changes nothing |
| Witnesses.StatelyDeadlockIsReached | src/underboss/failure.py:40-44 | from the empty tables: a stately job is claimed and fails with retries left, another of its key is claimed, and once that lease is over the two are in this deadlock |
| Store.Tables.CreateQueue | src/underboss/sql.py:23-46 | registers a queue once, or raises, as the statement says |
| Store.Tables.AcceptRows | src/underboss/sql.py:114-143 | row-by-row insertion with skipping yields the insert's table and exactly its new ids |
| Store.Tables.InsertJobs | src/underboss/sql.py:63-143 | inserts as the statement says, returns exactly the new ids, or raises and changes nothing |
| Store.Tables.FetchNext | src/underboss/sql.py:150-228 | claims exactly the rows of the statement's pipeline and returns them in any order, or raises and changes nothing |
| Store.Tables.HoldToCap | src/underboss/sql.py:215-218 | keeps exactly the batch rows within the cap |
| Store.Tables.CompleteJobs | src/underboss/sql.py:243-249 | completes exactly the active rows named and never raises |
| Store.Tables.CancelJobs | src/underboss/sql.py:404-412 | cancels exactly the unfinished rows named and never raises |
| Store.Tables.ResumeJobs | src/underboss/sql.py:415-423 | resumes the cancelled rows named, or raises and changes nothing |
| Store.Tables.RetryJobs | src/underboss/sql.py:426-434 | re-queues the failed rows named with one more retry, or raises and changes nothing |
| Store.Tables.DeleteJobs | src/underboss/sql.py:437-443 | deletes exactly the rows named |
| Store.Tables.DeleteOld | src/underboss/sql.py:344-354 | deletes exactly the rows past their windows |
| Store.Tables.RouteRows | src/underboss/failure.py:17-22 | the routing loop makes all copies and never raises |
| Store.Tables.FailAndRoute | src/underboss/failure.py:25-44 | failure and routing commit together or not at all |
| Store.Tables.FailById | src/underboss/failure.py:25-37 | a failure report has the effect of the transaction |
| Store.Tables.FailExpired | src/underboss/failure.py:40-44 | the timeout sweep has the effect of the transaction |
| Maintenance.Maintenance.Sweep | src/underboss/maintenance.py:49-52 | equals the modelled sweep; leaves nothing expired and nothing old, or changes nothing |
| Scheduler.Scheduler.EnqueueDue | src/underboss/scheduler.py:141-153 | sends once for each due schedule before the first whose time zone or expression raises, and raises if and only if there is one |
| Scheduler.Scheduler.Start | src/underboss/scheduler.py:78-82 | the send-it queue exists, with the default options if it was not there |
| Scheduler.Scheduler.Tick | src/underboss/scheduler.py:136-139 | only a winning tick sends |
| Scheduler.Scheduler.RunTicks | src/underboss/sql.py:384-395 | of a sequence of ticks of any nodes exactly the winners of the debounced clock send, and what they send is a run |
| Scheduler.SendsAreDue | src/underboss/scheduler.py:141-153 | every statement of a tick sends one due schedule |
| Scheduler.SendsStopAtError | src/underboss/scheduler.py:50-55 | a schedule that raises silences all that sort behind it |
| Scheduler.DueIsSent | src/underboss/scheduler.py:141-153 | every due schedule before the first that raises is sent for |
| Scheduler.StepRespectsGate | src/underboss/scheduler.py:78-82 | on the send-it queue as created, no tick and no bystander disturbs the gate of a schedule, and the queue stays so |
| Scheduler.OncePerOccurrenceEver | src/underboss/scheduler.py:128-153 | from the empty tables, for ticks of any nodes interleaved with each other and with everything else, at most one send-it job per throttle key is accepted for each occurrence, and only for occurrences |
| Scheduler.EveryOccurrenceOnce | src/underboss/scheduler.py:128-153 | with interval and tick period under a minute together, every occurrence of a listed schedule between the first win and the last gets exactly one accepted send-it job |
| Scheduler.SendAcceptedIff | src/underboss/schema.py:280-285 | a send-it job is accepted if and only if no job of its throttle key holds its slot |
| Scheduler.SentJobIsSchedule | src/underboss/scheduler.py:145-153 | an accepted send-it job carries the envelope of its schedule, is due at once, and is throttled under its key in its minute |
| Scheduler.SecondSendSkippedIff | src/underboss/scheduler.py:146-153 | one send suppresses another if and only if they share throttle key and slot, of one schedule or of two that collide |
| Scheduler.SendNeverRaises | src/underboss/scheduler.py:146-153 | whatever the send-it queue looks like, a send is accepted or skipped |
| Worker.NotifyIsPrompt | src/underboss/worker.py:111-117 | after a notify or stop at any point the loop begins a new fetch or ends with the fourth of its own acts at the latest, and no wait runs out before |
| Worker.FastWaitsAreBounded | src/underboss/worker.py:132-142 | at most ten fast waits per wake-up seen, over any stretch of a run |
| Worker.WakesAreCalls | src/underboss/worker.py:122-124 | every notify or stop is seen at most once |
| Worker.NoFastWaitAfterBatch | src/underboss/worker.py:143 | after a batch, and until somebody calls again, there are only full waits |
| Worker.FastRetriesAreSpent | src/underboss/worker.py:132-142 | with nothing to fetch every fast retry left is used, and then comes a full wait |
| Worker.TenFastRetries | src/underboss/worker.py:26 | after a wake-up there are ten fast waits, and then a full one |
| Worker.ReceivedInOrder | src/underboss/worker.py:119-156 | the batches received are those whose settlement was started, in order, and then the one dropped or in the handler |
| Worker.StopSettlesEveryBatch | src/underboss/worker.py:97-109 | a stopped loop has started the settlement of every batch it received, in order, and each has committed or failed |
| Worker.BatchesAccountedFor | src/underboss/worker.py:119-171 | each time a batch is claimed in the table its settlement is started, or the reply is lost, or it is dropped in the handler, or it is there; each time one is started it commits, fails or is in flight |
| Worker.BatchSettledIff | src/underboss/worker.py:119-171 | however a loop ends, every claim of a batch is settled if and only if no reply to it was lost, it was never dropped in the handler and no settlement of it failed to commit |
| Worker.SettledAsHandled | src/underboss/worker.py:146-156 | in every run, the batch being settled is being completed if its handler returned and failed if it raised an exception, with what it returned or raised, and nothing but calls has come in between |
| Worker.CrashesIff | src/underboss/worker.py:119-171 | short of cancellation the loop dies if and only if a handler returns a mapping JSON cannot encode, raises an exception whose text cannot be formed or no Exception at all, or a database call raises the latter |
| Worker.CrashIsFinal | src/underboss/worker.py:146-156 | a crashed loop claims, starts and settles nothing any more |
| Worker.Worker.Run | src/underboss/worker.py:119-144 | under every script of awaits the loop does exactly what the state machine does |
| Worker.Worker.Process | src/underboss/worker.py:146-156 | handler, then one settlement of the same ids, unless an error escapes |
| Worker.Worker.SettleBatch | src/underboss/worker.py:158-171 | one statement or transaction, whose exceptions are only logged |
| Worker.Worker.Idle | src/underboss/worker.py:173-180 | waits until woken or timed out |

## Left out

- Connection pools, asyncpg, JSON codecs, SQL text and `delete_queue`: statements are modelled by their meaning.
- Schema provisioning and DDL: a finite script.
- Cron parsing and time zones: an occurrence set and its previous occurrence, or that finding it raises, are parameters.
- Malformed ids, intervals and timestamps in a job spec, and 32-bit overflow of counters: they would abort a statement.
- Float8 rounding inside the delay and the slot: both use real arithmetic; only the final cast to an integer is modelled.
- Heartbeats, group tiers, warnings and queue counters: no statement's effect depends on them.
- Handlers, logging and sleeping: a handler ends in one of five ways, a wait is woken or times out; whether a mapping can
  be encoded or the text of an exception formed is part of how it ends.
- One clock: the due check of a tick and the slot of its send use one time value, although the first comes from the node
  and the second from the database; `SlotIsOccurrenceIff` and `SecondSendSkippedIff` say what a difference would cost.
- `_on_send_it`: the second hop from the send-it queue to the target queue is an ordinary insert by a worker's handler.
- Visibility inside an open transaction passed by a caller: a statement takes effect at one point.
- Worker.NotifyIsPrompt: a wait that times out in the same loop turn in which it is woken counts as woken.
- GroupCap.StaleCapHolds: a claim in flight that counted before a row was sent may still pick it, so the bound is proved
  for more interleavings than there are.
- Store.Tables.FetchNext: the columns of RETURNING are not modelled.
- Throttle.OneJobPerSlotEver: rows of the gate removed or cancelled by hand are excluded, since they do open the slot again.
