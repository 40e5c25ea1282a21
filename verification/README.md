# Verified models of osquery's daemon core

This project models the stateful core of the osquery daemon in Dafny 4.11 and
proves what that core is relied on for. Every database domain is a map from key
text to value, the clock is a parameter, and what other code decides (the order
of a database scan, the outcome of a query, whether a write succeeds) is a
parameter too, so that the results hold for every choice of it.

| file | part of the daemon |
|---|---|
| `Basics.dfy`, `Text.dfy` | 64-bit bounds; decimal text, the zero-padded event index, key order |
| `EventIndex.dfy` | the time index of a subscriber, as the list of its events |
| `EventStore.dfy`, `EventSubscriber.dfy` | subscriber operations as functions on its state, and the object that carries them out |
| `EventRuns.dfy` | runs of batches, queries, schedule updates and restarts |
| `EventLimits.dfy` | the same without the premises of a run: what holds, and which events are passed over |
| `TimeWindow.dfy` | pushing `time` constraints into a scan |
| `QueryLog.dfy`, `QueryCrashes.dfy` | the differential log of scheduled queries; the same where executions are cut short |
| `Denylist.dfy` | crash quarantine of scheduled queries |
| `Distributed.dfy` | distributed queries: running marks and result buffer |
| `Dispatcher.dfy` | interrupting a paused service; stopping and joining services |
| `Scheduler.dfy`, `Watchdog.dfy` | tick drift and due queries; sustained CPU use |
| `PreAggregation.dfy` | the pre-aggregation cache of numeric monitoring |
| `ShellText.dfy`, `Csv.dfy` | quoted strings and CSV output of the shell |
| `ConfigDepth.dfy` | the nesting limit of a configuration |

`dafny verify dfyconfig.toml` verifies the whole project.

## Main results

* **Events.** Over any run of batches, optimised and windowed queries, schedule
  updates and restarts, including a process that dies part-way through the
  eviction that ends a batch or a query or between the two writes of a cursor, a
  query name is handed each event at most once, in id order, and its next scan
  hands it exactly the indexed events it has neither had nor been made to miss,
  with the rows first stored (`ExactlyOnceDelivery`). An event is missed exactly
  when a cursor write that was cut short left it behind (`MissedIffCut`). Ids are
  never reused, a restart rebuilds the very same index, the buffer stays bounded
  whatever happens (`BufferBound`), and expiry after a query, optimised or
  windowed, removes only what every recorded query has had or missed
  (`QueryExpirySafe`). It waits until as many names have run since the schedule
  update as that update counted (`QueryWaitsForAll`), so that what it removes each
  counted query has had or missed (`CountedQueriesServed`), and then removes exactly
  what is older than the expiry (`QueryExpiryExact`).
* **Differential log.** For any interleaving of names and executions that run to
  their end, whatever each of them reports, the database holds the rows of a
  name's latest execution, and replaying its log gives those rows and exactly the
  removals that went unreported since the epoch began (`LogReplays`); counters of
  consecutive items differ by one plus the number of silent executions between
  them. For a name whose executions report removals the replay is exact
  (`ReportedLogReplays`). Where executions die after any of their writes, a ledger
  of executions and cuts says what is stored and what the log replays to
  (`CrashedLogReplays`), exactly when the replay stays exact (`StaysExactIff`), and
  exactly when it becomes exact again (`RecoversIff`).
* **Quarantine.** Once a start has saved its denylist, the query that was executing
  when the process died is kept from the scheduler for a day across any further
  crashes and restarts, even ones that die during their own start
  (`CrashQuarantine`); a distributed query that died under a fresh mark is
  refused for the denylist duration, across restarts at any point of the client.
* **Conservation.** Distributed results and pre-aggregated points are neither
  lost nor duplicated, whatever fails or is taken in between. Each result tells the
  outcome of its own execution, or a refusal exactly when a mark bars it
  (`OneResultEach`); points taken and cached keep, path by path, the total of the
  sums, the smallest minimum, the largest maximum and the latest time of the points
  added (`NothingLost`).
* **Ticks.** Drift is given up exactly when some stretch of ticks has run over its
  intervals by more than the maximum (`GivenUpIff`); a tick launches exactly the
  queries whose interval divides it and the startup queries that have not run
  (`LaunchedIff`).
* **Threads.** Once the interrupt that set the flag has returned, a paused
  service never blocks again; a stop reaches every live thread but those whose
  runnable another thread has taken off the list, and after it the join loop ends
  with empty lists.
* **Round trips.** Quoted strings, CSV tables, denylist text and event keys read
  back what was written: strings always, the others under conditions shown to be
  needed.

Where the code does less than one would expect, the exact condition is proved:

* `ExpireSparesCurrent`: the unsigned subtraction in `expireEventBatches` wraps
  when the clock value is positive and below the expiry.
* `PushdownExact`: a lower bound on `time` below zero is read as a huge unsigned
  time and hides every row. An upper bound never narrows the scan, because it is
  combined by minimum with an initial 0 that stands for "no end".
* `CutCollectsIff`, `CutLosesEvent`: a cursor's time is written before its id. Of the
  events above the old id, a query that died in between collects next exactly
  those not older than one second before the newest; a run shows one lost.
* `CounterGap`, `SkippedCounter`: an execution uses up a counter value without
  logging an item exactly when it reports no removals and only removes rows; a
  run shows the counters 0 and 2 and a replay that still holds the removed row.
* `StaysExactIff`, `DifferenceKeepsLoss`, `RecoversIff`: a difference that was stored
  but not logged makes the replay inexact; rows it missed stay missed exactly
  while they stay in the results, rows it kept too long until the next full
  result.
* `LossLeavesGap`, `FullLossThenNext`: a lost difference leaves a gap in the counters
  exactly when its counter had been written.
* `ZeroCounterIff`, `CutFirstExecution`: an item with counter 0 is a full result except
  where rows are stored and no counter is; a run shows such an item.
* `QuarantinedIffSaved`, `DyingStartLosesQuery`: the marker of the crashed query is
  cleared before the denylist is saved, so the quarantine begins exactly when the
  watchdog is on and the save is reached; a run in which the process dies between
  the two writes hands the query over again.
* `SqlAfter`: in a new epoch of a known name the SQL text is neither compared nor
  stored, so that the text in the database stays that of an earlier epoch.
* `BlockedMeansUnnotified`, `EarlyReturnCanLeaveBlocked`: a second interrupt may
  return while the thread is still blocked.
* `StopReachesIff`, `DoubleAddEscapes`: a runnable added again before it has run gets
  two threads and loses its registration with the first of them to end; a stop
  interrupts a live thread exactly when that has not happened to it.
* `RefusedIffFresh`: dying again under a running mark that has expired leaves the
  query free, as the mark is not renewed.
* `SurvivesIffClean`, `ColonLosesAll`: the entries of a denylist that have time left
  all survive a restart exactly when every name is not empty, has no colon and no
  space at either end; one colon in one name loses the clean entries too.
* `CollectedIffTimely`: a new event reaches a query's next scan exactly when it is
  not older than one second before the query's cursor.
* `CounterRestored`, `ReusedIdLost`, `ReusedIdRun`: a restart brings the event id
  counter back exactly when the last row of the last batch could be serialised;
  otherwise the next event takes an id that a query may have passed and is not
  handed to it, as a run shows.
* `SharedCursorSkips`: a query that reads two subscribers has one cursor for both;
  which events of the second it passes over.
* `CursorReadsBack`: a cursor reads back exactly while its time is below 2^63.
* `IndexOrderExact`: event keys sort by id exactly while all ids are below 10^10.
* `ReadEndExact`, `CompleteIffEven`, `LoneBackslashReadsOn`: `resolve_backslashes`
  stops at the terminator of a token exactly when the token ends in an even number
  of backslashes, and otherwise steps over it by one; a closed double-quoted token
  always ends in an even number (`ClosedIsComplete`). Having stepped over it, the
  loop shifts the rest of the line, so that `abc\ def` reads `ef` as its second
  token (`ResolveThrough`, `ShiftedExample`).
* `DecodableIff`: the separators of at most one byte for which CSV tables can be
  told apart. `LongSeparatorQuotedIff`, `LongSeparatorAmbiguous`: a longer one is
  quoted wherever a field holds it exactly when one of its bytes needs quoting by
  itself; otherwise tables cannot be told apart.
* The comment on `Point::tryToAggregate` says nothing changes when it returns
  false; the time does. The model follows the code.

## Model

| member | source | states |
|---|---|---|
| Text.IndexWidth | osquery/events/eventsubscriberplugin.cpp:338-344 | a padded index has ten characters exactly for ids below 10^10 |
| Text.ValueOfToIndex | osquery/events/eventsubscriberplugin.cpp:338-344 | a padded index parses back to its id |
| Text.IndexOrder | osquery/events/eventsubscriberplugin.cpp:338-344 | byte order of padded indices is numeric order below 10^10 |
| Text.IndexOrderBreaks | osquery/events/eventsubscriberplugin.cpp:338-344 | 10^10 sorts before its predecessor |
| Text.IndexOrderExact | osquery/events/eventsubscriberplugin.cpp:338-344 | byte order is numeric on all ids below a bound exactly for bounds up to 10^10 |
| Text.NumbersReadBack | osquery/utils/conversions/tryto.h:76-141 | numbers written in decimal or padded read back through each parser within its range; a signed reading fails outside it |
| Text.SpacesSkipped | osquery/utils/conversions/tryto.h:76-141 | space in front of a number is skipped by each parser |
| Text.SignTaken | osquery/utils/conversions/tryto.h:76-141 | a minus sign negates a signed reading and wraps an unsigned one; a key suffix too large saturates |
| Text.WholeRefusesRest | osquery/events/eventsubscriberplugin.cpp:424-442 | a key suffix with anything after its digits is refused |
| EventIndex.LowerBound | osquery/events/eventsubscriberplugin.cpp:664-673 | first bucket not older than a time |
| EventIndex.UpperBound | osquery/events/eventsubscriberplugin.cpp:675-677 | first bucket younger than a time |
| EventIndex.InsertSorted | osquery/events/eventsubscriberplugin.cpp:174-182 | adding ids keeps the index ordered and grows it by at most one bucket |
| EventIndex.InsertAppends | osquery/events/eventsubscriberplugin.cpp:174-182 | at a time no older than the newest bucket, adding ids appends exactly those events |
| EventIndex.InsertMembers | osquery/events/eventsubscriberplugin.cpp:174-182 | at any time, adding ids adds exactly those events |
| EventIndex.OverflowCut | osquery/events/eventsubscriberplugin.cpp:515-535 | overflow removal leaves exactly the maximum, and never the newest bucket out |
| EventIndex.ExpireCut | osquery/events/eventsubscriberplugin.cpp:590-625 | expiry never removes the newest bucket |
| EventIndex.ExpireCutMeaning | osquery/events/eventsubscriberplugin.cpp:602-624 | which buckets expiry removes, both ways, by the threshold it computes |
| EventIndex.ExpireExact | osquery/events/eventsubscriberplugin.cpp:602-624 | a bucket goes exactly when it is not the newest and is older than the clock less the expiry, or where the clock is below the expiry, older than the clock plus 2^64 less the expiry |
| EventIndex.ExpireSparesCurrent | osquery/events/eventsubscriberplugin.cpp:590-607 | expiry spares everything as young as its clock value exactly when the subtraction does not wrap |
| EventIndex.FlatInjective | osquery/events/eventsubscriberplugin.cpp:467-474 | a well-formed index is determined by the list of its events |
| EventIndex.WindowIsFilter | osquery/events/eventsubscriberplugin.cpp:655-714 | the iterator window with the id test is the in-order filter by time range and id, for all bounds |
| EventStore.DataKeyInjective | osquery/events/eventsubscriberplugin.cpp:503-509 | event keys of one subscriber are distinct per id |
| EventStore.KeysSpelled | osquery/events/eventsubscriberplugin.cpp:503-509 | the text of the keys of an event and of a cursor |
| EventStore.CursorKeysApart | osquery/events/eventsubscriberplugin.cpp:357-361 | cursor keys collide with no other cursor and no event key |
| EventStore.CursorReadsBack | osquery/events/eventsubscriberplugin.cpp:346-396 | a stored cursor is read back unchanged exactly when its time is below 2^63, and otherwise with time 0 |
| EventStore.CursorIsPrivate | osquery/events/eventsubscriberplugin.cpp:346-396 | storing one name's cursor leaves every other name's alone |
| EventStore.CursorSparesData | osquery/events/eventsubscriberplugin.cpp:357-361 | storing a cursor touches no event |
| EventStore.CutCursorReads | osquery/events/eventsubscriberplugin.cpp:353-361 | a cursor of which only the first write was done reads as the new time and the old id; nothing else changes |
| EventStore.PutRowsMeaning | osquery/events/eventsubscriberplugin.cpp:124-154 | a batch stores under each of its ids that row if it serialises, and leaves the key alone otherwise |
| EventRuns.FreshInv | osquery/events/eventsubscriberplugin.cpp:785-794 | a subscriber set up over an empty domain satisfies the invariant |
| EventRuns.BatchInv | osquery/events/eventsubscriberplugin.cpp:111-199 | a batch, with its checkpoint evictions, keeps the invariant |
| EventRuns.QueryInv | osquery/events/eventsubscriberplugin.cpp:258-292 | an optimised or windowed query, with expiry, and a schedule update keep the invariant |
| EventRuns.RestartInv | osquery/events/eventsubscriberplugin.cpp:408-501 | a restart keeps the invariant, even one from inside the evictions of a batch or a query or from between the two writes of a cursor |
| EventRuns.BehaviourInv | osquery/events/eventsubscriberplugin.cpp:111-199 | every state of every run satisfies the invariant |
| EventRuns.ScanExists | osquery/events/eventsubscriberplugin.cpp:410-416 | a restart is possible in every such state, from any point of an eviction |
| EventRuns.CollectedMeaning | osquery/events/eventsubscriberplugin.cpp:264-281 | an optimised scan collects exactly the indexed events above the cursor that are no older than one second before it, in id order |
| EventLimits.CollectedIffTimely | osquery/events/eventsubscriberplugin.cpp:264-281 | a new event of any time is in a query's next scan exactly when it is no older than where the scan starts |
| EventLimits.PassedIsSkipped | osquery/events/eventsubscriberplugin.cpp:679-706 | an id at or below a query's cursor is never collected for it |
| EventRuns.ScanReachesEnd | osquery/events/eventsubscriberplugin.cpp:679-714 | it leaves the cursor at the newest event |
| EventRuns.WindowReadable | osquery/events/eventsubscriberplugin.cpp:716-749 | every collected event is readable, is the row first stored, and nothing is deleted as invalid |
| EventRuns.DeliveryHolds | osquery/events/eventsubscriberplugin.cpp:258-292 | in every state of the invariant, seen, missed and next to be scanned partition what is indexed |
| EventRuns.ExactlyOnceDelivery | osquery/events/eventsubscriberplugin.cpp:258-292 | at every point of every run: at most once, in order, nothing indexed left out but the missed events, rows as first stored |
| EventRuns.MissedIffCut | osquery/events/eventsubscriberplugin.cpp:353-361 | in every run, an event is missed exactly when a cursor write cut short found it above the old id and older than one second before the newest |
| EventRuns.UncutMissesNothing | osquery/events/eventsubscriberplugin.cpp:258-292 | without such a cut, every indexed event has been handed over or is in the next scan |
| EventRuns.CutCollectsIff | osquery/events/eventsubscriberplugin.cpp:353-361 | which events the next scan after a cut cursor write still collects |
| EventRuns.CutCore | osquery/events/eventsubscriberplugin.cpp:353-361 | a cut cursor write keeps the invariant |
| EventRuns.CutLosesEvent | osquery/events/eventsubscriberplugin.cpp:353-361 | a run that loses an event in that way |
| EventRuns.IdsNeverReused | osquery/events/eventsubscriberplugin.cpp:611-619 | no run overwrites a stored row, and the next id exceeds every id ever stored |
| EventRuns.ScanListsEvents | osquery/events/eventsubscriberplugin.cpp:410-424 | the key scan lists the stored events in id order |
| EventRuns.RebuildOk | osquery/events/eventsubscriberplugin.cpp:424-500 | the rebuilt index lists exactly the stored events, deletes nothing, and restores the id counter |
| EventRuns.RestartInvisible | osquery/events/eventsubscriberplugin.cpp:408-501 | rebuilding yields the very index, counter and database the dead process had |
| EventLimits.CounterRestored | osquery/events/eventsubscriberplugin.cpp:424-500 | whatever became of earlier rows, a restart restores the id counter exactly when the last row of the last batch was serialised |
| EventLimits.KeysBelowCounter | osquery/events/eventsubscriberplugin.cpp:124-154 | over any operations, event keys never run ahead of the id counter |
| EventLimits.ReusedIdLost | osquery/events/eventsubscriberplugin.cpp:124-154 | the first row after a restart reaches a query that had caught up exactly when the last row before it was serialised |
| EventLimits.ReusedIdRun | osquery/events/eventsubscriberplugin.cpp:124-154 | a run that loses an event to a reused id |
| EventLimits.ScanAlwaysExists | osquery/events/eventsubscriberplugin.cpp:410-416 | any database can be scanned in key order |
| EventLimits.SharedCursorSkips | osquery/events/eventsubscriberplugin.cpp:346-396 | which events of a second subscriber a query passes over after scanning a first |
| EventLimits.RebuildLast | osquery/events/eventsubscriberplugin.cpp:418-442 | the rebuilt id counter is the largest id among the keys |
| EventLimits.BufferBound | osquery/events/eventsubscriberplugin.cpp:185-196 | after any operations on any database the index holds at most `events_max` plus the event count modulo 256 buckets |
| EventLimits.QueryExpiryExact | osquery/events/eventsubscriberplugin.cpp:245-292 | once as many names are recorded as are counted, the expiry after a query removes exactly the buckets older than the larger of flag and schedule minimum, by the oldest recorded start time; before that, nothing |
| EventLimits.CheckpointExact | osquery/events/eventsubscriberplugin.cpp:185-196 | at every 256th event, and only then, the oldest buckets over the maximum go and then the expired ones |
| EventLimits.StartUpExact | osquery/events/eventsubscriberplugin.cpp:785-794 | at start-up the buckets expired by the flag alone go and then the oldest over the maximum |
| EventLimits.BatchTakesIds | osquery/events/eventsubscriberplugin.cpp:124-154 | every row takes an id, stored or not; a batch no row of which serialises leaves the index alone |
| EventLimits.DropExact | osquery/events/eventsubscriberplugin.cpp:716-749 | of the events a scan collects, exactly those without a readable row lose their keys |
| EventLimits.RebuildExact | osquery/events/eventsubscriberplugin.cpp:418-477 | over any key list, the rebuilt index holds exactly the events of the usable keys |
| EventLimits.RebuildDeletes | osquery/events/eventsubscriberplugin.cpp:479-490 | a rebuild deletes exactly the unusable keys of its subscriber |
| EventRuns.RemovedIsOld | osquery/events/eventsubscriberplugin.cpp:245-256 | what query-path expiry removes is older than every recorded start time |
| EventRuns.QueryExpirySafe | osquery/events/eventsubscriberplugin.cpp:258-292 | in every run, what expiry after an optimised or windowed query removes every recorded query has been handed or made to miss |
| EventRuns.RecordedSince | osquery/events/eventfactory.cpp:343-356 | in every run, the recorded names are those run since the last schedule update or restart, and count and minimum expiry are those of that update |
| EventRuns.QueryWaitsForAll | osquery/events/eventsubscriberplugin.cpp:333-336 | while fewer names have run since the schedule update than it counted, no query expires anything |
| EventRuns.CountedQueriesServed | osquery/events/eventsubscriberplugin.cpp:258-292 | what the expiry after a query removes, each of the queries the schedule counts has been handed or made to miss |
| EventRuns.RemovedIsSeen | osquery/events/eventsubscriberplugin.cpp:258-292 | the same for either query from any state of the invariant |
| EventRuns.StartZeroBlocks | osquery/events/eventsubscriberplugin.cpp:586-592 | a recorded query still at start time 0 blocks expiry |
| EventSubscriber.Subscriber.AddBatch | osquery/events/eventsubscriberplugin.cpp:111-199 | fails exactly when no row serialises, its ids staying taken; otherwise the new state is the batch operation on the old |
| EventSubscriber.Subscriber.StageRows | osquery/events/eventsubscriberplugin.cpp:124-154 | consecutive ids for all rows, and the rows that serialise stored under theirs |
| EventSubscriber.Subscriber.RemoveOverflowingEventBatches | osquery/events/eventsubscriberplugin.cpp:511-568 | drops the oldest buckets and their rows down to the maximum; the newest bucket stays |
| EventSubscriber.Subscriber.ExpireEventBatches | osquery/events/eventsubscriberplugin.cpp:586-640 | drops exactly the buckets older than the clock less the expiry, with the wrap spelled out, and their rows; the newest bucket stays |
| EventSubscriber.Subscriber.DeleteRows | osquery/events/eventsubscriberplugin.cpp:630-640 | deletes the rows of the given buckets and no others |
| EventSubscriber.Subscriber.GetExpireTime | osquery/events/eventsubscriberplugin.cpp:245-256 | the oldest recorded start time, or the clock while nothing is counted or recorded |
| EventSubscriber.Subscriber.GetMinExpiry | osquery/events/eventsubscriberplugin.cpp:233-239 | the larger of the flag and the schedule's minimum, and one of the two |
| EventSubscriber.Subscriber.ScanRows | osquery/events/eventsubscriberplugin.cpp:648-752 | the rows of the window above the cursor, where it ended, and which keys it drops |
| EventSubscriber.Subscriber.CollectIds | osquery/events/eventsubscriberplugin.cpp:679-714 | the ids above the cursor over a run of buckets, and the last bucket visited |
| EventSubscriber.Subscriber.ReadRows | osquery/events/eventsubscriberplugin.cpp:716-749 | rows read in order, unreadable keys dropped |
| EventSubscriber.Subscriber.GenerateRows | osquery/events/eventsubscriberplugin.cpp:258-292 | optimised or windowed query, cursor and expiry included, as the operation of which `QueryWaitsForAll` and `QueryExpiryExact` say when and what it expires |
| EventSubscriber.Subscriber.GenTable | osquery/events/eventsubscriberplugin.cpp:294-323 | without constraints an optimised query, otherwise exactly the events in the computed window |
| EventSubscriber.Subscriber.GenerateEventDataIndex | osquery/events/eventsubscriberplugin.cpp:408-501 | the index and id counter rebuilt from a key scan, invalid keys deleted |
| EventSubscriber.Subscriber.IndexKey | osquery/events/eventsubscriberplugin.cpp:424-477 | what one key contributes, valid or not |
| EventSubscriber.Subscriber.SetUp | osquery/events/eventsubscriberplugin.cpp:785-794 | rebuild, then expire, then cut overflow |
| EventSubscriber.Subscriber.Configure | osquery/events/eventfactory.cpp:343-356 | new minimum expiry and query count; recorded queries forgotten |
| TimeWindow.ComputeSpan | osquery/events/eventsubscriberplugin.cpp:296-316 | the scan window of a list of constraints; the first equality decides |
| TimeWindow.WindowContains | osquery/events/eventsubscriberplugin.cpp:296-316 | a satisfying time lies in the window exactly when no lower bound is misread |
| TimeWindow.PushdownExact | osquery/events/eventsubscriberplugin.cpp:294-323 | pushdown preserves meaning over every event list exactly when no lower bound below zero is left without an equality |
| TimeWindow.PushdownSound | osquery/events/eventsubscriberplugin.cpp:294-323 | over non-negative literals pushdown always preserves meaning |
| TimeWindow.ScanIds | osquery/events/eventsubscriberplugin.cpp:679-708 | the scan loop returns the ids of exactly the events in the window |
| QueryLog.OwnKeysDistinct | osquery/core/query.cpp:81-104 | the four keys of a name are distinct |
| QueryLog.Diff | osquery/core/sql/diff_results.cpp:53-70 | added and removed rows are the two multiset differences |
| QueryLog.Queries.GetQueryStatus | osquery/core/query.cpp:112-131 | new epoch and new SQL, and the SQL text stored |
| QueryLog.SqlAfterStatus | osquery/core/query.cpp:112-131 | the SQL counts as new for a new name, and within an epoch where it differs; which text is stored |
| QueryLog.SqlAfter | osquery/core/query.cpp:112-214 | the SQL text stored after an execution, wherever it is cut: its own, except that a new epoch of a known name leaves the old text |
| QueryLog.FailsIff | osquery/core/query.cpp:112-214 | an execution fails exactly when the epoch of a known name cannot be read, or within an epoch its rows cannot, or they changed and the counter cannot |
| QueryLog.Queries.AddResults | osquery/core/query.cpp:163-214 | stored results, counter and difference up to where the process dies, or failure without them |
| QueryLog.Queries.SaveResults | osquery/core/query.cpp:81-88 | results, epoch and counter written one by one |
| QueryLog.Queries.AddDifference | osquery/core/query.cpp:176-212 | the difference from the stored rows, and its writes |
| QueryLog.Queries.Launch | osquery/dispatcher/scheduler.cpp:161-203 | which item is logged, if any, and the database left where the process dies |
| QueryLog.OwnStep | osquery/core/query.cpp:163-214 | an execution keeps log, stored results, stored counter and the account of its name in step |
| QueryLog.WritesOwnKeys | osquery/core/query.cpp:81-138 | an execution writes only under its own name's keys |
| QueryLog.OtherStep | osquery/core/query.cpp:81-138 | it leaves names whose keys do not collide as they were |
| QueryLog.LogReplays | osquery/core/query.cpp:163-214 | in any run of completed executions the database holds the latest rows, the replayed log is those rows plus the unreported removals, and counters of consecutive items differ by one plus the silent executions between them |
| QueryLog.ReportedLogReplays | osquery/core/query.cpp:163-214 | for a name that reports removals, whatever the other names do, the replay is exactly the latest rows and counters go up by one |
| QueryLog.SkippedCounter | osquery/dispatcher/scheduler.cpp:191-199 | a run whose log shows the counters 0 and 2 and replays to a row that is gone |
| QueryLog.CounterGap | osquery/dispatcher/scheduler.cpp:191-199 | from any stored results and counter of the epoch, a counter value is used up without an item exactly when removals are not reported and rows are only removed |
| QueryCrashes.CrashedLogReplays | osquery/core/query.cpp:81-138 | in any run, wherever executions are cut, the database holds the ledger's rows and the log replays to them exactly when the ledger owes nothing and has nothing extra |
| QueryCrashes.OwnStep | osquery/core/query.cpp:163-214 | an execution cut anywhere keeps database, log and ledger of its name in step |
| QueryCrashes.OtherStep | osquery/core/query.cpp:81-138 | and leaves names whose keys do not collide as they were |
| QueryCrashes.StaysExactIff | osquery/dispatcher/scheduler.cpp:161-203 | exactly when an exact log stays exact across an execution, cut or not |
| QueryCrashes.FullSettles | osquery/core/query.cpp:188-191 | a logged full result makes the replay exact whatever was lost |
| QueryCrashes.DifferenceKeepsLoss | osquery/core/query.cpp:176-187 | a reported difference keeps what the replay has extra, and of what it lacks exactly what is still stored |
| QueryCrashes.RecoversIff | osquery/core/query.cpp:176-187 | when a difference makes the replay exact again |
| QueryCrashes.LossLeavesGap | osquery/core/query.cpp:133-138 | a lost difference skips a counter value exactly when its counter was written |
| QueryCrashes.FullLossThenNext | osquery/core/query.cpp:112-138 | what the execution after a lost full result stores, and under which counter |
| QueryCrashes.ZeroCounterIff | osquery/core/query.cpp:45-65 | when counter 0 is given, and when it marks a mere difference |
| QueryCrashes.CutFirstExecution | osquery/core/query.cpp:81-88 | a run that logs a difference under counter 0 |
| Denylist.SaveSplits | osquery/config/config.cpp:340-349 | the saved text splits into the names and times written |
| Denylist.RestoreSave | osquery/config/config.cpp:321-349 | saving and restoring loses exactly the entries that have run out |
| Denylist.SurvivesIffClean | osquery/config/config.cpp:321-349 | all entries of a list survive a save and a restore exactly when all names are clean |
| Denylist.ColonLosesAll | osquery/config/config.cpp:325-328 | a colon in one name loses the clean entry beside it |
| Denylist.SplitCount | osquery/config/config.cpp:340-349 | how many tokens a saved list is read back as, for any names |
| Denylist.Schedule.SaveScheduleDenylist | osquery/config/config.cpp:340-349 | the text of the whole list |
| Denylist.Schedule.RestoreScheduleDenylist | osquery/config/config.cpp:321-338 | entries read from the text, malformed text giving none |
| Denylist.Schedule.Start | osquery/config/config.cpp:351-371 | the list restored, the marker cleared, then the list saved with the crashed query, unless the process dies in between |
| Denylist.Schedule.ScheduledQueries | osquery/config/config.cpp:481-526 | which names are handed over, and which entries are dropped and saved |
| Denylist.Schedule.RecordQueryStart | osquery/config/config.cpp:1175-1184 | the executing marker and the last start time of the name set |
| Denylist.Schedule.RecordQueryPerformance | osquery/config/config.cpp:1167-1172 | the marker cleared unless a limit was hit |
| Denylist.BootSound | osquery/config/config.cpp:351-371 | a start, even one that dies half-way, keeps every quarantine that has time left; one that saves adds the crashed query |
| Denylist.PassSound | osquery/config/config.cpp:481-526 | a pass over the schedule keeps a quarantine and hands the query to nobody |
| Denylist.HandedIff | osquery/config/config.cpp:453-474 | a query is handed over exactly when it has no entry, its entry has run out, it is exempt, or the caller asks for denylisted ones |
| Denylist.PassKeepsIff | osquery/config/config.cpp:453-474 | a pass drops exactly the entries it finds run out or exempt |
| Denylist.RunSound | osquery/config/config.cpp:351-371 | any run keeps memory and text consistent and the quarantine in both |
| Denylist.CrashQuarantine | osquery/config/config.cpp:351-371 | after a start that saved the list, the executing query is kept from the scheduler for 86400 seconds, across anything that follows |
| Denylist.HeldForADay | osquery/config/config.cpp:351-371 | after a start that saves the list, the crashed query is held back exactly up to 86400 seconds later |
| Denylist.NotExtended | osquery/config/config.cpp:351-371 | a further start within that day, even one that dies, neither extends nor shortens that time |
| Denylist.QuarantinedIffSaved | osquery/config/config.cpp:358-370 | the next process hands the query over exactly when the start that found its marker ran without the watchdog or died before the save |
| Denylist.MarkedIff | osquery/config/config.cpp:1167-1184 | over any run, the marker names the query started last exactly while it has neither ended within its limits nor been seen by a start |
| Denylist.UnfinishedQuarantined | osquery/config/config.cpp:351-371 | a start that saves quarantines the query started last, until 86400 seconds later, exactly when its marker was still set |
| Denylist.DyingStartLosesQuery | osquery/config/config.cpp:363-368 | a run that loses the quarantine in that way |
| Denylist.ReleasedAfterExpiry | osquery/config/config.cpp:453-456 | after its expiry a query is handed over and forgotten in memory and in the text |
| Distributed.Client.CheckAndSetAsRunning | osquery/distributed/distributed.cpp:210-224 | refusal, and a mark written only where there was none |
| Distributed.Client.SetAsNotRunning | osquery/distributed/distributed.cpp:226-237 | the mark of one query removed |
| Distributed.Client.PopRequest | osquery/distributed/distributed.cpp:378-385 | the query text, and the request removed |
| Distributed.Client.CleanupExpiredRunningQueries | osquery/distributed/distributed.cpp:239-263 | exactly the unexpired marks remain |
| Distributed.Client.FlushCompleted | osquery/distributed/distributed.cpp:265-300 | the buffer is cleared only by a successful write |
| Distributed.Client.RunQueries | osquery/distributed/distributed.cpp:155-208 | the new state is the loop over the pending ids followed by the flush, of which `OneResultEach` says what each result tells |
| Distributed.Client.RunRequest | osquery/distributed/distributed.cpp:160-199 | one request taken, refused or executed, and answered as `YieldTells` says |
| Distributed.NoMarkLeft | osquery/distributed/distributed.cpp:159-200 | requests taken are gone, and no mark remains that was not there before |
| Distributed.ClearsExecuted | osquery/distributed/distributed.cpp:162-195 | of the marks there were, exactly those of executed queries are cleared |
| Distributed.CleanupInvisible | osquery/distributed/distributed.cpp:239-263 | cleaning up never changes which queries are refused |
| Distributed.CleanupCut | osquery/distributed/distributed.cpp:239-263 | a cleanup cut short has cleared exactly the expired marks it reached |
| Distributed.YieldBuffered | osquery/distributed/distributed.cpp:151-153 | the results of a run are appended to the buffer |
| Distributed.YieldMatches | osquery/distributed/distributed.cpp:159-200 | one result per request, in order, for its own query text |
| Distributed.YieldTells | osquery/distributed/distributed.cpp:160-199 | a result is a refusal with nothing in it exactly when an unexpired mark, not cleared earlier in the run, bars its query; otherwise it is the outcome of its own execution |
| Distributed.ExpiresIff | osquery/distributed/distributed.cpp:210-263 | a mark expires exactly after its time and the duration have passed; text that is no number counts as time 0 |
| Distributed.OneResultEach | osquery/distributed/distributed.cpp:155-200 | a run yields exactly one result per pending id, for its own query text and with its own outcome or refusal, and empties them |
| Distributed.ResultsConserved | osquery/distributed/distributed.cpp:265-300 | written batches followed by the buffer are the results produced, in order, however often writes fail |
| Distributed.MarkSurvives | osquery/distributed/distributed.cpp:210-263 | a mark within its duration survives runs, cleanups and restarts at any point |
| Distributed.DiedMarked | osquery/distributed/distributed.cpp:210-224 | dying under a fresh mark leaves that mark |
| Distributed.CrashedQueryRefused | osquery/distributed/distributed.cpp:210-263 | a query that died under a fresh mark is refused until the duration has passed, across restarts at any point |
| Distributed.RefusedIffFresh | osquery/distributed/distributed.cpp:213-223 | right after a crash a query is refused exactly when its mark was fresh |
| Distributed.QuarantinedIffExecuting | osquery/distributed/distributed.cpp:155-200 | of the queries without a mark, a death quarantines exactly the one past its check |
| Distributed.CrashTakes | osquery/distributed/distributed.cpp:155-200 | which requests and marks a death leaves, at any point; buffered results are gone |
| Handshake.BehaviourInv | osquery/dispatcher/dispatcher.cpp:20-41 | mutex ownership, a single winning call, and no pausing past its notification, in every interleaving |
| Handshake.InterruptedNeverBlocks | osquery/dispatcher/dispatcher.cpp:20-41 | once the call that set the flag has returned, the thread is never blocked in `pause` again |
| Handshake.EarlyReturnCanLeaveBlocked | osquery/dispatcher/dispatcher.cpp:22-30 | a call that finds the flag set may return while the thread is blocked |
| Handshake.BlockedMeansUnnotified | osquery/dispatcher/dispatcher.cpp:22-30 | that happens only while the winning call has not notified |
| Handshake.WinnerCanFinish | osquery/dispatcher/dispatcher.cpp:20-41 | the winning call is never stuck |
| Dispatcher.Registry.AddService | osquery/dispatcher/dispatcher.cpp:62-86 | succeeds exactly for a service that has not run while the dispatcher is not stopping |
| Dispatcher.Registry.RemoveService | osquery/dispatcher/dispatcher.cpp:93-105 | every entry of the service, and nothing else, removed |
| Dispatcher.Registry.StopServices | osquery/dispatcher/dispatcher.cpp:147-158 | stopping, with every registered service interrupted |
| Dispatcher.Registry.JoinServices | osquery/dispatcher/dispatcher.cpp:120-145 | ends with both lists empty, every thread joined once and ended |
| Dispatcher.RunInv | osquery/dispatcher/dispatcher.cpp:62-158 | in every reachable state live threads are owed a join, and registered or, once stopping, interrupted unless another thread of their runnable has ended |
| Dispatcher.StoppedRun | osquery/dispatcher/dispatcher.cpp:62-145 | after a stop the thread list only shrinks, by one per round of the join loop |
| Dispatcher.StopThenJoin | osquery/dispatcher/dispatcher.cpp:120-158 | from any reachable state a stop interrupts every live thread but orphaned ones, and every one if no runnable was added again before it ran; nothing is added later, and the join ends empty |
| Dispatcher.StopReachesIff | osquery/dispatcher/dispatcher.cpp:147-158 | which live threads the first stop interrupts |
| Dispatcher.OnceEach | osquery/dispatcher/dispatcher.cpp:62-86 | additions of runnables that have run or are not registered never give one two threads |
| Dispatcher.DoubleAddEscapes | osquery/dispatcher/dispatcher.cpp:62-105 | a run in which a stop misses a live thread |
| Dispatcher.JoinProgress | osquery/dispatcher/dispatcher.cpp:126-142 | the join loop can go on once the threads it waits for end |
| Scheduler.Runner.CalculateTimeDriftAndMaybePause | osquery/dispatcher/scheduler.cpp:213-225 | pause and drift of a tick; a pause uses up the interval exactly |
| Scheduler.DriftAccounts | osquery/dispatcher/scheduler.cpp:213-225 | drift stays bounded; elapsed time is scheduled time plus change in drift plus drift given up |
| Scheduler.NeverLosesTime | osquery/dispatcher/scheduler.cpp:213-225 | without a give-up the loop is never ahead and at most the maximum drift behind |
| Scheduler.GivenUpIff | osquery/dispatcher/scheduler.cpp:213-225 | over any run, drift is given up exactly when some stretch of ticks exceeds its intervals by more than the maximum; until then the drift is the largest such excess |
| Scheduler.RunTick | osquery/dispatcher/scheduler.cpp:285-311 | the queries launched at a tick, of which `LaunchedIff` says which they are, and the first runs recorded |
| Scheduler.LaunchedIsDue | osquery/dispatcher/scheduler.cpp:285-295 | a tick launches exactly the queries due at its start, in schedule order |
| Scheduler.LaunchedIff | osquery/dispatcher/scheduler.cpp:288-292 | a tick launches a query exactly when its positive splayed interval divides the tick or it has a startup priority and has not run |
| Scheduler.PlainRunsOnInterval | osquery/dispatcher/scheduler.cpp:288-292 | over any run of ticks, a query without a startup priority is launched exactly at the multiples of its splayed interval |
| Scheduler.RanIsLaunched | osquery/dispatcher/scheduler.cpp:288-294 | the names recorded are exactly those launched so far |
| Scheduler.StartupRunsOnce | osquery/dispatcher/scheduler.cpp:288-294 | a startup query is launched at the first tick and then exactly on its interval |
| Watchdog.Watcher.ResetWorkerCounters | osquery/core/watcher.cpp:161-167 | counters zeroed, respawn time recorded, footprint kept |
| Watchdog.Watcher.GetChange | osquery/core/watcher.cpp:482-546 | counters after a sample, and the footprint judged |
| Watchdog.Watcher.IsChildSane | osquery/core/watcher.cpp:606-649 | each verdict and when it is given |
| Watchdog.CounterIsTailRun | osquery/core/watcher.cpp:504-521 | the latency counter is the length of the last run of samples over the limit |
| Watchdog.TailRunUses | osquery/core/watcher.cpp:504-521 | such a run used more CPU time than its length times the limit, and cannot be extended back |
| Watchdog.InsaneMeansSustained | osquery/core/watcher.cpp:557-564 | the CPU verdict falls exactly when that run spans the latency limit |
| Watchdog.FallingCounterCounts | osquery/core/watcher.cpp:507-513 | a CPU counter that falls counts as over the limit |
| Watchdog.LimitTable | osquery/core/watcher.cpp:74-93 | the limits of each level in numbers, and the flags that override them |
| Watchdog.CpuLimitIs | osquery/core/watcher.cpp:148-159 | thirty milliseconds per percent, up to a hundred, and CPU |
| Watchdog.DefaultVerdict | osquery/core/watcher.cpp:557-564 | by default the CPU verdict falls after four checks in a row over 300 milliseconds per CPU |
| Watchdog.MemoryVerdict | osquery/core/watcher.cpp:548-555 | by default the memory verdict falls above 200 mebibytes |
| Watchdog.IncompleteRestarts | osquery/core/watcher.cpp:501-521 | a sample with columns missing starts the count again |
| Watchdog.FootprintIsGrowth | osquery/core/watcher.cpp:526-536 | over any samples, memory is judged by its growth over the first footprint that was not zero |
| PreAggregation.AttemptMeaning | osquery/numeric_monitoring/pre_aggregation_cache.cpp:28-72 | points merge exactly when path and type agree and the type is sum, minimum or maximum; what never changes, and which time is kept |
| PreAggregation.PreAggregationCache.AddPoint | osquery/numeric_monitoring/pre_aggregation_cache.cpp:74-86 | merged into the last point of its path or appended, as `CachedBeside` and `AddFolds` say; the index stays exact |
| PreAggregation.PreAggregationCache.TakePoints | osquery/numeric_monitoring/pre_aggregation_cache.cpp:88-93 | all points handed over, nothing kept |
| PreAggregation.AddKeepsIndex | osquery/numeric_monitoring/pre_aggregation_cache.cpp:74-86 | the index names the last cached point of each path |
| PreAggregation.AddFolds | osquery/numeric_monitoring/pre_aggregation_cache.cpp:74-86 | a point adds its value to the fold of its own path and type only, where `FoldMeaning` says what a fold is |
| PreAggregation.FoldMeaning | osquery/numeric_monitoring/pre_aggregation_cache.cpp:46-71 | a fold is the total, the smallest or the largest of the values of its path and type |
| PreAggregation.AddClocks | osquery/numeric_monitoring/pre_aggregation_cache.cpp:28-72 | a point brings its time into the latest time of its own path only |
| PreAggregation.CachedBeside | osquery/numeric_monitoring/pre_aggregation_cache.cpp:74-86 | a point is appended exactly when the last cached point of its path has another type or one that does not merge |
| PreAggregation.RunConserves | osquery/numeric_monitoring/pre_aggregation_cache.cpp:74-93 | every addition and take keeps the folds over taken and cached points those over the added ones |
| PreAggregation.AddUnmerged | osquery/numeric_monitoring/pre_aggregation_cache.cpp:74-86 | points of other types keep value and order |
| PreAggregation.EmptyConserved | osquery/numeric_monitoring/pre_aggregation_cache.h:59-62 | an empty cache starts such a run |
| PreAggregation.NothingLost | osquery/numeric_monitoring/pre_aggregation_cache.cpp:74-93 | over any run from an empty cache, the points taken and cached have per path the same total of sums, smallest minimum, largest maximum and latest time as the points added, and other points are all there in order |
| ShellText.OutputCString | osquery/devtools/shell.cpp:451-477 | the printed form of a string |
| ShellText.FindEnd | osquery/devtools/shell.cpp:1369-1374 | where the scan of a quoted token stops |
| ShellText.ResolveBackslashes | osquery/devtools/shell.cpp:1049-1078 | any string unescaped in place; the read index stops at its terminator exactly when the string is complete, and one past it otherwise; the rest of the buffer untouched |
| ShellText.ResolveThrough | osquery/devtools/shell.cpp:1049-1078 | after an incomplete token the rest of the line is unescaped right behind it, and what is read next has lost its first bytes |
| ShellText.ShiftedExample | osquery/devtools/shell.cpp:1382-1389 | the shift on one line |
| ShellText.ReadEscape | osquery/devtools/shell.cpp:1053-1074 | one escape, a lone final backslash included: the byte written and the bytes stepped over |
| ShellText.ReadEndExact | osquery/devtools/shell.cpp:1052-1076 | where the read index leaves a string |
| ShellText.CompleteIffEven | osquery/devtools/shell.cpp:1052-1076 | a string is complete exactly when it ends in an even number of backslashes |
| ShellText.ClosedIsComplete | osquery/devtools/shell.cpp:1366-1379 | a double-quoted token that is closed is always complete |
| ShellText.LoneBackslashReadsOn | osquery/devtools/shell.cpp:1369-1389 | an unquoted token and an unclosed quoted one that are not |
| ShellText.UnescapeBody | osquery/devtools/shell.cpp:1039-1078 | unescaping undoes printing for every string |
| ShellText.EscapeCost | osquery/devtools/shell.cpp:451-477 | a byte prints as one, two or four characters, all printable: which bytes get which |
| ShellText.BodyPrintable | osquery/devtools/shell.cpp:451-477 | a printed string is printable throughout, and plain characters print as they are |
| ShellText.OctalTaken | osquery/devtools/shell.cpp:1049-1078 | up to three octal digits are read after a backslash, and their value modulo 256 |
| ShellText.ScanBody | osquery/devtools/shell.cpp:1366-1377 | the scan stops exactly at the closing quote of a printed string |
| ShellText.ReadQuoted | osquery/devtools/shell.cpp:1366-1380 | a printed string in a line is read back byte for byte, and reading goes on right after it |
| Csv.OutputCsv | osquery/devtools/shell.cpp:502-533 | a column as printed, quoted where needed |
| Csv.QuotedIff | osquery/devtools/shell.cpp:502-533 | with a one-byte separator, exactly which fields are quoted |
| Csv.WriteRow | osquery/devtools/shell.cpp:736-739 | a row of columns as printed |
| Csv.TermReadsBack | osquery/devtools/shell.cpp:502-533 | a printed column is read back by the rules of section 2 of RFC 4180 |
| Csv.TableReadsBack | osquery/devtools/shell.cpp:724-741 | so is every table, for a one-byte separator other than a quote or newline |
| Csv.DecodableIff | osquery/devtools/shell.cpp:502-533 | with an empty, quote or newline separator different tables print alike, with any other single byte none do |
| Csv.LongSeparatorUnquoted | osquery/devtools/shell.cpp:509-516 | a longer separator none of whose bytes needs quoting is not quoted past the start of a field |
| Csv.LongSeparatorQuotedIff | osquery/devtools/shell.cpp:509-516 | a longer separator is quoted in every field that holds it exactly when one of its bytes needs quoting |
| Csv.LongSeparatorAmbiguous | osquery/devtools/shell.cpp:509-516 | otherwise different tables print alike |
| ConfigDepth.NextLevelTallest | osquery/config/config.cpp:695-713 | a level down takes one off the height |
| ConfigDepth.LevelHeight | osquery/config/config.cpp:691-717 | the queue at a depth is empty exactly when the document is no deeper |
| ConfigDepth.ValidateConfig | osquery/config/config.cpp:680-725 | accepts exactly the objects of height at most 32, and ends on every tree |

## Left out

- EventRuns.ExactlyOnceDelivery: assumes a single publisher per subscriber with non-decreasing batch times below 2^63, ids below 10^10, rows that serialise, database calls that succeed, and cursors written by this subscriber only; `CollectedIffTimely`, `CursorReadsBack`, `IndexOrderExact`, `ReusedIdLost` and `SharedCursorSkips` say what happens outside. A scan cut short before its cursor is complete counts as not handed over. Query names are not empty.
- EventRuns.QueryExpirySafe: assumes that some recorded start time is 0 or all are at least the expiry; `EventIndex.ExpireSparesCurrent` says why.
- EventRuns.CountedQueriesServed: assumes the same of the start times.
- EventSubscriber.Subscriber.AddBatch: the batch write succeeds; forwarding to loggers and concurrent batches are not modelled.
- TimeWindow.PushdownExact: literals are integers in the signed 64-bit range; text that does not parse as a number is not modelled.
- QueryLog.LogReplays: assumes executions that run to their end (`CrashedLogReplays` is about the others), fewer than 2^64 of them, and names whose derived keys do not collide; JSON serialisation is taken as a round trip.
- Denylist.CrashQuarantine: assumes names without colons or spaces at the ends, as `SurvivesIffClean` shows is needed, and a start whose save was reached, as `QuarantinedIffSaved` shows is needed; extensions, which neither restore nor save, are not modelled.
- Distributed.CrashedQueryRefused: the query hash is taken as injective, and mark time plus duration as below 2^64.
- Dispatcher.Registry.JoinServices: waiting for a thread to end is a step of the run model only; here joining a thread marks it as ended.
- Watchdog.InsaneMeansSustained: samples have all their columns and sums below 2^64.
- PreAggregation.NothingLost: values are unbounded integers, so overflow of a sum is not modelled.
- ShellText.ResolveThrough: the rest of the line is complete; where it is not either, the loop leaves the line, which is not modelled.
- ShellText.OutputCString: `isprint` is that of the C locale, so bytes from 128 on print in octal.
- Csv.TableReadsBack: columns are not null, and rows have at least one column; separators of several bytes are covered by `LongSeparatorQuotedIff` and `LongSeparatorAmbiguous` only.
- `Query::addNewEvents` and snapshot queries: no property beyond their bodies.
- The minimum-expiry and query-count computation of `EventFactory::configUpdate`: only easy members; its effect on a subscriber is `EventSubscriber.Subscriber.Configure`.
- `Config::purge`, pack parsing, comment stripping, decorators, carving, extensions, the registry, TLS and the database engines.
- Respawn delays of the watchdog.
- Logging, the interactive shell loop and the other output modes.
