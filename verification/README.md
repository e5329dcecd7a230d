# Proofs about the agent-to-hub pipeline

This project models the logic of an instance monitoring system: agents that push snapshots
through a bounded queue and a disk spool to a hub, and a hub that stores, aggregates and
watches them.  Every property is stated for all inputs, all runs or all interleavings.

How the parts hang together:

- **Push client and spool** (`SpoolQueue`, `PushMachine`, `PushInvariant`, `PushTheorems`,
  `PushProgress`, `PushClient`).  `PushMachine` is a step machine: channel operations, spool
  calls, hub replies and process stops are atomic steps, a step that is not possible changes
  nothing, and so every sequence of steps is a run.  `PushInvariant` proves what every step
  keeps, `PushTheorems` what follows for whole runs, `PushProgress` what the worker achieves once
  the hub accepts.  `PushClient` holds the methods with their loops; the other goroutine runs
  between any two steps, and the object's history is a run of the machine that ends in its state.
- **Raw samples** (`RawSamples`, `EndToEnd`).  The hub's upsert turns repeated, reordered receipts
  into the table that one write each would give; the exact condition for that is a theorem.
- **History tiers** (`Timestamps`, `TimestampTexts`, `Tiers`, `HistoryStore`, `TierRuns`,
  `FirstRun`, `TwoTier`, `DailyRuns`).  Times are compared as texts.  `Timestamps` prints
  calendar times and proves which texts a query selects (compare section 5.1 of RFC 3339), so the
  other modules can speak of hours.  `TimestampTexts` reads the texts back.  `HistoryStore` has
  the rollup and retention methods, each able to fail at any database call.  `TierRuns` takes
  whole histories of writes, runs, interrupted runs and retentions.  `FirstRun` says which samples
  the first run leaves out, `DailyRuns` what daily rows say for good.
- **Alerts** (`Silence`, `AlertConfig`, `AlertMachine`, `AlertInvariant`, `AlertTheorems`,
  `AlertNotify`, `AlertEngine`).  Any number of senders and one worker, as a step machine and as
  methods; the silence store against the log of every silence ever asked for.
- **Agents and insights** (`SnapshotRing`, `AgentList`, `AgentCatalog`, `HubRuns`, `Hub`, `Insights`,
  `Diagnostics`).
- **Service tree** (`ServicePath`, `ServiceTree`, `ServiceRows`).

A clock reading is a parameter and never goes back; an operation with an earlier reading is not
part of a run and changes nothing.

Some expectations turn out false of the code.  A sample with a fraction in the first second of
an hour is counted in the hour before (`Timestamps.CountedInOwnHour`); when that hour is the
one the first run starts at, the sample is never counted at all, even if it set the start
itself, and is deleted in the end (`FirstRun.CountedIff`, `FirstRun.StartSecondIsLost`).  A
cooldown of more than 153722867 minutes overflows (`AlertConfig.CooldownExact`), and just then
successes of a pair can come closer than the configured minutes (`AlertTheorems.MinutesKeptIff`,
`AlertTheorems.OverflowLosesCooldown`).  A daily row is never written again, so hours rolled up
after the daily run are missing from it (`DailyRuns.DailyRowExactIff`, `DailyRuns.TooSoonOccurs`).
Deduplication can drop a finding when a container has no id, exactly when such a clash is among
the newest rows (`Diagnostics.ListIsNewestIff`, `Diagnostics.NothingToRemoveIff`,
`Diagnostics.ClashLosesAFinding`).  A row id does not always tell agents apart: it fails to
exactly when one agent's name is the other's followed by a bar and the kind of a finding that
has a part (`Diagnostics.AgentsShareIdsIff`), and then a save can remove another agent's row
(`Diagnostics.SavedRemovesOther`).  `Put` can store a row and still report an error, exactly
when the trim alone fails (`SpoolQueue.Spool.Put`).  A first hourly run that is interrupted can
leave rows that a later first run does not look back to; they are counted in the daily row
(`DailyRuns.StraysOccur`, `TwoTier.DailyMatchesRaw`).

Run `dafny verify dfyconfig.toml` to check everything.

## Model

| member | source | states |
|---|---|---|
| SpoolQueue.TrimKeepsNewest | go/internal/push/spool.go:131-145 | a trim keeps the newest rows: what it removes is older than all that stay, and of more than maxItems rows exactly maxItems stay |
| SpoolQueue.PutIsBounded | go/internal/push/spool.go:65-145 | a put that works leaves the end of the old rows with the new one, at most maxItems of them and all if they fit |
| SpoolQueue.PutKeepsNewest | go/internal/push/spool.go:65-83 | whatever fails, a put keeps ids in order, removes a row only when maxItems newer ones remain, and leaves its own row in the table if and only if the insert worked |
| SpoolQueue.WithoutHead | go/internal/push/spool.go:109-117 | deleting an id no larger than the head's removes the head or nothing |
| SpoolQueue.Spool.Put | go/internal/push/spool.go:65-83 | insert then trim under one lock, with each of the two failing; the whole table for each outcome, at most maxItems rows after a put that works; an error on a stored row exactly when the trim alone fails |
| SpoolQueue.Spool.Peek | go/internal/push/spool.go:86-106 | the oldest row, none, or a failed read; the table is unchanged |
| SpoolQueue.Spool.Delete | go/internal/push/spool.go:109-117 | removes exactly the row of the id; nothing on failure or id 0 |
| PushInvariant.StepKeeps | go/internal/push/client.go:72-213 | one invariant kept by every step of producer, worker, hub replies, spool failures, cancellation and restart |
| PushTheorems.NoSilentLoss | go/internal/push/client.go:72-184 | in every interleaving a snapshot is in exactly one place or has exactly one recorded fate, the counts add up, and a delivered one was received by the hub |
| PushTheorems.FateHasCause | go/internal/push/client.go:72-184 | a fate is never changed and arises only from the event it names: accepted reply, 4xx while flushing, trim with maxItems newer rows left, failed Put, no spool, stop |
| PushTheorems.TraceInterleavesTwoOrders | go/internal/push/client.go:91-161 | the hub's trace is an interleaving of a non-decreasing spool sequence and a non-decreasing queue sequence |
| PushTheorems.PipelineInOrder | go/internal/push/client.go:72-161 | spool, hand, queue and incoming snapshot are strictly in production order in every interleaving |
| PushTheorems.FifoWhileSpoolEmpty | go/internal/push/client.go:91-161 | while the spool stays empty the hub receives in production order up to repeats |
| PushTheorems.RowRemoval | go/internal/push/spool.go:86-145 | a row leaves the spool only by the Delete of the very row peeked, which the hub has, or by a trim that leaves maxItems newer rows |
| PushTheorems.SpoolBounded | go/internal/push/spool.go:65-145 | in every run the spool has at most maxItems rows and one for each trim that failed since the last that worked |
| PushTheorems.EvictsOnlyWhenFull | go/internal/push/client.go:72-88 | a snapshot is evicted from the queue only when the queue was found full |
| PushTheorems.IdsNeverReused | go/internal/push/spool.go:15-22 | an id handed out never names a new row, not even after restarts |
| PushTheorems.EnqueueNeverBlocks | go/internal/push/client.go:72-88 | each producer step is ready and brings Enqueue closer to returning, with at most two sends and one spill, whatever the worker does |
| PushTheorems.StopReleases | go/internal/push/client.go:139-200 | a stop ends any wait of the worker: a snapshot being flushed is lost, a row being sent stays in the spool |
| PushTheorems.RestartKeepsSpoolOnly | go/internal/push/spool.go:34-63 | a restart keeps the spool and nothing else: what was in memory is lost, and the worker begins with a drain |
| PushProgress.SpoolIsEmptied | go/internal/push/client.go:111-135 | from any reachable state with the worker at the spool, as many rounds of peek, accepted send and delete as there are rows empty it; the hub receives exactly the rows' snapshots more, oldest first |
| PushProgress.QueueIsEmptied | go/internal/push/client.go:91-108 | with the spool empty and an accepting hub, as many turns as there are queued snapshots deliver them all, oldest first |
| PushProgress.HubBackGetsAll | go/internal/push/client.go:91-135 | once the hub is back the worker's own steps bring every snapshot produced so far to its fate: the spooled ones are received first, then the queued ones, each in order |
| PushProgress.LostReplyRepeats | go/internal/push/client.go:186-213 | a lost reply makes the hub receive a snapshot twice |
| PushClient.Client.Enqueue | go/internal/push/client.go:72-88 | the loop itself, with the worker running in between: returns after at most two sends and fewer spills than sends, the queue within capacity and the new snapshot its newest |
| PushClient.Client.SpillToSpool | go/internal/push/client.go:163-184 | the evicted snapshot goes to the spool or gets the fate of the failure; refines the Spill step |
| PushClient.Client.DrainSpoolUntilBlocked | go/internal/push/client.go:111-135 | peek, send, delete until the spool is off, cannot be read or has no row, or one is not accepted, each end told apart; every row counted as sent was received by the hub |
| PushClient.Client.PeekSpool | go/internal/push/client.go:111-124 | the oldest row whenever the spool is on, can be read and is not empty; otherwise which of the three it was |
| PushClient.Client.FlushUntilSent | go/internal/push/client.go:139-161 | ends with the fate that belongs to the reply: delivered and received, rejected on a 4xx, lost at stop |
| PushClient.Client.SendBatch | go/internal/push/client.go:186-213 | at most maxRetries attempts; stops at acceptance or a permanent error |
| PushClient.Client.Run | go/internal/push/client.go:91-108 | the worker's loop: only producer and worker steps come to the history, one tick or one snapshot a turn; it ends because the client stopped or a bound was reached, with the worker where that leaves it; each snapshot it took from the queue is delivered and received, rejected or lost at stop, except perhaps the last, if the worker still holds it; every snapshot is in exactly one place or has its one fate |
| PushClient.Client.Send | go/internal/push/client.go:215-245 | a request that reaches the hub adds one receipt, also when only its reply is lost; what the worker goes on with by the reply |
| RawSamples.WrittenKeysUnique | go/internal/history/store.go:110-131 | after any writes there is one row for each agent and time |
| RawSamples.OrderIrrelevantIffConsistent | go/internal/history/store.go:110-131 | order and repeats of WriteSample do not matter if and only if no two samples with one key differ |
| EndToEnd.EndToEndIdempotence | go/internal/history/store.go:110-131 | applying the hub's receipts of any run in any order with any repeats leaves what writing each once in production order leaves, one row a key |
| Timestamps.TextOrder | go/internal/history/rollup.go:96-112 | text order of RFC 3339 times equals time order across different seconds; within one second the trimmed tails decide |
| Timestamps.FormatInjective | go/internal/history/store.go:110-131 | different moments have different texts, so the text can stand for the time as a key |
| TimestampTexts.DateHasNumber | go/internal/history/rollup.go:96-112 | the n-th date of the calendar is the one with n days before it, by the usual count of years, leap years and months |
| TimestampTexts.TextSays | go/internal/history/store.go:110-131 | a stored text read back, number by number, says the very moment it was made from |
| Timestamps.ExactBucket | go/internal/history/rollup.go:96-112 | the hour query selects a stored time exactly by the second and fraction rule, and each time is in exactly one hour |
| Timestamps.CountedInOwnHour | go/internal/history/rollup.go:96-112 | a stored time is counted in the hour it lies in if and only if it has no fraction in the hour's first second; otherwise in the hour before |
| Timestamps.HoursOfDay | go/internal/history/rollup_daily.go:97-113 | the day query selects exactly the day's 24 hours |
| Timestamps.CutoffSparesFrom | go/internal/history/store.go:331-341 | deleting before a cutoff spares every hour from an end on if and only if the cutoff is no later than it |
| Tiers.StretchAt | go/internal/history/rollup.go:50-55 | a complete run over a range of slots holds exactly the cells of those slots |
| Tiers.StretchSplits | go/internal/history/rollup.go:36-56 | rolling up in two stretches is rolling up in one |
| Tiers.HourRowTrue | go/internal/history/rollup.go:96-153 | an hourly row has the number of the agent's samples in the hour, the means of their load, used and total memory as sum over number, and their greatest load |
| Tiers.HourlyStart | go/internal/history/rollup.go:58-89 | a run starts at the mark, or without one at the first sample's hour, but no more than 24 hours back |
| Tiers.DailyStart | go/internal/history/rollup_daily.go:60-91 | a daily run starts at the mark, or without one at the first hour's day, but no more than seven days back |
| HistoryStore.Store.RunHourlyRollup | go/internal/history/rollup.go:36-56 | complete: every hour since the start with samples has a row true of them, all other rows are as they were, and the mark is the current hour; it completes if and only if all its database calls work, and otherwise has written part of the rows and left the mark |
| HistoryStore.Store.RunDailyRollup | go/internal/history/rollup_daily.go:35-58 | the same for the daily table |
| HistoryStore.Store.RunRetention | go/internal/history/store.go:331-341 | rolls up first; deletes only after a rollup that worked, and then exactly the samples more than retentionDays days older than its second clock reading, the texts deciding within that second |
| HistoryStore.Store.WriteSample | go/internal/history/store.go:110-131 | afterwards the row is the only one of its agent and time and all others are as they were; nothing in profile minimal or on failure |
| HistoryStore.HourlyCrashRecovery | go/internal/history/rollup.go:50-55 | a run stopped anywhere leaves the mark alone, and a later complete run to the same end gives the uninterrupted result |
| HistoryStore.DailyCrashRecovery | go/internal/history/rollup_daily.go:50-57 | the same for the daily run |
| HistoryStore.CrashThenLaterRun | go/internal/history/rollup.go:50-55 | with a saved mark even a run to a later end repairs an interrupted one |
| TierRuns.StepKeeps | go/internal/history/rollup.go:36-153 | what every write, run, interrupted run and retention keeps |
| TierRuns.IncrementalEqualsBatch | go/internal/history/rollup.go:36-153 | whatever the history, rolled-up hours say what one run over the samples written on time says and sample counts add up per agent; after a complete run the whole table equals it if and only if no row lies before the first start |
| TierRuns.HourlyRowsTrue | go/internal/history/rollup.go:96-153 | after any history each rolled-up hour has a row exactly if the agent has on-time samples in it, with their number, the sums of their load, used and total memory over it, and their greatest load |
| TierRuns.StepsAreTheMethods | go/internal/history/rollup.go:36-153 | the writes, hourly runs and retentions of a history change the tables as the methods do |
| TierRuns.DailyStepsAreTheMethods | go/internal/history/rollup_daily.go:35-58 | and so do the daily runs, complete or interrupted |
| TierRuns.NextRunRestores | go/internal/history/rollup.go:36-153 | however many runs were interrupted in a row after some run had completed, the next complete one restores the table of a single run |
| TierRuns.NothingLateNothingDeleted | go/internal/history/rollup.go:36-153 | without late samples and deletions the samples written on time are the raw table |
| TierRuns.SuccessfulRunsEqualOne | go/internal/history/rollup.go:36-153 | if no hourly run is interrupted, the whole table is that of one run from the first start to the last end; over the raw samples, if none came late or was deleted |
| TierRuns.RetentionIff | go/internal/history/store.go:331-341 | after any history a retention keeps a sample if and only if it is at most so many days older than the second clock reading, the texts deciding within that very second |
| TierRuns.RetentionSafety | go/internal/history/store.go:331-341 | a sample that retention deletes is counted in the hourly table, lay before the first start in time, has a fraction in the first start's own second, or came late |
| FirstRun.LeftOutIff | go/internal/history/rollup.go:57-89 | the first run leaves out a sample if and only if it lies before the 24 hours looked back, or has a fraction in the first second of the hour the run starts at |
| FirstRun.StartsBeforeAllIff | go/internal/history/rollup.go:57-89 | when all samples lie in the 24 hours, the first run starts before all of them if and only if none has such a fraction |
| FirstRun.FirstRunCounts | go/internal/history/rollup.go:36-112 | before any run has completed or left rows, the first run counts exactly the samples of completed hours in those 24 hours and without such a fraction |
| FirstRun.CountedIff | go/internal/history/rollup.go:36-153 | after any history in which no run was interrupted before the first completed one, an on-time sample of a rolled-up hour is counted if and only if it neither lies before the first start nor has a fraction in its first second |
| FirstRun.StartSecondIsLost | go/internal/history/rollup.go:57-112 | the sample that sets the first start, when it has a fraction in an hour's first second: written on time, never counted, at last deleted |
| TwoTier.WindowSize | go/internal/history/rollup.go:96-153 | a window of hours holds as many samples as an agent has in them |
| TwoTier.EqualHours | go/internal/history/rollup_daily.go:97-151 | hours that all count the same number of samples: sizes, and sums of averages, are in proportion to the samples |
| TwoTier.DayRowDescribes | go/internal/history/rollup_daily.go:97-151 | a daily row over hours of samples: number and greatest load of the samples; each average, of load, used and total memory, is the plain mean of the hourly ones, between the bounds of the samples, and their mean when all hours count the same |
| TwoTier.DailyMatchesRaw | go/internal/history/rollup_daily.go:97-151 | after any history a daily run over a day whose end the hourly mark has reached, the day of the first start included, gives count and greatest load of the day's rolled-up raw samples, and for load, used and total memory averages between their bounds that are plain means of the hourly ones, and their means when all hours count the same; no samples, no row; the count is too large exactly when a run interrupted before the first completed one left rows of the day |
| TwoTier.DaySamplesAre | go/internal/history/rollup_daily.go:97-151 | the day's samples are those written on time, of the agent, in the day's rolled-up hours |
| DailyRuns.RolledUpStays | go/internal/history/rollup_daily.go:35-58 | whatever comes later, rolled-up hours keep their samples and rows, and days before the daily mark keep their rows |
| DailyRuns.DailyRowsForGood | go/internal/history/rollup_daily.go:35-151 | a day rolled up when the hourly mark had reached its end: at any later time the row describes the day's samples, and there is none without samples; too large a count with strays |
| DailyRuns.DailyRowExactIff | go/internal/history/rollup_daily.go:35-151 | whenever the daily run came, if no interrupted run's rows were about: count and samples rolled up only after it make up the day's samples at any later time; the row describes them if and only if none was missed, and none is once the hourly mark had reached the day's end |
| DailyRuns.TooSoonOccurs | go/internal/history/rollup_daily.go:35-58 | a daily run just before the first hourly run: the day's sample is rolled up by the hour but has no daily row |
| DailyRuns.StraysOccur | go/internal/history/rollup_daily.go:35-151 | an interrupted first run and a next one more than a day after the sample leave a row below the first start, and the daily count is larger than the day's rolled-up samples |
| Silence.SilenceRefinesLog | go/internal/alert/silence.go:90-110 | after any run IsSilenced answers exactly as the plain log of silences does, saves and loads that fail included |
| Silence.StepsAreTheMethods | go/internal/alert/silence.go:30-132 | the operations of a run change entries and saved setting as the methods do |
| Silence.SilencedIff | go/internal/alert/silence.go:56-110 | unless a load failed or followed a failed save, an agent and rule are silenced at a moment if and only if a silence was asked for that covers them and lasts longer, for its duration or an hour |
| Silence.SilencedUntil | go/internal/alert/silence.go:56-110 | after Add every answer before the end asked for is yes, and with nothing else asked that covers the rule every answer from then on is no |
| Silence.EntriesAreUnions | go/internal/alert/silence.go:56-88 | one entry a key, each a gap-free union of the windows opened since its creation, ending with the last of them |
| Silence.ReloadChangesNothing | go/internal/alert/silence.go:30-40 | after a save that worked, loading changes no answer then or later |
| Silence.ListedAreOpen | go/internal/alert/silence.go:43-53 | List has exactly the keys with an open silence, each once |
| Silence.SilenceStore.Add | go/internal/alert/silence.go:56-88 | the entry returned ends when asked, after an hour without a positive duration, or when the live one of the pair did if that is later; the live entries of other pairs stay; the saved copy |
| Silence.SilenceStore.IsSilenced | go/internal/alert/silence.go:90-110 | true exactly when a live entry of the agent covers the rule; the list is pruned |
| Silence.SilenceStore.PruneLocked | go/internal/alert/silence.go:121-132 | keeps exactly the live entries, in order |
| Silence.PruneMeans | go/internal/alert/silence.go:121-132 | pruning keeps exactly the live entries, in order |
| AlertConfig.NormalizedInRange | go/internal/alert/config_store.go:129-157 | normalizing gives a configuration in range and leaves exactly those in range alone |
| AlertConfig.CooldownExact | go/internal/alert/config_store.go:86-94 | the cooldown is the configured minutes if and only if there are at most 153722867 of them |
| AlertConfig.ConfigStore.Update | go/internal/alert/config_store.go:68-74 | stores and returns the configuration with each number out of range replaced by its default and all others kept; the store stays in range |
| AlertConfig.CooldownDefault | go/internal/alert/config_store.go:86-94 | without a positive number of minutes the cooldown is ten minutes |
| AlertConfig.ConfigStore.CurrentCooldown | go/internal/alert/config_store.go:86-94 | at least a minute, exactly the minutes, up to the bound |
| AlertInvariant.KeySeparatesPairs | go/internal/alert/engine.go:154 | the joined key of agent and alert type tells pairs apart, whatever the agent is called |
| AlertInvariant.StepKeeps | go/internal/alert/engine.go:131-209 | what every step of concurrent senders and the worker keeps |
| AlertTheorems.AlertAccounting | go/internal/alert/engine.go:131-209 | queue at most 64, every alert in exactly one place or at one fate, dequeued events a subsequence of insertion order, pending the last hundred failures |
| AlertTheorems.DequeuedInOrder | go/internal/alert/engine.go:67-79 | the events the worker received are those inserted at the recorded increasing positions; what was sent and what failed are subsequences of them |
| AlertTheorems.FateHasCause | go/internal/alert/engine.go:131-209 | an alert's fate arises only from the event it names: a live silence, a cooldown, a success, a third failure, being the oldest of the queue when room is made, no room again |
| AlertTheorems.DropsOnlyWhenFull | go/internal/alert/engine.go:131-147 | room is made if and only if the queue holds 64 events |
| AlertTheorems.FatesAreFinal | go/internal/alert/engine.go:131-209 | an alert that has met its fate keeps it |
| AlertTheorems.GivingUpNeedsARival | go/internal/alert/engine.go:131-147 | a sender gives up only when another goroutine's event went into the room it had made |
| AlertTheorems.CooldownOverRuns | go/internal/alert/engine.go:149-199 | under any updates a success of a pair starts at least the cooldown then in force after every earlier success was recorded; at least a minute below the overflow bound |
| AlertTheorems.CooledDownExactly | go/internal/alert/engine.go:163-168 | an alert is cooled down exactly when a success of its own pair was recorded less than the cooldown ago |
| AlertTheorems.OverflowLosesCooldown | go/internal/alert/config_store.go:86-94 | with 153722868 minutes a pair can succeed twice at one moment |
| AlertTheorems.MinutesKeptIff | go/internal/alert/config_store.go:86-94 | without updates the configured minutes are kept between successes of a pair in every run if and only if there are at most 153722867 of them |
| AlertTheorems.UpdatesTakeEffect | go/internal/alert/config_store.go:68-94 | the minutes in force are always those of the last update, ten if not positive |
| AlertEngine.Engine.Enqueue | go/internal/alert/engine.go:131-147 | with others running in between, returns after at most two sends; queue within its size and the new event its newest, or given up |
| AlertEngine.Engine.SendAgainOnce | go/internal/alert/engine.go:142-146 | fails only if a rival's event took the room |
| AlertEngine.Engine.CheckDedup | go/internal/alert/engine.go:156-168 | cools down exactly within the cooldown of a success of the same pair; refines the machine's step |
| AlertEngine.Engine.Retry | go/internal/alert/engine.go:170-198 | at most three attempts; one record and one success, or one failure kept |
| AlertEngine.Engine.Deliver | go/internal/alert/engine.go:149-199 | silenced, cooled down, sent or failed; one record exactly if sent |
| AlertEngine.Engine.Run | go/internal/alert/engine.go:67-79 | the records made are those of the alerts sent meanwhile, one each, in order |
| AlertEngine.Engine.RecordPending | go/internal/alert/engine.go:201-209 | after any number of failed alerts the window has the last hundred of them |
| AlertNotify.Fanout | go/internal/alert/fanout.go:20-38 | fails if and only if there are channels and all fail, then with the last one's error |
| AlertNotify.Persister.Notify | go/internal/alert/persist.go:17-28 | one record for each success, none for a failure |
| Sequences.LastNIsTheEnd | go/internal/store/snapshot.go:30-66 | the newest n of a list are its end, n long or the whole list |
| SnapshotRing.SnapshotStore.Push | go/internal/store/snapshot.go:30-42 | after any number of pushes the store has the newest of all it was given |
| SnapshotRing.SnapshotStore.History | go/internal/store/snapshot.go:53-66 | the newest min(limit, capacity) of everything pushed, none for zero or less |
| AgentList.MergeShows | go/internal/hub/catalog_merge.go:10-38 | merging any listing of the registry with the catalog's rows shows every agent of either once, live data first, first-seen from the catalog |
| AgentList.MergeAgentSummaries | go/internal/hub/catalog_merge.go:10-38 | the loops: one row for each agent of the merged table |
| AgentList.SummariesFromCatalog | go/internal/hub/catalog_merge.go:41-58 | row by row, with the status computed |
| AgentCatalog.CatalogStore.UpsertAgent | go/internal/history/catalog.go:45-75 | the new table in full; an agent's first-seen time stays what it was first; nothing for an empty id or a failed write |
| AgentCatalog.CatalogStore.ListKnownAgents | go/internal/history/catalog.go:78-102 | every row once, none after a newer one, or an error |
| HubRuns.IngestShows | go/internal/hub/registry.go:39-58 | a snapshot taken in is the newest of its agent, whose live row then has its data; the other agents and the catalog stay |
| HubRuns.UpsertNotes | go/internal/history/catalog.go:45-75 | a catalog write notes the snapshot's data and time in the agent's row and keeps the first-seen time; all other rows stay |
| HubRuns.RestartShows | go/internal/hub/registry.go:71-86 | after a restart the registry has exactly the catalogued agents, with their rows' data and no snapshots, or no one if the catalog cannot be read |
| HubRuns.CataloguedForever | go/internal/history/catalog.go:45-75 | a catalogued agent never disappears and its first-seen time never changes |
| HubRuns.AgentListOverRuns | go/internal/hub/catalog_merge.go:10-38 | over ingests, catalog writes in any order or lost, backfills and restarts: one row an agent of catalog or registry, with the live data or else the catalog row's, first-seen that of the first row ever catalogued |
| HubRuns.HistoryOverRuns | go/internal/store/snapshot.go:53-66 | an agent's history is the last min(k, 120) snapshots since the last restart |
| Hub.Registry.Ingest | go/internal/hub/registry.go:39-58 | replaces the agent's summary, keeps its newest 120 snapshots, leaves the other agents alone |
| Hub.Registry.Hydrate | go/internal/hub/registry.go:71-86 | seeds each agent not yet there with its first row, leaves the others alone, and adds no one else |
| Hub.Registry.ListAgents | go/internal/hub/registry.go:60-68 | one row for each agent |
| Hub.Registry.History | go/internal/hub/registry.go:98-106 | the last min(k, 120) snapshots taken in, none for k of zero or less |
| Hub.ListAgentsWithStatus | go/internal/web/server_agents.go:23-53 | one row for each agent of catalog or registry in every branch; live agents alone without a readable catalog |
| Insights.DedupedMeans | go/internal/history/store.go:284-328 | for any rows: at most limit insights, 50 without a positive limit, one a key in first-seen order, each the newest of its key and of equally new ones the first; a key is missing only if the list is full and it was first seen later |
| Insights.KeepsAllIffDistinct | go/internal/history/store.go:302-316 | deduplication removes nothing if and only if the keys are distinct |
| Insights.ListInsights | go/internal/history/store.go:302-328 | fetches three times as many rows as it lists; the two loops give the deduplicated list |
| Diagnostics.IdIsAgentAndKey | go/internal/diagnostic/engine.go:44-50 | a written row's id is agent, bar and dedupe key, unless a container has no id |
| Diagnostics.SameKeyIffNamedLike | go/internal/history/insight.go:17-36 | two rows of an agent share a key if and only if a container without an id is named like another's id |
| Diagnostics.NothingToRemoveIff | go/internal/history/store.go:284-328 | on rows the rules wrote, deduplication removes nothing if and only if no such clash of names is among them |
| Insights.ListedIffDistinct | go/internal/history/store.go:284-328 | for rows whose times never increase, with more fetched than listed: the list is exactly the newest limit rows if and only if these have distinct keys |
| Diagnostics.ListIsNewestIff | go/internal/history/store.go:284-328 | the list is exactly the newest limit rows if and only if no names clash among these |
| Diagnostics.ClashLosesAFinding | go/internal/history/insight.go:24-29 | two different findings, one of a container without an id, listed as one |
| Diagnostics.ListIsNewestWithIds | go/internal/history/store.go:284-328 | with container ids that are never empty the list is exactly the newest limit rows |
| Diagnostics.AgentsShareIdsIff | go/internal/diagnostic/engine.go:44-50 | findings of two agents can share a row id if and only if one name is the other followed by a bar and a kind with a part, alone or with a further bar |
| Diagnostics.AgentsWithBarsCollide | go/internal/diagnostic/engine.go:44-50 | one such pair: a disk of one agent and a spike of an agent named after its disks share an id |
| Diagnostics.BarlessAgentsApart | go/internal/diagnostic/engine.go:44-50 | agents without bars in their names never share an id |
| Diagnostics.SavedSparesOthers | go/internal/history/store.go:268-282 | saving one agent's findings leaves another's rows alone unless their names read so |
| Diagnostics.SavedRemovesOther | go/internal/history/store.go:268-282 | and if they do, one agent's finding can remove the other's row |
| Diagnostics.FindingsIff | go/internal/diagnostic/engine.go:53-150 | a finding is made if and only if its cause is in the snapshot: a load that has doubled at least and reached the threshold, memory used above its percentage, a full disk, too many restarts, a failed probe; each with its id, kind, severity and details |
| Diagnostics.FindingsInOrder | go/internal/diagnostic/engine.go:53-150 | the findings come in the order of the rules |
| Diagnostics.SavedIs | go/internal/history/store.go:268-282 | after the saves an id has the row of the last save of it that worked, or else the row it had |
| Diagnostics.Engine.Evaluate | go/internal/diagnostic/engine.go:53-165 | the findings in order, each saved under its stable id if the save works; every row of the table stays well written |
| ServicePath.JoinedSplitsBack | go/web/frontend/src/lib/serviceProcessLink.ts:63-65 | a node's full path splits back into its names, piece by piece |
| ServicePath.DomainPathIs | go/web/frontend/src/lib/serviceProcessLink.ts:63-65 | dots and slashes separate, empty names do not count, a name without them stands for itself |
| ServicePath.StableSortMeans | go/web/frontend/src/components/ServiceSplitView.tsx:118-120 | the reference sort is sorted by path and keeps the order at each path |
| ServicePath.SortedUnique | go/web/frontend/src/components/ServiceSplitView.tsx:118-161 | being sorted by path and the services at each path leave no choice |
| ServiceTree.Tree.InsertService | go/web/frontend/src/components/ServiceSplitView.tsx:22-34 | after inserting, the tree has one node for each prefix of a path, with the services at that path in order |
| ServiceTree.Tree.InsertAll | go/web/frontend/src/components/ServiceSplitView.tsx:105-109 | inserting a list one by one gives the tree that holds it |
| ServiceTree.FullPathsDiffer | go/web/frontend/src/components/ServiceSplitView.tsx:25-31 | different nodes of a tree have different full paths, so opening one branch opens no other |
| ServiceRows.RowsAreStableSort | go/web/frontend/src/components/ServiceSplitView.tsx:118-161 | whichever branches are open, the service rows are the visible services, each once, stably sorted by path with prefixes first |
| ServiceRows.ShownAtFirst | go/web/frontend/src/components/ServiceSplitView.tsx:118-161 | as long as nothing was clicked, services show down to the second level, and on the third where nothing is below |
| ServiceRows.ClickOpens | go/web/frontend/src/components/ServiceSplitView.tsx:118-161 | a click on a branch decides about it and about no other branch |
| ServiceRows.ExpandedTreeIsStableSort | go/web/frontend/src/components/ServiceSplitView.tsx:118-161 | fully expanded, they are all services with a path |

## Left out

- HTTP handlers, tokens, webhook and Slack posting: their outcomes are inputs of the steps; a request the hub has begun to process is processed before the attempt ends, or not at all.
- SQLite, JSON and SQL text: tables are sequences or maps, encoding loses nothing, aggregates are folds over exact reals; floating-point rounding and not-a-number values are not modelled.
- Real scheduling, mutexes, contexts, sleeping and back-off times: steps interleave freely and waiting is a step that may come at any time.
- Times before the year 0 or after 9999: their texts have another length, and the text theorems ask for representable times.
- Integer widths other than the cooldown's: counts, ids and byte sizes are unbounded.
- A rollup run is one step with respect to WriteSample: a sample written while a run is under way is taken as written before or after it.
- EndToEnd.EndToEndIdempotence: every snapshot the hub has received is written; a write that the hub loses, because its error is ignored or the hub stops, is missing from the table.
- PushClient.Client.DrainSpoolUntilBlocked: a parameter bounds the rows seen, because the loop goes on as long as the hub accepts and the producer spills; every prefix of the loop is covered.
- PushClient.Client.FlushUntilSent: a parameter bounds the batches seen, because the loop goes on as long as the hub is unreachable; every prefix of the loop is covered.
- PushClient.Client.Run: parameters bound the turns seen, for the same reason.
- AlertEngine.Engine.Run: a parameter bounds the turns seen.
- Silence.SilenceStore.Add: reading the clock and taking the lock are one step.
- WriteSample's `ingested_at` column and the payload: neither is read by the aggregates.
- Process stops lose queued snapshots, as the code does; the fate is recorded, not prevented.
- A spool head that is refused with a 4xx stays and blocks the spool, as the code does; progress of the worker is not claimed.
- The store, when it is nil, and notifiers that are nil: the branches return at once.
- The service tree's nodes are found by their paths in one map instead of by references: sharing of nodes between parents, which the code never makes, cannot be expressed.
- The order of names is a parameter assumed to be a total order; locale comparison, where different names can compare equal, is not part of this model.
- Branch rows, labels and indentation of the rendered tree: only the service rows are compared with the sort.
- The order of the agent list: the code goes through a map, so the catalog's order by last-seen time is lost.
- Status labels, threshold comparisons other than as guards in Evaluate, acknowledgement and statistics: one-branch facts.
- Hub.Registry.Ingest: the listeners of a snapshot store are not called, because they belong to the event stream.
- AlertEngine.Engine.Deliver: cancellation of the worker's context and the five-second timeout of a notification are outcomes of the channels.
- HubRuns.CataloguedForever: a catalog write is one step, and deleting rows from the catalog, which the code never does, is not a step.
