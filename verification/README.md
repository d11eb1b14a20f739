# PILK: what holds over whole runs

PILK is a personal assistant daemon. Most of it is glue around a language model; this project
models the parts that carry state from one moment to the next, and proves what every run of them
keeps. Time is an integer count of microseconds, money an integer count of micro-dollars, a table is
a sequence of rows, a directory a map from paths to contents, and a hash is collision-free.
Concurrent code is a step system: a step is one stretch of code between two awaits, or one thing the
surroundings do, and every theorem about runs is about every sequence of steps. Objects that the code
updates in place are classes whose methods are proved equal to the step or function the theorems are
about.

| part | files |
|---|---|
| Telegram processor: coalesce, watch, interrupt, merge, redispatch | `Messages`, `Processor`, `BridgeObject` |
| Telegram sessions, session files, state file | `SessionTracker`, `Vault`, `SessionLog`, `BridgeState` |
| Timestamps compared as texts | `TextOrder`, `Clock` |
| Alert routing with interleaved calls | `AlertStore`, `AlertRouter`, `AlertRuns`, `AlertBurst` |
| Migration bundle | `Bundle`, `Importer`, `MigrationPaths` |
| Memory packing | `StableSort`, `MemoryBudget` |
| Fetched items: URLs, table, refresh, notes | `Dedup`, `ItemStore`, `FreshNames`, `BrainWriter`, `Pipeline`, `PipelineVault` |
| Polling and backoff | `Sources`, `Daemon` |
| File ingest | `Ingest`, `IngestRuns`, `IngestObject` |
| Prices, ledger, daily cap | `Pricing`, `Ledger`, `Budget` |
| Shared | `Wrappers`, `Text`, `Tally` |

## Where the code does not keep a promise

Each of these is proved here as a counterexample or as the exact condition under which it holds.

- A message can be answered twice: a dispatch that ends inside the follow-up window is redispatched
  with its batch (`Processor.ReplyIsFinalIff`, `Processor.AnsweredTwice`).
- Arrival order is lost when a message that the peek has taken goes behind a different one that waits
  (`Processor.StragglerKeepsOrderIff`, `Processor.StragglerOvertaken`).
- The comment that a failed read of a session file at worst duplicates its header is wrong: the file
  is overwritten (`SessionLog.OldContentSurvivesIff`). With an idle gap under a second, or a clock that is
  set back, ids repeat and an exchange is lost (`SessionLog.ShortGapLosesExchange`,
  `SessionLog.ClockBackLosesExchange`).
- The daily push cap and the 24-hour dedupe hold for serial calls; k overlapping calls reach cap + k - 1
  pushes and k repeats, for every cap (`AlertBurst.BurstReachesBounds`).
- The router's comment derives the dedupe key from kind and seed; the code hashes a given seed alone, so
  alerts of different kinds with one seed silence each other (`AlertRouter.SeedIgnoresKind`).
- "Swap the backup back in" after a failed backup can replace an intact file by a half-made copy
  (`Importer.FailedBackupRestoresIff`), and no backup holds a file that already carries a `.migrating`
  name, which the import destroys (`Importer.StaleTemporaryIff`).
- `canonical_url` is not idempotent everywhere, for example not on a path that ends in a blank
  (`Dedup.IdempotentIff`, `Dedup.UnsettledBlank`). Its comment says that trailing
  slashes of real paths are preserved; the code strips them (`Dedup.TrailingSlashesGoIff`).
- "Never overwrites" needs one free name among 100 for brain notes (`BrainWriter.NeverOverwritesIff`)
  and among 1000 for archived files (`Ingest.MoveKeepsOthersIff`).
- The documented 0-100 bound on the write threshold is only enforced per source (`PipelineVault.ThresholdBoundedIff`).
- A source polled less than every six hours is polled faster while it fails (`Daemon.BackoffMonotoneIff`).
- A crash or a cancelled request during an ingest leaves its row unfinished for good, and the same bytes are then skipped as
  a duplicate (`IngestRuns.CrashStrandsRows`, `IngestRuns.DuplicateTouchesNothing`).
- The daily budget is checked when a plan starts, not at each call, so one plan overspends by as many
  calls as it makes (`Budget.CallsAreNotRechecked`, `Budget.OverspendReached`).

## Model
| member | source | states |
|---|---|---|
| Messages.MergeExtends | core/io/telegram_bridge.py:1149-1155 | folding follow-ups into a batch keeps the old text in front of a blank line and the new texts, concatenates attachments, never drops the voice flag, and is blank only if both halves are |
| Messages.Merge | core/io/telegram_bridge.py:1149-1155 | the three comprehensions compute the merged text, attachments and voice flag |
| Messages.SingleMessage | core/io/telegram_bridge.py:1149-1151 | one message is dispatched with its own text, attachments and voice flag, nothing as nothing; with MergeExtends this fixes the merge of every batch |
| Messages.BlankIff | core/io/telegram_bridge.py:1149-1155 | a batch is dropped exactly when every message in it has neither text nor attachments |
| Processor.NothingLost | core/io/telegram_bridge.py:1076-1237 | in every run, arrived messages equal closed batches, open batch, drained, peeked and queued ones as multisets, and as sequences unless a straggler was re-queued behind others |
| Processor.StragglerKeepsOrderIff | core/io/telegram_bridge.py:1172-1195 | from a state in order, putting the straggler back keeps arrival order exactly when every waiting message equals it |
| Processor.StragglerOvertaken | core/io/telegram_bridge.py:1172-1195 | a run in which messages arrive as m, a, b and are accounted for as m, b, a |
| Processor.StepAccounts | core/io/telegram_bridge.py:1096-1237 | every step but an arrival and the straggler rule leaves the account of messages unchanged |
| Processor.OneDispatchAlive | core/io/telegram_bridge.py:1156-1231 | at most one dispatch task lives at any step, none between batches |
| Processor.DispatchesGrow | core/io/telegram_bridge.py:1148-1237 | the dispatches of one batch form a strictly growing prefix chain with merged text, attachments and voice growing accordingly |
| Processor.FinishedBatchesWereDispatched | core/io/telegram_bridge.py:1148-1237 | a closed batch was blank and never dispatched, or last dispatched whole |
| Processor.ClosingDispatchReplies | core/io/telegram_bridge.py:1172-1195 | a batch with content closes only when its last dispatch ended by itself with the follow-up flag down |
| Processor.ReplyIsFinalIff | core/io/telegram_bridge.py:1172-1237 | a dispatch that ends with the flag down closes its batch if and only if the processor has not yet taken up a peeked follow-up; otherwise the whole batch is dispatched again |
| Processor.AnsweredTwice | core/io/telegram_bridge.py:1196-1237 | a run in which one message is in two completed dispatches |
| Processor.FirstWindowIsOneDispatch | core/io/telegram_bridge.py:1096-1170 | a first message and all that follow in its window become one task with exactly these messages in order, or are dropped when blank |
| Processor.FollowUpsAreMerged | core/io/telegram_bridge.py:1196-1237 | follow-ups to a running dispatch are dispatched with the old batch in front of them, and the reply of the old one is swallowed exactly when a plan was running |
| BridgeObject.TelegramBridge.StartDispatch | core/io/telegram_bridge.py:1148-1170 | the head of the loop drops a blank batch or starts one dispatch and one peek |
| BridgeObject.TelegramBridge.TakeFirstMessage | core/io/telegram_bridge.py:1096-1101 | opens a batch with the oldest waiting message and keeps the invariants |
| BridgeObject.TelegramBridge.Coalesce | core/io/telegram_bridge.py:1124-1135 | moves one message from the queue to the batch and keeps the invariants |
| BridgeObject.TelegramBridge.Resume | core/io/telegram_bridge.py:1172-1204 | done: close the batch and re-queue the straggler; otherwise take the peeked message along |
| BridgeObject.TelegramBridge.Interrupt | core/io/telegram_bridge.py:1205-1217 | raises the follow-up flag exactly when some plan is running |
| BridgeObject.TelegramBridge.Redispatch | core/io/telegram_bridge.py:1218-1237 | the old task is gone, the batch is the old parts followed by the new ones, and it is launched again |
| SessionTracker.ChatSession.Tick | core/io/telegram_bridge.py:284-307 | opens a session exactly after a gap above the limit, and updates the tracker accordingly |
| SessionTracker.SaveLoadIsIdentity | core/io/telegram_bridge.py:309-339 | loading a saved tracker gives that tracker and no other |
| SessionTracker.IdOrder | core/io/telegram_bridge.py:284-307 | session ids compare as texts like the whole seconds they name |
| SessionTracker.TrackSplits | core/io/telegram_bridge.py:284-339 | online ticking agrees with splitting the whole time line at gaps above the limit |
| SessionTracker.SameSessionIff | core/io/telegram_bridge.py:284-307 | for gaps from 999999 microseconds, two messages share an id if and only if no gap lies between them, and a later session has a larger id |
| SessionTracker.ShortGapReusesIds | core/io/telegram_bridge.py:284-307 | below that limit two sessions can share an id |
| SessionTracker.IdShows | core/io/telegram_bridge.py:284-307 | the id is `tg-`, the date and the time of day to the second, digit by digit as in the stamp |
| Vault.Folder.Write | core/brain/vault.py:106-136 | all or nothing: appending needs the new text and the whole file to fit into 1,048,576 bytes and puts a blank line between, replacing needs the new text to fit; otherwise nothing changes |
| Vault.Utf8LenOfChar | core/brain/vault.py:106-113 | a character takes one to four bytes by its code point |
| Vault.Utf8LenAdds | core/brain/vault.py:106-113 | the bytes of two texts add up |
| SessionLog.AppendOrCreateNote | core/io/telegram_bridge.py:1513-1549 | a recognised file without a forced header is written exactly when block and whole text fit into 1,048,576 bytes, and is then the old text, a blank line and the block; in every other case it is written exactly when header and block fit, and is then those; a refusal changes nothing |
| SessionLog.OldContentSurvivesIff | core/io/telegram_bridge.py:1513-1549 | old content survives a write exactly when the file was recognised and the header not forced |
| SessionLog.SessionFilesComplete | core/io/telegram_bridge.py:1493-1549 | over every run with cancels, crashes and restarts, the clock not being set back, each session file is its header and then all its exchange blocks in order, joined by blank lines, and there are no other session files |
| SessionLog.EveryExchangeIsFiled | core/io/telegram_bridge.py:1453-1549 | under the same assumptions, when every session text fits into one write, each session file is its header and every exchange that was persisted for that session, in order: nothing is refused |
| SessionLog.NothingIsRefused | core/io/telegram_bridge.py:1513-1549 | in such a run the accepted exchanges are all persisted ones |
| SessionLog.PersistRecords | core/io/telegram_bridge.py:1453-1511 | each reply that goes out persists its exchange under the start of the session that its message opened or joined |
| SessionLog.RestartRejoins | core/io/telegram_bridge.py:309-339 | a restart at any moment of such a run loads the very tracker that was lost with the process and leaves the files alone |
| SessionLog.HeaderShows | core/io/telegram_bridge.py:1706-1719 | the banner shows the id, the date and the time of day to the minute |
| SessionLog.ShortGapLosesExchange | core/io/telegram_bridge.py:1493-1549 | with a shorter idle gap the second of two exchanges replaces the first |
| SessionLog.ClockBackLosesExchange | core/io/telegram_bridge.py:284-307 | whatever the gap, after the clock was set back a session can get the id of an earlier one and replace its file |
| BridgeState.Memory.RecordExchange | core/io/telegram_bridge.py:1356-1360 | adds the pair to the bounded deque and keeps it a window of whole exchanges |
| BridgeState.Memory.SaveState | core/io/telegram_bridge.py:1587-1613 | writes the offset and the history clamped turn by turn |
| BridgeState.Memory.LoadState | core/io/telegram_bridge.py:1553-1585 | restores the offset and the newest 24 of the file's well-formed turns, skipping the others |
| BridgeState.SavedItemsAreUsable | core/io/telegram_bridge.py:1553-1613 | a history that was saved is loaded turn for turn |
| BridgeState.RecordedKeepsExchanges | core/io/telegram_bridge.py:1356-1360 | eviction drops the oldest exchange as a pair, so the history stays even, at most 24 long and alternating |
| BridgeState.ClampIdempotent | core/io/telegram_bridge.py:1587-1613 | the 2000-character clamp is idempotent and changes nothing exactly when all turns are short enough |
| BridgeState.ClampIs | core/io/telegram_bridge.py:1587-1613 | the clamp keeps the role and the first 2000 characters, or all of a shorter turn |
| BridgeState.LoadedSnoc | core/io/telegram_bridge.py:1553-1585 | an item that is no turn is skipped, any other comes last, and exactly the newest 24 stay |
| BridgeState.HandledAtMostOnce | core/io/telegram_bridge.py:485-519 | over every run with crashes the handled update ids increase strictly |
| BridgeState.FetchedUpdatesAreHandled | core/io/telegram_bridge.py:485-519 | without a crash every update of an answer is handled, in order, and the saved offset is behind the last |
| BridgeState.CrashLosesTaken | core/io/telegram_bridge.py:485-519 | an update taken but not handled when the process dies is never handled afterwards; a restart starts from the saved offset and history with nothing fetched |
| BridgeState.SavedOffsetNeverDecreases | core/io/telegram_bridge.py:485-519 | the offset in the state file never moves back |
| BridgeState.SavedHistoryIsWhole | core/io/telegram_bridge.py:1553-1613 | every saved history alternates and is even; load after save is the clamp and a second round changes nothing |
| Clock.StampOrder | core/alerts/store.py:25-26 | UTC `isoformat` texts sort exactly like the instants, although the fraction is left out at microsecond 0 |
| Clock.StampReads | core/alerts/store.py:25-26 | each field stands in the stamp in decimal at its place, the fraction only when it is not 0 |
| Clock.KnownDates | core/alerts/store.py:25-26 | the calendar agrees with known day numbers around leap days and centuries |
| Clock.MidnightStamp | core/governor/budget.py:88-91 | the start-of-day text is the stamp of the start of the UTC day |
| Clock.SinceMidnight | core/governor/budget.py:59-67 | comparing texts with it selects exactly the rows of today and later |
| AlertStore.TextQueriesAreChronological | core/alerts/store.py:100-132 | both text queries select exactly the rows at or after the bound |
| AlertStore.Store.Insert | core/alerts/store.py:53-98 | appends the row it returns and changes no other |
| AlertStore.Store.AlreadySeen | core/alerts/store.py:100-117 | true exactly when the key was recorded in the last 24 hours |
| AlertStore.Store.CountPushesToday | core/alerts/store.py:119-132 | the number of today's Telegram rows when none is dated later |
| AlertRouter.PushedIff | core/alerts/router.py:87-162 | a push happens exactly when none of the nine objections holds, and the dashboard channel is never chosen |
| AlertRouter.SilentIff | core/alerts/router.py:87-162 | silence means a duplicate, a score below the floor or a muted topic |
| AlertRouter.ReasonIs | core/alerts/router.py:87-162 | for each reason the exact condition under which it is the one recorded |
| AlertRouter.QuietIsAnArc | core/alerts/router.py:217-238 | quiet hours are one arc of the clock face, wrapping or not |
| AlertRouter.DerivedKeysIff | core/alerts/router.py:200-206 | without key and seed, alerts are duplicates exactly when kind, topic, source and title agree, if the first three contain no bar |
| AlertRouter.SameKeyIff | core/alerts/router.py:87-206 | two given keys are one exactly when equal, two given seeds give one key exactly when equal, and no given key is a derived one |
| AlertRouter.SecondIsDuplicateIff | core/alerts/router.py:87-206 | of two alerts routed one after the other, the second is a duplicate of the first exactly when their keys are one and at most 24 hours lie between |
| AlertRouter.SeedIgnoresKind | core/alerts/router.py:200-206 | one seed makes alerts of any kinds duplicates |
| AlertRouter.Router.RouteAlert | core/alerts/router.py:87-199 | derives the key and appends exactly the decided row |
| AlertRouter.Router.Choose | core/alerts/router.py:87-162 | the checks in the source's order give the decision function |
| AlertRouter.Router.Route | core/alerts/router.py:87-199 | appends exactly the decided row |
| AlertRuns.DailyCap | core/alerts/router.py:146-157 | with k calls interleaved at their awaits, any of them failing anywhere, no UTC day gets more than cap + k - 1 Telegram rows, none for a cap of zero or less |
| AlertRuns.DedupeWindow | core/alerts/router.py:87-199 | with k calls in flight, any of them failing anywhere, one key leaves at most k non-silent rows in any 24 hours |
| AlertRuns.AloneIsRouted | core/alerts/router.py:87-199 | an uninterrupted call is one interleaving and appends what `Route` appends |
| AlertRuns.SerialBounds | core/alerts/router.py:87-199 | serial calls keep the cap itself and one non-silent row per key and 24 hours |
| AlertRuns.SerialGaps | core/alerts/router.py:87-199 | of two serial calls whose rows are non-silent and have one key, the later is more than 24 hours after the earlier |
| AlertRuns.FailedCallEnds | core/alerts/router.py:87-199 | a failing call ends at once, writes nothing and touches no other call |
| AlertBurst.BurstReachesBounds | core/alerts/router.py:146-157 | both bounds are reached for every cap from 1 and every k: cap - 1 serial pushes, then k overlapping calls for one more candidate |
| Bundle.ItemsSound | core/migration/exporter.py:92-128 | the archive list names existing files, each archive name once, with the database, all secrets and all client files not starting with an underscore |
| MigrationPaths.ArchiveListIs | core/migration/exporter.py:92-128 | an item is archived if and only if it is the database, the account index that exists, a listed secret, or a listed client file without leading underscore, each under its own archive name |
| MigrationPaths.ManifestCounts | core/migration/exporter.py:92-154 | the manifest has version 1 and counts the secrets and the client files that are in |
| Bundle.ExportVerifies | core/migration/exporter.py:92-156 | an exported bundle passes the importer's check |
| Bundle.Disk.BuildBundle | core/migration/exporter.py:51-156 | fails exactly without a database; otherwise only flushes it and returns the bundle of the home |
| Bundle.Pack | core/migration/exporter.py:124-154 | one manifest entry and one archive member per listed file, with its digest, size and bytes |
| Importer.VerifyBundle | core/migration/importer.py:228-250 | true exactly when every entry is present with its digest |
| Importer.BackUp | core/migration/importer.py:126-153 | copies the files about to be replaced, up to a failure |
| Importer.Apply | core/migration/importer.py:155-181 | writes entry by entry through a temporary file, up to a failure, and counts the files and bytes written so far |
| Importer.ApplyBundle | core/migration/importer.py:67-196 | check, back up, apply, upgrade: the outcome, the disk after it, and the reported files and bytes, which are none for a refusal |
| Importer.AppliedIs | core/migration/importer.py:161-175 | after the writes each target holds its member's bytes, no temporary file of them is left, nothing else changed |
| Importer.BackedUpIs | core/migration/importer.py:130-148 | the backup holds every target that existed, nothing outside it changed |
| Importer.ExporterSeparates | core/migration/importer.py:253-271 | for exporter-built bundles, targets, temporary files and backup copies of all entries are different paths |
| Importer.RefusedChangesNothing | core/migration/importer.py:103-124 | refused exactly for size, archive, manifest, version, presence or digest, and then nothing changes |
| Importer.RoundTrip | core/migration/importer.py:161-196 | export then import writes the source bytes at every mapped target (the database before its upgrade), leaves no temporary file and changes nothing else outside the backup |
| MigrationPaths.PathRoundTrip | core/migration/importer.py:161-196 | from path to path: after export and import every database, index, secret and client file is byte for byte at its place under the target home or client directory (client files only when there is one, the database upgraded), and no other path outside the backup has changed |
| MigrationPaths.TargetIs | core/migration/importer.py:253-271 | the place of each kind of file, and that a client file has none exactly without a client directory |
| MigrationPaths.BackupPathIs | core/migration/importer.py:126-148 | where the copy of a file goes: under its path inside the home, or under its bare name |
| MigrationPaths.RefusalIs | core/migration/importer.py:86-124 | for each refusal the exact condition under which it is the one reported |
| MigrationPaths.ReportCountsAll | core/migration/importer.py:155-181 | with a client directory every file of an exporter-built bundle is counted, with its size |
| Importer.FailedWriteStopsThere | core/migration/importer.py:176-181 | a write failing at entry i leaves exactly the entries before i new |
| Importer.BackupRestores | core/migration/importer.py:126-181 | after success or a failed write, copying the backup back restores every file that existed before |
| Importer.StaleTemporaryIff | core/migration/importer.py:161-181 | a file that carries a target's `.migrating` name before survives import and restore exactly when a write failed there, leaving nothing else, or earlier |
| Importer.FailedBackupTouchesNothing | core/migration/importer.py:130-151 | when the backup fails, the import says so and nothing outside its backup directory has changed but the flushed database |
| Importer.FailedBackupRestoresIff | core/migration/importer.py:130-151 | copying such a backup back leaves every earlier file as it was, except exactly the target whose copy was cut short, if the part differs from it |
| MemoryBudget.Select | core/memory/hydration.py:402-425 | the always-include list and the greedy loop |
| MemoryBudget.ApplyBudget | core/memory/hydration.py:394-436 | selection, re-sorting by position, dropping empty blocks, wrapping |
| MemoryBudget.GreedyIsMaximal | core/memory/hydration.py:402-425 | nothing dropped would fit into what is left |
| MemoryBudget.KeptIff | core/memory/hydration.py:402-425 | a section is kept if and only if it fits beside the critical ones and the kept ones of higher, or equal and earlier, priority |
| MemoryBudget.LayoutListsIncluded | core/memory/hydration.py:426-433 | the layout lists the critical and the kept sections, each once, and no others |
| MemoryBudget.LayoutAscendsIff | core/memory/hydration.py:426-433 | it is in the original order exactly when the first sections equal to the listed ones are |
| MemoryBudget.LayoutKeepsOrder | core/memory/hydration.py:426-433 | so it is with pairwise different sections |
| MemoryBudget.EqualSectionsBreakOrder | core/memory/hydration.py:426-433 | a remark on the helper: equal sections, which hydration never passes, would be moved together |
| MemoryBudget.LengthBound | core/memory/hydration.py:394-436 | at most max(budget, critical cost) + 34 characters |
| MemoryBudget.CriticalAlwaysThere | core/memory/hydration.py:394-436 | every non-empty critical section is in the block word for word |
| MemoryBudget.RenderIs | core/memory/hydration.py:265-271 | a section with lines is its header and then each line in order, each behind one newline, and such a text is read back as them; its cost is that length and two |
| MemoryBudget.BlocksAre | core/memory/hydration.py:434-435 | the joined blocks are the header and lines of each listed section that has lines, in list order |
| MemoryBudget.BudgetedIs | core/memory/hydration.py:434-438 | the block is the opening mark, the blocks of the layout a blank line apart, and the closing mark, or nothing |
| MemoryBudget.ChosenSectionsThere | core/memory/hydration.py:394-436 | every chosen section with lines is in the block: its header, then all its lines in order |
| MemoryBudget.CharBudgetIs | core/memory/hydration.py:394-405 | four characters a token, none for a negative cap |
| MemoryBudget.HydrateSectionsDiffer | core/memory/hydration.py:274-384 | the sections hydrate builds are pairwise different |
| MemoryBudget.RenderSectionsIs | core/memory/hydration.py:274-384 | a section is built if and only if it is one of the eight categories, with its header, priority and criticality, and has lines |
| MemoryBudget.ReadingOrder | core/memory/hydration.py:274-384 | the sections come in the order persona, standing, daily, facts, patterns, preferences, brain notes, past context |
| MemoryBudget.HydratedBlock | core/memory/hydration.py:274-436 | so order, length bound and critical sections hold for whatever is remembered |
| Dedup.SameCanonicalIff | core/intelligence/dedup.py:46-89 | two URLs have one canonical form exactly when scheme, host up to default port, normalised path and the multiset of kept query pairs agree |
| Dedup.CanonicalIs | core/intelligence/dedup.py:46-89 | refused exactly without http or https or a host; otherwise scheme and host in small letters without the default port, the path stripped of end slashes, and exactly the kept pairs, sorted |
| Dedup.KeepsIff | core/intelligence/dedup.py:16-43 | a query pair is kept exactly when it has a value and its key is none of the 24 tracking names in any case |
| Dedup.LowerIs | core/intelligence/dedup.py:57-66 | only A to Z change, each to its small letter |
| Dedup.StripPortIs | core/intelligence/dedup.py:67-75 | only the port of the scheme goes, once, from the end |
| Dedup.RStripIs | core/intelligence/dedup.py:76-80 | all slashes at the end go and nothing else |
| Dedup.CanonicalInvariant | core/intelligence/dedup.py:46-89 | permuting the query, tracking or blank pairs, fragment, parameters and letter case do not matter |
| Dedup.IdempotentIff | core/intelligence/dedup.py:46-89 | canonicalising twice, with the strip in front of the second round, is canonicalising once if and only if a host is left, its port is not repeated, the path is neither two or more bare slashes nor hides parameters behind a trailing slash, and a query pair is kept or the path does not end in a blank |
| Dedup.TrailingSlashesGoIff | core/intelligence/dedup.py:76-80 | a path is left alone exactly when it is the root or does not end in a slash |
| Dedup.UnsettledSlashes | core/intelligence/dedup.py:76-81 | "//" becomes empty and then "/" |
| Dedup.UnsettledPort | core/intelligence/dedup.py:65-75 | for every host, a repeated default port is stripped once per round |
| Dedup.VanishingHost | core/intelligence/dedup.py:65-75 | a host that is only a default port is gone after one round and the result is refused |
| Dedup.UnsettledBlank | core/intelligence/dedup.py:57-80 | a blank at the end of the path, left over when the fragment goes, is lost in the second round |
| Dedup.BlanksAre | core/intelligence/dedup.py:57-57 | the blanks are the whitespace characters of Unicode and the separators 28 to 31 |
| Dedup.UnsettledParameters | core/intelligence/dedup.py:76-81 | a trailing slash can hide parameters from the first round |
| Dedup.SameHashIff | core/intelligence/dedup.py:92-107 | for newline-free URLs two items have one hash if and only if the URLs, the titles up to blanks and case, and the first 2000 characters of the bodies agree |
| Dedup.WordsSplit | core/intelligence/dedup.py:92-107 | a blank between two texts separates their words, as `split` does |
| Dedup.WordIs | core/intelligence/dedup.py:92-107 | a text without blanks is one word |
| Dedup.PrefixIs | core/intelligence/dedup.py:105-105 | of the body the first 2000 characters count, or all of a shorter one |
| Dedup.NewlineUrlsCollide | core/intelligence/dedup.py:92-107 | with a newline two URLs can share a hash |
| ItemStore.FindByHash | core/intelligence/items.py:240-247 | finds a row with the hash, or there is none |
| ItemStore.FindByUrl | core/intelligence/items.py:249-256 | finds a row with the URL, or there is none |
| ItemStore.Store.UpsertFetched | core/intelligence/items.py:260-326 | returns the matching row unchanged or appends the new one |
| ItemStore.NewRowIs | core/intelligence/items.py:288-326 | a new row has the URL, the hash over URL, title and body, the stored title, status new, and neither score nor note |
| ItemStore.TrimIs | core/intelligence/items.py:288-326 | exactly the blanks at both ends of a title go |
| ItemStore.StoredTitleIs | core/intelligence/items.py:288-326 | of the stripped title the first 500 characters are stored |
| ItemStore.UpsertKeepsUnique | core/intelligence/items.py:278-326 | serial upserts never give two rows one hash or one URL |
| ItemStore.HashLookupSubsumed | core/intelligence/items.py:283-287 | the hash lookup finds only what the URL lookup finds |
| ItemStore.UpsertRefinesMap | core/intelligence/items.py:278-326 | the table is a map keyed by canonical URL with insert-if-absent |
| ItemStore.DuplicateChangesNothing | core/intelligence/items.py:283-287 | republishing an item changes no row |
| ItemStore.NewlineUrlHidesItem | core/intelligence/items.py:278-287 | a newline in a fallback URL can hide another item |
| FreshNames.NumberedInjective | core/ingest/pipeline.py:228-235 | different counters give different names |
| FreshNames.NumberedIs | core/ingest/pipeline.py:228-235 | the bare name, then the name with a dash and the counter |
| FreshNames.DecReads | core/ingest/pipeline.py:228-235 | the counter is written in decimal |
| FreshNames.TakenNames | core/ingest/pipeline.py:228-235 | a run of k taken counters needs k existing files, so the search ends |
| BrainWriter.NextAvailablePath | core/intelligence/brain_writer.py:321-336 | the loop over the bare name, -2 to -99 and the timed name |
| BrainWriter.NextAvailableIs | core/intelligence/brain_writer.py:321-336 | the bare name when it is free, else the first free one from -2 to -99, else the timed one |
| BrainWriter.NeverOverwritesIff | core/intelligence/brain_writer.py:321-336 | the chosen path is free exactly when one of the 99 numbered names or the timed one is |
| BrainWriter.SameSecondOverwrites | core/intelligence/brain_writer.py:333-336 | over 99 taken names, a second note in the same second replaces the first |
| BrainWriter.FewNotesNeverClash | core/intelligence/brain_writer.py:321-336 | with fewer than 100 files nothing is overwritten |
| Pipeline.CountsAddUp | core/intelligence/pipeline.py:139-186 | seen = new + duplicates + failed upserts, and exactly the new ones became rows |
| Pipeline.ItemStores | core/intelligence/pipeline.py:147-206 | what a new item leaves when nothing fails: its scored row, and from the threshold up in a live run a note with its id, hash, score and body |
| Pipeline.ItemFails | core/intelligence/pipeline.py:147-206 | what it leaves when something fails: without a stored score the run ends, without a note the row has no path, and a note whose path was not recorded is not counted |
| Pipeline.DryRunPredictsRealRun | core/intelligence/pipeline.py:95-241 | dry and real run agree on all counts and on rows but `brain_path`; the dry run leaves the vault alone and its would-write count is the written count when writes succeed |
| Pipeline.RunCovers | core/intelligence/pipeline.py:147-206 | after a run that was not cut short every item whose upsert worked is in the table, and old rows are untouched |
| Pipeline.SecondRunFindsOnlyDuplicates | core/intelligence/pipeline.py:147-206 | refreshing again with the same items changes no row and no note |
| Pipeline.RunKeepsUnique | core/intelligence/pipeline.py:147-206 | in every run, dry or real, no two rows share a hash or a URL |
| Pipeline.RunKeepsHashed | core/intelligence/pipeline.py:147-206 | with newline-free URLs every row's hash stays taken over its own URL |
| Pipeline.DuplicatesAreByUrl | core/intelligence/items.py:283-287 | so after any run what counts as a duplicate is decided by the URL alone |
| PipelineVault.RunKeepsNotes | core/intelligence/brain_writer.py:98-168 | while names are left a run changes no existing note and adds one file per counted note |
| PipelineVault.NotesMatchThreshold | core/intelligence/pipeline.py:171-206 | a new item has a note if and only if it reaches the threshold, and that note carries its id and hash |
| PipelineVault.ThresholdBoundedIff | core/intelligence/pipeline.py:261-298 | the applied threshold is at most 100 exactly when the global one is or the source overrides it |
| PipelineVault.ThresholdIs | core/intelligence/pipeline.py:261-298 | a per-source value from 0 to 100 is the one applied; any other leaves the global one, counted from 0 |
| PipelineVault.IntelligencePipeline.HandleItem | core/intelligence/pipeline.py:147-206 | one item: upsert, score, write, record |
| PipelineVault.IntelligencePipeline.RunSource | core/intelligence/pipeline.py:95-255 | rows, notes, counters and the source's bookkeeping after a run, for every way the fetch and the items can end |
| Sources.SourceRow.RecordFetchOutcome | core/intelligence/sources.py:235-266 | reset wins over increment; neither leaves the counter alone; the check time always moves |
| Sources.EditedIs | core/intelligence/sources.py:168-222 | intervals from 60 seconds to seven days are taken, any other refuses the whole edit |
| Daemon.IntervalFloor | core/intelligence/daemon.py:179-187 | the effective interval is at least min(poll, 21600) seconds |
| Daemon.BackoffDoubles | core/intelligence/daemon.py:179-187 | from the threshold on each failure doubles the interval up to six hours |
| Daemon.IsDueIff | core/intelligence/daemon.py:166-191 | a source is due exactly when it is not manual, not muted, and never checked or last checked at least its effective interval ago |
| Daemon.QueuedIff | core/intelligence/daemon.py:130-164 | a tick polls a source exactly when it is enabled and due; a muted, manual, disabled or too recent one is not polled |
| Daemon.DueAfterCeiling | core/intelligence/daemon.py:166-191 | an unmuted source is due at the latest after the longer of six hours and its own interval |
| Daemon.PollsOnSchedule | core/intelligence/daemon.py:107-191 | a due source is polled, and after any outcome polled again exactly when the interval for its new failure count has passed |
| Daemon.BackoffMonotoneIff | core/intelligence/daemon.py:179-187 | more failures never shorten the interval if and only if poll is at most 21600 |
| Daemon.FailuresAreStreak | core/intelligence/sources.py:256-259 | over every run `consecutive_failures` is the number of errors since the last success, refusals not counted |
| Daemon.PollRate | core/intelligence/daemon.py:107-191 | any window of that many microseconds holds at most its length div gap + 1 daemon polls of a source whose interval never was below gap, for gap up to the cap |
| Daemon.LostOutcomePollsAgain | core/intelligence/daemon.py:143-164 | for any due source, a poll whose bookkeeping is lost is repeated at the next tick |
| Ingest.FirstFree | core/ingest/pipeline.py:228-235 | the search ends, at the first free name |
| Ingest.MoveKeepsOthersIff | core/ingest/pipeline.py:200-213 | a move leaves all other files alone exactly when one of the 1000 names is free or it overwrites its own copy |
| Ingest.MoveFresh | core/ingest/pipeline.py:200-213 | with fewer than 1000 files the target is free |
| Ingest.MoveTargetIs | core/ingest/pipeline.py:200-213 | the bare name when it is free or all 1000 are taken, else the first free numbered one |
| Ingest.NextRows | core/ingest/pipeline.py:113-196 | every step keeps one row per hash, and a note carrying that hash on every `indexing` and `done` row and on none before, whether or not a raising update was committed |
| Ingest.NextGrows | core/ingest/registry.py:115-166 | a step touches only its own call's row, moves its status forward, and changes no vault file |
| Ingest.RunKeeps | core/ingest/pipeline.py:86-196 | so does every interleaving with failures and crashes |
| IngestRuns.RunGrows | core/ingest/pipeline.py:86-196 | rows keep hash, place and note, statuses only move forward, vault files never change or vanish |
| IngestRuns.DoneRowsNameTheirNotes | core/ingest/pipeline.py:123-262 | in every run each hash has one row, each done row its own note carrying the hash, and nothing older changed |
| IngestRuns.UnownedRowsAreFinal | core/ingest/pipeline.py:103-122 | a row whose call has returned, raised or been cancelled never changes again |
| IngestRuns.CrashStrandsRows | core/ingest/pipeline.py:103-122 | a crash freezes every unfinished row |
| IngestRuns.DuplicateTouchesNothing | core/ingest/registry.py:63-87 | bytes with a row are skipped without any change |
| IngestRuns.NoFileIsLost | core/ingest/pipeline.py:200-213 | with fewer than 1000 files every content present at any moment, from the start or dropped in later, survives archiving under some name |
| IngestRuns.DropsAdd | core/ingest/pipeline.py:200-213 | the count of files dropped in is one for each and adds up over runs |
| IngestObject.IngestPipeline.ComposeNote | core/ingest/pipeline.py:215-262 | ends, and adds one note under the first free name |
| IngestObject.IngestPipeline.Move | core/ingest/pipeline.py:200-213 | moves to the first free of the 1000 names, else over the bare one |
| IngestObject.IngestPipeline.Fail | core/ingest/pipeline.py:126-174 | the exception handlers mark the row and move the file |
| IngestObject.IngestPipeline.Finish | core/ingest/pipeline.py:181-196 | archive, record, done; a failed move is swallowed |
| IngestObject.IngestPipeline.IngestPath | core/ingest/pipeline.py:86-196 | takes exactly the steps of the step system run alone, and changes nothing for a duplicate |
| IngestObject.AloneIsRun | core/ingest/pipeline.py:86-196 | a call run alone is one run of the step system |
| IngestObject.CleanIngest | core/ingest/pipeline.py:86-196 | a new file whose steps succeed ends as one done row, one new note with its text, and its bytes under the archive name |
| IngestObject.DropIsIngested | core/ingest/pipeline.py:86-262 | the run from dropping a file with new bytes to its end: a done row with the hash of these bytes, a note with its text, the bytes archived |
| IngestObject.CancelledCallsEnd | core/ingest/pipeline.py:103-122 | a cancelled call or a crash ends calls where they are and touches no row, note or file |
| IngestObject.UnmarkedFailure | core/ingest/pipeline.py:126-149 | when marking a row as failed raises too, it says failed only if the update was committed, and the file stays |
| IngestObject.FailedIngest | core/ingest/pipeline.py:126-174 | an unreadable file ends as a failed row and moves to the failed directory, after an unexpected error it stays; a failed note write ends the row as failed too; no note |
| IngestObject.LateFailure | core/ingest/pipeline.py:150-174 | when recording a written note raises, the row fails, naming the note if the update was committed, the note stays and the file moves |
| IngestObject.UnarchivedIngest | core/ingest/pipeline.py:181-196 | a failed archive move is swallowed: the row is done and the file stays |
| Pricing.RoundIsNearestIff | core/ledger/pricing.py:84-84 | rounding gives the nearest micro-dollar, the even one of two |
| Pricing.ListPrice | core/ledger/pricing.py:12-84 | a million tokens of each kind cost the list price, 100, 125 or 10 percent of it; unlisted models cost nothing |
| Pricing.PriceGrows | core/ledger/pricing.py:59-84 | more tokens of any kind never cost less |
| Pricing.CacheTiers | core/ledger/pricing.py:12-13 | cache reads never cost more than plain input, cache writes never less |
| Pricing.RoundingDrift | core/ledger/pricing.py:59-84 | n separately rounded calls are within n/2 micro-dollars of the exact price of all of them |
| Ledger.PlanTotalIsSumOfCalls | core/ledger/ledger.py:83-110 | in every run each plan's `actual_usd` is the sum of its llm rows |
| Ledger.PlanTotalIsSumOfEntriesIff | core/ledger/ledger.py:152-193 | it is the sum of all its rows exactly when its embedding rows cost nothing |
| Ledger.CallIsBooked | core/ledger/ledger.py:45-110 | in every run, one more call adds its row at the list price and charges exactly its own plan that price |
| Ledger.OthersAreBooked | core/ledger/ledger.py:152-193 | an embedding call adds its row and charges nobody; a new plan starts at zero |
| Ledger.Journal.RecordLlm | core/ledger/ledger.py:45-110 | appends the priced row and charges the plan if there is one |
| Ledger.Journal.RecordEmbedding | core/ledger/ledger.py:152-193 | appends the row and charges no plan |
| Budget.TodayIsToday | core/governor/budget.py:59-67 | the text query sums exactly today's rows |
| Budget.DailyBudget.Check | core/governor/budget.py:80-85 | passes exactly when the cap is zero or less or today's spend is below it |
| Budget.Overspend | core/governor/budget.py:80-85 | with k plans past the check, waiting or running, that spend at most M each, a day's spend stays below cap + k*M plus what was spent without a check |
| Budget.OverspendReached | core/governor/budget.py:80-85 | for every cap, k and M a run spends cap - 1 + k*M that way |
| Budget.CallsAreNotRechecked | core/orchestrator/orchestrator.py:1476-1494 | one plan under any cap can record n calls |

## Left out

- Telegram, Meta, Google, Notion and other HTTP clients; the assumed contract of `getUpdates` is that ids ascend and start at the offset.
- The language model, the orchestrator, tools, voice and document extraction: they appear as steps that may end any way, or as arbitrary results.
- SQL, zip, SHA-256, JSON, `isoformat` parsing and URL splitting as libraries: sequences and maps, a collision-free digest, parsed values, pre-split URLs. Upper and lower case is ASCII only.
- Pricing.RoundIsNearestIff: rounds the exact cost; the binary floating-point sum that the code rounds can fall on the other side of a tie.
- Floating point: money is integer micro-dollars, so binary rounding before the final `round` is not modelled; embedding costs arrive as whole micro-dollars.
- Process shutdown (`stop`), log lines, and the hour-and-day chat logs beside the session files.
- The processor's queue across a crash: waiting messages are lost with the process, as in the code; the offset was saved before, so they are not fetched again.
- Handover inside `asyncio.wait_for(queue.get())`: taken as lossless at the timeout.
- `strftime("%Y")` for years below 1000: taken as four digits.
- BridgeState.Memory.LoadState: the session object of the file is read by the tracker, see SessionTracker.SaveLoadIsIdentity; unreadable instants in it are not modelled.
- BridgeState.Memory.SaveState: writing the state file is taken to succeed and to be atomic.
- SessionLog.SessionFilesComplete: assumes no read error other than "not found", an idle gap of at least 999999 microseconds and a clock that is not set back; without any of them the counterexamples above apply. An oversized write is refused and its exchange is not in the file; SessionLog.EveryExchangeIsFiled says when none is.
- Vault.Folder.Write: paths arrive resolved, so the refusals of `resolve` are not modelled; nor are disk-full errors and cancellation of the thread that writes.
- Importer.FailedBackupRestoresIff: the backup directory is taken to be new, its name being the time to the second.
- Importer.RoundTrip: stale `-wal` files beside a replaced database, and directories that cannot be created, are not modelled; the target home is not itself named like a client file.
- `ensure_schema` and the WAL checkpoint: arbitrary functions on the database bytes.
- AlertRouter.Router.Route: the candidate brings its key (`RouteAlert` derives it), and the settings are those read when the call begins.
- AlertRouter.DerivedKeysIff: SHA-1 cut to 24 digits is taken as collision-free and different from every given key.
- Sending an alert to Telegram: only the recorded row is modelled.
- ItemStore.UpsertKeepsUnique: concurrent upserts can both miss each other's row, because neither column is unique in the database.
- Dedup.IdempotentIff: an empty host in front of a path of two slashes is taken to be written with all four slashes, as current versions of `urlunsplit` do.
- PipelineVault.IntelligencePipeline.HandleItem: an upsert that raises has inserted nothing; score and path updates that raise may have been committed.
- Pipeline.DryRunPredictsRealRun: the keyword score is an arbitrary function of the item, the same in both runs; a failing note write leaves no file.
- BrainWriter.NextAvailablePath: slugs, day folders and the rendered note text arrive as values.
- PipelineVault.IntelligencePipeline.RunSource: the `intel_fetch_runs` audit row repeats the returned counters and is left out.
- Daemon.PollRate: the clock does not go back, and outcomes are recorded; `Daemon.LostOutcomePollsAgain` shows what happens otherwise.
- Slug, kind, label and URL validation of sources, account and grant CRUD, regex classifiers: only easy members.
- Ingest.NextRows: an update that raises may or may not have been committed; row ids are fresh, the note write is all or nothing, and nobody else deletes vault files.
- IngestObject.IngestPipeline.ComposeNote: the note's frontmatter is reduced to its hash and text; re-indexing is left out.
- Budget.Overspend: M bounds what one plan records after its check; the per-agent rolling budget is the same shape and is left out.
- Coding engines, print design, web front end, settings and wiring.
