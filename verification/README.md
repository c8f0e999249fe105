# ZSEC Shield: a verified model of its core

ZSEC Shield watches directories in the foreground, turns filesystem events into bounded content
scans, and must never claim coverage that it lost. This project models the parts of it that carry
that promise as Dafny state machines, loops and classes, and proves what they keep over every run.

| file | component |
|---|---|
| `DebounceQueue.dfy` | the bounded, debounced event queue shared by observer, ingest thread and scanning loop |
| `WatchHealth.dfy` | health flags, generation counter, cache eviction, emitted records, evidence sink |
| `WatchSession.dfy` | a whole session: queue, reconciliation passes with nested event scans, ordered shutdown |
| `SessionHistory.dfy` | what the flag and the sink say about a whole run, told from its steps |
| `SessionGaps.dfy` | which gaps of a whole session the summary shows, which an interrupt hides, what recovery takes |
| `WatchCoverage.dfy` | what a cached pass covers, compared with a full one |
| `Watcher.dfy` | the watcher, one reconciliation pass and the sink as the objects the code mutates |
| `Streaming.dfy` | literal matching over chunks with an overlap window |
| `WorkerProtocol.dfy` | broker and content worker as two parties over ordered channels |
| `DirectoryWalk.dfy`, `WalkReports.dfy` | the explicit-stack walk; which files it reports, told from the file system alone |
| `WatchRoots.dfy` | watch roots without nesting, and why their walk reports no path twice |
| `Quarantine.dfy` | encrypted quarantine and restore under crashes and outside interference |
| `Installers.dfy` | rule feed and intelligence installation with a commit marker, a lock and crashes |
| `Catalog.dfy`, `CatalogInstall.dfy` | merging and regrouping advisory catalogs; rollback acceptance and torn installs |
| `Framing.dfy`, `RotatingLog.dfy` | newline framing of the event stream; the rotating event log |
| `Orders.dfy`, `Paths.dfy` | total orders and sorting; paths as component sequences |

## How it is modelled

- Every critical section of the event queue is one lock hold, so a run of its threads is any sequence
  of the four queue steps. A session is any sequence of atomic actions of its threads; guards admit
  at least the orders in which the code can take these actions, including an observer and an ingest
  thread that outlive their bounded joins and an interrupt that cuts off a walk or the scan of a path,
  and the results hold for all of them.
- Classes mutate the fields the code mutates; each method is proved equal to a step function, and the
  results over all runs are lemmas about those functions. `History`, `gaps`, `evidence`, `visited`,
  `skipped`, `committed`, `pieces` and `trace` are history kept only to state properties.
- Results do not speak through the tests that the steps themselves make. What counts as a gap, when two
  files differ, which answer can be believed, which copy may be published or which document is accepted
  is said by predicates of their own (`IsGap`, `Differs`, `Believable`, `Publishable`, `Agrees`), which no
  step uses, or field by field.
- The event queue holds at least one event; the configuration demands at least 16
  (src/zsec_shield/watcher.py:99-100).
- Paths are sequences of components, already normalised; times are reals of a monotone clock; sort
  orders are arbitrary total orders (shorter text first for watch roots). Digests, MACs and encryption
  are arbitrary functions. Only the quarantine assumes more, that decryption undoes encryption.
- Other processes, I/O failures, answers of the content worker and crash points are parameters, and
  the results hold for all their values.

## What the proofs found

- Blank lines skip the per-line length check of the event stream, so an over-long blank line may or
  may not fail depending on how the pipe cuts the stream. `Framing.ChunkingIsInvisible` gives the
  exact condition under which chunking does not matter.
- A catalog install has two crash points after which no changed catalog is ever installed again:
  between the two writes of the rollback backup (`CatalogInstall.HalfBackupBlocksUpdates`) and between
  the catalog and the rollback state (`CatalogInstall.TornInstallStaysTorn`). After a crash anywhere
  else the next acceptable install succeeds (`CatalogInstall.NextInstallSucceedsExactly`, and over
  whole series `CatalogInstall.BlockedFromEmpty`). A rule feed is repaired by installing it again
  (`Installers.ReinstallRepairs`).
- The intelligence installer documents that it retains the prior envelope. After a crash that left an
  uncommitted envelope in place it retains that one instead and the committed one is gone
  (`Installers.UncommittedEnvelopeIsKept`); `Installers.BackupIsThePriorEnvelope` gives the exact
  condition on what was written since the last commit.
- An inspection beside a running installer never shows rules of an uncommitted document, but may call
  a feed invalid that is valid before and after (`Installers.InspectionMayMissACommit`).
  `Installers.InspectionIsExact` says exactly what it reports, and
  `Installers.CommittedFeedIsReported` when it reports a committed feed: always if no installer writes
  between its two reads and nothing uncommitted is in place.
- An interrupt can hide a gap: a file that could not be read during a pass is in no summary if the
  pass is then interrupted (`SessionGaps.InterruptHidesGap`). The summary of a finished session shows
  a gap exactly when one was met that no interrupt cut off (`SessionGaps.SummaryNamesEveryGap`), and
  without an interrupt every one (`SessionGaps.UninterruptedSummaryIsExact`).
- Quarantine looks at the source and then removes it, in two actions. A file that replaces the source
  in between is removed although it is stored nowhere (`Quarantine.ReplacedSourceIsLost`); what is
  removed is stored exactly when it has the content that was read
  (`Quarantine.RemovedIsStoredExactly`). The scanned content is recoverable in any case.
- The check of a catalog before the lock is taken refuses a sound pair exactly when its looks straddle
  the last two writes of an install beside it (`CatalogInstall.UnlockedCheckRefusesExactly`).
- Quarantine does not check the metadata size bound that restore enforces: a finding with more than
  256 KiB of match texts is moved away and cannot be restored (`Quarantine.OverlongFindingIsStranded`),
  and a restore can lengthen the history over the bound and so be the last one
  (`Quarantine.RestoreCanBeTheLast`). Both happen (`Quarantine.OverlongFindingHappens`,
  `Quarantine.LastRestoreHappens`).
  `Quarantine.QuarantineThenRestore` gives the exact condition of the round trip.
- The evidence sink can be healthy while the watcher's flag is raised, for two reasons: a repeated
  issue is not emitted (`WatchHealth.RepeatedIssueLags`), and a scan whose only gap is an unfinished
  quarantine reports an ordinary outcome (`WatchHealth.UnfinishedQuarantineIsSilent`).
  `SessionHistory.HealthyWhileIncomplete` says over whole runs exactly when it is.
- A cached pass can restore health for files that were only inventoried and never read
  (`WatchCoverage.InventoryStandsForReading`). It covers what a full pass would read exactly when the
  files it left to the cache had been read (`WatchCoverage.CachedPassEqualsFullRead`), which holds for
  good after the first full pass (`WatchCoverage.ReadAfterAFullPass`).
- A failed log append can leave part of a record, and the next record runs on from it
  (`RotatingLog.TornTailRunsOn`). The log reads as whole records exactly when no append that is still
  retained was cut short (`RotatingLog.RotatingNdjsonLog.ReadsWholeRecords`).
- The observer is stopped with a bounded join whose outcome is not checked. An uninterrupted session
  with a clean summary has delivered everything received up to its final telemetry; an event that
  arrives later is in no summary (`SessionGaps.LateEventIsInNoSummary`), and
  `WatchSession.CleanSessionIsComplete` says that this is the only way for the queue not to be clean at
  the end.

## Model

| member | source | states |
|---|---|---|
| `DebounceQueue.EveryRunKeepsInv` | src/zsec_shield/watcher.py:413-515 | In every interleaving of submit, single ingest steps, pops and overflow clearing: raw plus pending stays within the bound, the overflow flag is set exactly when events were dropped, received = debounced + dropped + cleared + raw + pending + delivered and also = accepted + dropped + cleared, the debounce window holds, and every accepted event is in exactly one place under its own path and kind |
| `DebounceQueue.ReachableIsSound` | src/zsec_shield/watcher.py:390-515 | Every reachable queue state satisfies that invariant |
| `DebounceQueue.IngestNeverDrops` | src/zsec_shield/watcher.py:438-471 | The second bound check inside ingest and the full raw queue can never fire |
| `DebounceQueue.PathsBecomeDue` | src/zsec_shield/watcher.py:400-508 | No stream of events keeps an entry un-due once the clock reaches first seen + max(2, debounce): an unlimited pop delivers it, a limited one delivers it or its full quota of earlier keys |
| `DebounceQueue.NoEarlyDelivery` | src/zsec_shield/watcher.py:424-508 | An entry with only non-terminal events is never delivered before first seen + debounce |
| `DebounceQueue.TerminalEventsAreDueNow` | src/zsec_shield/watcher.py:420-490 | A terminal event makes its pending path due at once, whether it is coalesced into a pending entry or ingested |
| `DebounceQueue.FirstSeenIsFirstObserved` | src/zsec_shield/watcher.py:470-482 | A pending path's first-seen time is the observation time of the earliest of its own accepted events, also when older raw events are ingested after newer coalesced ones |
| `DebounceQueue.DueKeysAreDue` | src/zsec_shield/watcher.py:501-508 | A pop takes due keys only, in key order and within the maximum, and leaves a due key behind only after a full quota of smaller ones |
| `DebounceQueue.PopAtOnce` | src/zsec_shield/watcher.py:501-508 | A pop hands over exactly the entries under its keys, in their order and with its time, and takes exactly these out of what is pending |
| `DebounceQueue.DrainedKeeps` | src/zsec_shield/watcher.py:453-495 | Draining the raw queue drops nothing, loses no accepted event and keeps the counts |
| `DebounceQueue.SubmitIsExact` | src/zsec_shield/watcher.py:413-451 | Every submitted event is set aside if its path begins with an excluded one, merged into its pending path with the exact new due time, dropped exactly if raw events and pending paths are at the bound, and queued otherwise, with every counter |
| `DebounceQueue.IngestIsExact` | src/zsec_shield/watcher.py:453-495 | The oldest raw event is merged into its path, whose entry it starts with its own observation time if there is none; nothing is dropped |
| `DebounceQueue.HighWaterIsTheWidest` | src/zsec_shield/watcher.py:477-479 | Over every run the high water mark is the largest number of paths that were ever pending at once |
| `DebounceQueue.DebouncedPathQueue.constructor` | src/zsec_shield/watcher.py:390-411 | A new queue is empty and satisfies the invariant |
| `DebounceQueue.DebouncedPathQueue.Submit` | src/zsec_shield/watcher.py:413-451 | One submit is one step of the queue machine and keeps the invariant |
| `DebounceQueue.DebouncedPathQueue.IngestOne` | src/zsec_shield/watcher.py:454-495 | One lock hold of the ingest loop is one step of the queue machine |
| `DebounceQueue.DebouncedPathQueue.Ingest` | src/zsec_shield/watcher.py:453-495 | The loop ingests every raw event |
| `DebounceQueue.DebouncedPathQueue.Due` | src/zsec_shield/watcher.py:497-508 | Ingest, then hand over the due entries in key order up to the maximum |
| `DebounceQueue.DebouncedPathQueue.ClearOverflow` | src/zsec_shield/watcher.py:510-515 | Returns and resets the dropped count and the flag |
| `DebounceQueue.DebouncedPathQueue.Telemetry` | src/zsec_shield/watcher.py:524-548 | The snapshot obeys the conservation law and the bound |
| `WatchHealth.RaiseIssueEffect` | src/zsec_shield/watcher.py:781-798 | An issue raises the flags, moves the generation by one, is persistent unless it is one of the two recoverable codes, and degrades the sink exactly if it was not reported before; otherwise the sink stays as it is |
| `WatchHealth.FinishScanEffect` | src/zsec_shield/watcher.py:878-1007 | A scan result records a gap exactly when something was not inspected or a quarantine did not finish, but only the former degrades the sink; beyond that the sink changes only when a complete inventory ends while it is not degraded; the cache only shrinks |
| `WatchHealth.GapIssueCounts` | src/zsec_shield/watcher.py:878-938 | Any issue that is not a confirmed disappearance of one of the four kinds, or of the root of an event scan, raises both flags, moves the generation and loses its cache entry, whatever else the scan found |
| `WatchHealth.DisappearancesAreNoGap` | src/zsec_shield/watcher.py:878-925 | A scan that met confirmed disappearances only, with its quarantine finished, changes no flag, counter or reported issue, only the cache entries of what has gone |
| `WatchHealth.ScanCosts` | src/zsec_shield/watcher.py:878-1007 | A scan takes exactly the entries of its issues out of the cache, moves the generation by one for retained issues and by one for files outside its scope, and is persistent exactly for an unfinished quarantine |
| `WatchHealth.ScanIsReportedAs` | src/zsec_shield/watcher.py:995-1007 | The name and the outcome under which a scan is reported, each outcome with its exact condition |
| `WatchHealth.UnfinishedQuarantineIsSilent` | src/zsec_shield/watcher.py:957-1007 | A scan whose only gap is an unfinished quarantine raises the flag for good and leaves a healthy sink healthy |
| `WatchHealth.NoteQuarantineEffect` | src/zsec_shield/watcher.py:957-993 | A quarantine that did not finish is a persistent gap that leaves the generation alone |
| `WatchHealth.ScanPendingEffect` | src/zsec_shield/watcher.py:804-848 | Scanning one event path never lowers a flag nor heals the sink, and says exactly when it is a gap and when it degrades the sink |
| `WatchHealth.DeliveryCosts` | src/zsec_shield/watcher.py:804-848 | Which cache entries handling one event path takes, and when it is a persistent gap |
| `WatchHealth.EvictEffect` | src/zsec_shield/watcher.py:896-938 | Evicting issues removes exactly their cache entries and nothing else |
| `WatchHealth.HealthyHeartbeat` | src/zsec_shield/watch_evidence.py:295-309 | After any heartbeat a healthy sink implies the carried flag was false, and leaving the degraded state needs inventory_complete |
| `WatchHealth.RecoveryNeedsInventory` | src/zsec_shield/watch_evidence.py:263-309 | Over any record stream of a session a degraded sink becomes healthy only through a heartbeat with a complete inventory and a false flag |
| `WatchHealth.SinkIsHistory` | src/zsec_shield/watch_evidence.py:253-311 | Over any record stream of a session the sink is degraded exactly when some record was evidence of a gap and none since of recovery, and healthy exactly when it is not degraded and a recovery or a complete inventory was reported |
| `WatchHealth.RepetitionIsSilent` | src/zsec_shield/watcher.py:788-798 | A reported text has its line breaks blanked and is cut at 500 characters; an issue is silent exactly if its code was reported with the same such text |
| `WatchHealth.RepeatedIssueLags` | src/zsec_shield/watcher.py:790-798 | A recoverable issue that recurs after a recovery raises the flag while the sink stays healthy |
| `WatchSession.EveryRunKeepsInv` | src/zsec_shield/watcher.py:1010-1357 | Every run of a session keeps the queue, health, sink, cache, work and shutdown invariants together |
| `WatchSession.RecoveryLatch` | src/zsec_shield/watcher.py:1025-1167 | The incomplete flag falls only at the end of a content-reading pass during which no gap was recorded, nested event scans included, with nothing unresolved, no overflow, no ingest failure and no persistent failure ever |
| `SessionGaps.RecoveryIsExact` | src/zsec_shield/watcher.py:1025-1167 | Over every run, with the flag up: the end of a pass lowers it if and only if the pass read contents, no step from its beginning to its end met a gap or left a file unread, the event pipeline is clean at the end and no step ever met a persistent gap; then a heartbeat with a complete inventory heals the sink |
| `SessionHistory.PersistentOverRun` | src/zsec_shield/watcher.py:784-993 | A gap is persistent over any run exactly when some step met a failed health check, a failed event pipeline, another filesystem, an unfinished quarantine or a backlog |
| `WatchSession.PassGapCounts` | src/zsec_shield/watcher.py:878-938 | Any issue of a pass that is a gap has raised both flags and moved the generation at its end |
| `WatchSession.PassDisappearances` | src/zsec_shield/watcher.py:878-1142 | A pass that met disappearances only changes no flag except that it may lower the recoverable one, and installs the cache it collected |
| `WatchSession.UnreadHasNoEntry` | src/zsec_shield/watcher.py:1087-1122 | A file that a pass failed to read has no entry left in the cache in use |
| `WatchSession.PipelineCheckIs` | src/zsec_shield/watcher.py:706-721 | The check raises a failed ingest thread and leaves the queue alone, else raises an overflow with the number of dropped events and clears it, else does nothing |
| `WatchSession.DuePathIsScanned` | src/zsec_shield/watcher.py:497-508 | No pending path stays unscanned: in every reachable idle session, once the clock is past its longest delay, taking the due paths and handling them is possible and scans it |
| `WatchSession.PassedOverIsAccountedFor` | src/zsec_shield/watcher.py:1058-1069 | A delivered path that a pass passes over is one that this pass has taken into its new cache, failed to read, or is about to read |
| `WatchSession.PassDrainsEvents` | src/zsec_shield/watcher.py:1058-1124 | A pass does not hold up events: right after it has dealt with a file it may take what is due, 32 paths at most |
| `WatchSession.RescanIsReportedAs` | src/zsec_shield/watcher.py:995-1141 | A full pass reports rule matches exactly if it met no gap and there are findings, and observations for review exactly if there are those only |
| `WatchSession.NoChangesMeansNothingRead` | src/zsec_shield/watcher.py:1126-1141 | A cached pass reports no changes exactly when it met no gap and read no file |
| `WatchSession.GapsAreNeverForgotten` | src/zsec_shield/watcher.py:784-993 | Over every run the historical and persistent flags never clear, and persistent implies incomplete |
| `SessionGaps.SummaryNamesEveryGap` | src/zsec_shield/watcher.py:1298-1351 | The final summary of a session is incomplete exactly when some step met a gap that no interrupt cut off, each gap being counted where it is met and defined from the inputs of that step: a failed health check, a stopped ingest thread, an overflow, an unreadable, uninspected or too large file, an unfinished quarantine or a backlog |
| `SessionGaps.UninterruptedSummaryIsExact` | src/zsec_shield/watcher.py:1349-1351 | Without an interrupt the summary is incomplete exactly when some step met a gap |
| `SessionGaps.InterruptHidesGap` | src/zsec_shield/watcher.py:899-938 | A session whose pass meets an unreadable file and is then interrupted ends with a complete summary |
| `SessionGaps.SummaryNamesReportedGaps` | src/zsec_shield/watcher.py:781-1007 | In every state of every run: a gap is on record exactly when one was met and reported, at once or at the end of its pass, and the flag is up exactly when it was raised since health was last restored |
| `SessionGaps.RestoringPassMetNoGap` | src/zsec_shield/watcher.py:1025-1167 | In particular a pass at whose end the flag falls met no gap in any step from its beginning to its end, neither in its own walk nor in an event scan, check or health problem in between |
| `SessionGaps.LateEventIsInNoSummary` | src/zsec_shield/watcher.py:771-1340 | A session with an event after its final telemetry ends with a clean summary although the event was accepted and never scanned |
| `SessionHistory.HealthyWhileIncomplete` | src/zsec_shield/watch_evidence.py:263-311 | Over every run the sink is degraded exactly when a degrading record was emitted since health was last restored, and healthy under a raised flag exactly when since then the flag was raised and no degrading record was emitted |
| `SessionHistory.NextShows` | src/zsec_shield/watcher.py:781-1167 | What each single step makes of the flags and of the sink, both directions |
| `SessionHistory.SinkOverRun` | src/zsec_shield/watch_evidence.py:263-311 | The same for the sink over any run from a sound state |
| `WatchSession.CleanSessionIsComplete` | src/zsec_shield/watcher.py:771-1357 | A session that ends neither interrupted nor incomplete dropped nothing up to its final telemetry, had nothing queued, balances received = debounced + delivered = accepted there, and every event accepted by then is in a delivered record of its path and kind, scanned unless popped during the inspection of that very file; the queue is clean at the very end exactly when no event came in after the telemetry |
| `WatchSession.InstalledCacheIsBacked` | src/zsec_shield/watcher.py:1016-1142 | Old and new cache share no key, and every installed entry was observed in the pass under its fingerprint, which was really inventoried or hashed |
| `WatchSession.PassCoversEveryFile` | src/zsec_shield/watcher.py:1071-1142 | At the end of every pass each walked file is unresolved, a retained issue, inventoried, read now, or left to the cache that had it under this fingerprint when the pass began; a full pass leaves nothing to the cache |
| `WatchSession.RecoveringPassCovers` | src/zsec_shield/watcher.py:1071-1157 | A pass that restores health leaves no file out: each was read now or left to the cache of a cached pass |
| `WatchCoverage.CachedPassEqualsFullRead` | src/zsec_shield/watcher.py:1071-1142 | Where content is a function of the fingerprint, a pass has covered exactly what a full pass would read now if and only if every file it left to the cache had been read under its fingerprint |
| `WatchCoverage.ReadAfterAFullPass` | src/zsec_shield/watcher.py:1097-1142 | After a full pass, and as long as no inventory is taken again, every file that any later pass walks and resolves has been read under its fingerprint |
| `WatchCoverage.InventoryStandsForReading` | src/zsec_shield/watcher.py:1088-1167 | A run of an inventory and two cached passes restores health although the file was never read |
| `WatchSession.SinkFollowsWatcher` | src/zsec_shield/watch_evidence.py:253-317 | The sink is degraded only for a present cause, heals only in the step that lowers the watcher's flag, and is healthy after a heartbeat only if that flag, and in a pass the queue, was clean |
| `WatchSession.NextEffect` | src/zsec_shield/watcher.py:781-1124 | No step but the end of a pass can improve health or heal the sink |
| `WatchSession.CheckKeeps` | src/zsec_shield/watcher.py:706-721 | After a pipeline check either nothing is dropped and ingestion works, or a gap is on record |
| `WatchSession.WorseKeepsCache` | src/zsec_shield/watcher.py:817-938 | Evictions by nested event scans keep the cache evidence of the running pass |
| `Watcher.WatchEvidenceSink.Record` | src/zsec_shield/watch_evidence.py:253-317 | Recording one event makes the state the fold of all records seen |
| `Watcher.ForegroundProtectionWatcher.RaiseHealthIssue` | src/zsec_shield/watcher.py:781-798 | Equals the issue step on the flags, the generation, the seen keys and the emitted records |
| `Watcher.ForegroundProtectionWatcher.PartitionIssues` | src/zsec_shield/watcher.py:878-898 | Splits issues into confirmed disappearances and the gaps that are retained, each in order |
| `Watcher.ForegroundProtectionWatcher.NoteIssues` | src/zsec_shield/watcher.py:899-938 | Disappearances cost only cache entries; retained issues raise the flags and evict |
| `Watcher.ForegroundProtectionWatcher.NoteResults` | src/zsec_shield/watcher.py:957-993 | The quarantine loop sets the persistent flags once any result is unfinished |
| `Watcher.ForegroundProtectionWatcher.FinishScanning` | src/zsec_shield/watcher.py:878-1008 | The tail of a scan equals the scan step of the health model |
| `Watcher.ForegroundProtectionWatcher.ScanPendingPath` | src/zsec_shield/watcher.py:804-848 | One delivered path equals the event step of the health model |
| `Watcher.ReconciliationPass.Changed` | src/zsec_shield/watcher.py:1071-1106 | The filter callback equals the visit step; it asks for a scan exactly for changed, unrepresentable or full-pass files |
| `Watcher.ReconciliationPass.RecordInspection` | src/zsec_shield/watcher.py:861-1124 | The observer callback equals the inspection step |
| `Watcher.ReconciliationPass.Complete` | src/zsec_shield/watcher.py:1126-1167 | The end of a pass equals the model; the flag is then up exactly if the pass met a gap, or it was up and the pass read no contents, left something unresolved, or found the pipeline not clean, a persistent gap or a moved generation |
| `Streaming.WindowSuffices` | src/zsec_shield/scan_worker.py:149-154 | A literal occurs in the longer content exactly when it occurred before or occurs in the kept tail plus the new chunk |
| `Streaming.WindowStep` | src/zsec_shield/scan_worker.py:149-154 | Matches and tail after one more chunk are those of the longer content |
| `Streaming.MatchWindow` | src/zsec_shield/scan_worker.py:150-152 | The rule loop adds exactly the rules whose literal occurs in the window |
| `Streaming.Feed` | src/zsec_shield/scanner.py:384-389 | One window search keeps matches equal to those of the content so far, and the tail its last bytes |
| `Streaming.ScanStream` | src/zsec_shield/scan_worker.py:117-162 | For every frame sequence the loop returns the digest, the size, exactly the rules occurring anywhere in the content and its 16 MiB prefix, or the first error of the stream |
| `Streaming.ScanInProcess` | src/zsec_shield/scanner.py:370-389 | The in-process loop returns the same rules for the concatenated chunks, or reports the size policy exactly when the content exceeds it |
| `Streaming.ScanIsExact` | src/zsec_shield/scan_worker.py:117-162 | The scan of a stream succeeds exactly if the declared size is within policy and some first frames, non-empty and within the chunk limit, make it up; it then returns their digest and size, the rules whose literal is in them, and their first 16 MiB |
| `Streaming.FailsAtTheFirst` | src/zsec_shield/scan_worker.py:139-147 | Which error a stream ends with is decided by the first frame that does not fit, or by its absence |
| `Streaming.AnySplitIsAccepted` | src/zsec_shield/scan_worker.py:136-145 | Every split into non-empty frames within the chunk limit is consumed in full without error |
| `Streaming.LoopsAgree` | src/zsec_shield/scan_worker.py:130-162 | For every content and every split, the worker result is that of the whole content, hence that of the in-process loop |
| `WorkerProtocol.EveryRunKeepsStep` | src/zsec_shield/scan_worker.py:210-349 | Broker and worker stay in step in every reachable state of an open connection |
| `WorkerProtocol.NoDeadlock` | src/zsec_shield/scan_worker.py:76-344 | Whenever the broker waits on an empty channel the worker can act |
| `WorkerProtocol.WorkerNeverFails` | src/zsec_shield/scan_worker.py:136-236 | While the connection is open the worker's stream error branches are unreachable: every frame it reads is a chunk, non-empty, within the limit and within what is left |
| `WorkerProtocol.WorkerErrsExactly` | src/zsec_shield/scan_worker.py:117-147 | Whatever the broker sends, the worker answers with an error exactly for a request over the policy or a frame that is no chunk, empty, too long or more than is left |
| `WorkerProtocol.HandshakeIsChecked` | src/zsec_shield/scan_worker.py:165-310 | Each side of the handshake goes on exactly if the frame it gets is the one it waits for |
| `WorkerProtocol.BrokerChecksTheFile` | src/zsec_shield/scan_worker.py:328-343 | The broker goes on exactly as long as the file keeps to its size and the policy, and waits for an answer exactly if it ended at its size with its metadata unchanged |
| `WorkerProtocol.OnlyBelievableAnswersAreTaken` | src/zsec_shield/scan_worker.py:344-443 | Whatever frame arrives is taken as the answer exactly if it names the request, carries the broker's own digest and size, known rule ids once each, and observations within their bounds; else the connection is given up |
| `WorkerProtocol.InspectionSucceeds` | src/zsec_shield/scan_worker.py:344-349 | A completed inspection is accepted with the matches of the streamed content and leaves both sides idle on empty channels |
| `WorkerProtocol.AnswersBelongToRequests` | src/zsec_shield/scan_worker.py:268-462 | Over every run of a broker with any number of failures and restarts, abandoned workers still running: each accepted answer was sent on the connection in use after its own request and before the next one, by a worker that had read exactly the content of that request |
| `WorkerProtocol.BrokerCanGoOn` | src/zsec_shield/scan_worker.py:268-313 | However the last worker ended, and between any two requests, the broker can replace it, and the new one is configured, idle and has served none |
| `WorkerProtocol.WorkersAreReplaced` | src/zsec_shield/scan_worker.py:303-345 | No worker answers more requests than its share |
| `WorkerProtocol.BoundedScanWorker.Inspect` | src/zsec_shield/scan_worker.py:315-403 | Whatever the worker sends and whichever operation of the system fails, a result is accepted exactly when none failed and the next frame names this request, carries the broker's own digest, the declared size, known rule ids once each and at most 32 bounded observations, none eligible; any failure drops the connection with its frames; an answer to a request that no waiting frame names arrived during that request |
| `WorkerProtocol.BoundedScanWorker.EnsureStarted` | src/zsec_shield/scan_worker.py:303-313 | A missing, dead or exhausted worker is replaced and the request count restarts |
| `DirectoryWalk.WalkDirectories` | src/zsec_shield/scanner.py:253-301 | The explicit stack with reversed pushes and the visited check yields exactly the recursive files-then-subdirectories preorder, with issues and tallies, and terminates on every finite set of directory identities |
| `DirectoryWalk.IterRegularFiles` | src/zsec_shield/scanner.py:229-301 | The whole walk of one root, with the root's own cases |
| `DirectoryWalk.PopDirectory` | src/zsec_shield/scanner.py:257-300 | One loop iteration equals opening one directory in the recursion |
| `DirectoryWalk.ReadEntries` | src/zsec_shield/scanner.py:273-300 | The entry loop classifies every listed name in order |
| `DirectoryWalk.EveryEntryIsTallied` | src/zsec_shield/scanner.py:274-300 | Each listed entry is counted exactly once as yielded, pushed, excluded, link, special, other filesystem or issue |
| `DirectoryWalk.WholeWalkIsTallied` | src/zsec_shield/scanner.py:253-301 | Over a whole walk the requested directories and the entries of all listings are each tallied once or listed themselves |
| `DirectoryWalk.VisitInTurn` | src/zsec_shield/scanner.py:301 | Visiting two lists of directories in turn is visiting their concatenation with the visited set threaded through |
| `WalkReports.WalkReportsExactly` | src/zsec_shield/scanner.py:209-301 | A walk reports only regular files that are not excluded and that directories from the root on, each entered on the allowed filesystem, lead to; and where no directory has two paths, every one of them |
| `WalkReports.TalliesAreExact` | src/zsec_shield/scanner.py:274-301 | What each tally of one listing counts: excluded entries, links, special files, directories of other filesystems, unreadable entries |
| `WalkReports.RootAlone` | src/zsec_shield/scanner.py:235-250 | A root that is no directory to enter is itself the one thing tallied, and as what |
| `WalkReports.UnreadableEntries` | src/zsec_shield/scanner.py:274-283 | The issues of one listing name exactly the entries that cannot be looked at |
| `WalkReports.UnreadableDirectory` | src/zsec_shield/scanner.py:258-272 | A directory is an issue of its own exactly if it cannot be looked at, or is new and cannot be listed; one visited before counts as a link |
| `WatchRoots.NormalizeWatchRoots` | src/zsec_shield/watcher.py:341-373 | Roots are returned exactly if some are requested and each is a directory, not a link, outside the state directory; they are pairwise non-nested, come from the request and cover exactly the same paths; otherwise the first offending root is reported with its reason |
| `WatchRoots.KeepOutermost` | src/zsec_shield/watcher.py:366-370 | The shortest-first greedy loop keeps an antichain with the same coverage |
| `WatchRoots.VisitExtends` | src/zsec_shield/scanner.py:253-301 | Visiting non-nested directories reports distinct paths, each strictly below one of them |
| `WatchRoots.NoPathTwice` | src/zsec_shield/watcher.py:869-877 | A walk over normalised roots visits no path twice |
| `WatchRoots.FilesToScan` | src/zsec_shield/scanner.py:158-169 | The scanner's root loop with and without its set of seen paths |
| `WatchRoots.DeduplicationIsRedundant` | src/zsec_shield/scanner.py:158-169 | Over normalised roots deduplication changes nothing |
| `WatchRoots.FilteredIsDistinct` | src/zsec_shield/scanner.py:158-169 | Deduplication leaves the same paths, each once |
| `Quarantine.RemovalIsSafe` | src/zsec_shield/quarantine.py:161-245 | In every run, whatever others do to the source and wherever a crash cuts it off: from the moment on at which this process takes the source away, seen on the disk, a published entry decrypts to bytes with the scanned digest |
| `Quarantine.UndisturbedRunKeepsTheBytes` | src/zsec_shield/quarantine.py:161-245 | With an undisturbed source, at every moment the original file is in place or an entry holds exactly its bytes; if the system refuses nothing the run ends with the file moved |
| `Quarantine.OutcomeIsHonest` | src/zsec_shield/quarantine.py:196-245 | A failure leaves all entries as they were, anything else a recoverable entry and the others untouched; the outcome tells whether the source is gone and the state of the entry |
| `Quarantine.RemovedIsStoredExactly` | src/zsec_shield/quarantine.py:223-245 | What a finished quarantine removed is stored if and only if the file in place at the removal had the content that was read |
| `Quarantine.ReplacedSourceIsLost` | src/zsec_shield/quarantine.py:223-245 | Any other file in place at the removal is removed and stored nowhere |
| `Quarantine.OthersDoWhatTheyDo` | src/zsec_shield/quarantine.py:161-230 | The changes ascribed to other processes are those of the environment in order, so nothing this process does is ascribed to them |
| `Quarantine.OnlyThePathChanges` | src/zsec_shield/quarantine.py:161-245 | No file but the source ever changes |
| `Quarantine.PublishedHolds` | src/zsec_shield/quarantine.py:92-217 | An entry is published only if it authentically holds the bytes read, which have the scanned digest; until then this process touches no file |
| `Quarantine.QuarantineStore.QuarantineFinding` | src/zsec_shield/quarantine.py:161-245 | Carries out the run these promises are about, on the disk and in the trace; what decides its outcome and the fate of the source is stated by the two following rows |
| `Quarantine.OutcomeIsExact` | src/zsec_shield/quarantine.py:68-245 | A copy is published exactly if the file opened has the device, inode, size and time of the one inspected, is unchanged after reading and has the scanned digest; the run ends as moved exactly if in addition the second look finds a file with all of these and the system refuses nothing |
| `Quarantine.SourceGoesExactly` | src/zsec_shield/quarantine.py:221-241 | The source is taken away exactly if a copy was published, the second look saw the inspected file and the removal worked; in every other run this process removes nothing, and a source changed after the copy stays as it was found |
| `Quarantine.OthersKeepHolding` | src/zsec_shield/quarantine.py:161-245 | At every moment of every run each entry of the store holds the bytes it held before |
| `Quarantine.EntryTellsTheFinding` | src/zsec_shield/quarantine.py:175-245 | The metadata of a published entry, field by field, with its state and time for each outcome |
| `Quarantine.HoldsMeans` | src/zsec_shield/crypto_vault.py:150-193 | What holding an entry comes to: its own authentication code, a key bound to all nine projected fields, the tag over the stored content, and each byte, size and digest |
| `Quarantine.QuarantineStore.PublishCopy` | src/zsec_shield/quarantine.py:92-217 | The part up to the published copy |
| `Quarantine.QuarantineStore.EncryptSource` | src/zsec_shield/quarantine.py:106-121 | For every way of reading the source in chunks, the loop hashes and seals the same bytes as the whole |
| `Quarantine.QuarantineStore.RemoveSource` | src/zsec_shield/quarantine.py:221-245 | The part from the second look on |
| `Quarantine.QuarantineStore.DecryptContent` | src/zsec_shield/quarantine.py:380-420 | For every way of reading the stored file in chunks, the loop gives the decryption of the whole with its digest and size, and nothing unless the tag authenticates it |
| `Quarantine.QuarantineStore.RestoreEntry` | src/zsec_shield/quarantine.py:435-505 | Carries out the restore the following results are about |
| `Quarantine.RestoreIsExact` | src/zsec_shield/quarantine.py:259-505 | An entry that holds its bytes is restored exactly when its metadata is within the bound and the way is free up to the link, recorded exactly when the rewrite succeeds too, and holds its bytes in every state |
| `Quarantine.RestoreIsAuthentic` | src/zsec_shield/quarantine.py:435-505 | Whatever the entry, only bytes it authentically holds are restored, onto a free name, changing no other file or entry |
| `Quarantine.RestoreIsRecorded` | src/zsec_shield/quarantine.py:489-494 | A restore adds its record to the history, of which the last 100 are kept, and changes nothing else but the state |
| `Quarantine.QuarantineThenRestore` | src/zsec_shield/quarantine.py:161-505 | The round trip: what quarantine took away comes back byte for byte with its time and mode, exactly when the metadata is within the bound and the way is free |
| `Quarantine.OverlongFindingIsStranded` | src/zsec_shield/quarantine.py:161-263 | A finding whose match texts exceed the bound is moved away, and every request to restore it is refused |
| `Quarantine.RestoreCanBeTheLast` | src/zsec_shield/quarantine.py:262-494 | If the extended history exceeds the bound, the restore is the last one: the entry holds its bytes but is refused from then on |
| `Quarantine.OverlongFindingHappens` | src/zsec_shield/quarantine.py:161-263 | A file with 2048 matches of 200 characters is such a finding |
| `Quarantine.LastRestoreHappens` | src/zsec_shield/quarantine.py:262-494 | An entry whose hundredth restore, to a path of 22 long components, is its last |
| `Quarantine.RewriteKeepsContent` | src/zsec_shield/quarantine.py:138-158 | Every metadata rewrite keeps the authenticated projection, verifies, and keeps the bytes |
| `Quarantine.RevisionsKeepContent` | src/zsec_shield/quarantine.py:138-494 | The same for any number of rewrites |
| `Quarantine.SealedHolds` | src/zsec_shield/crypto_vault.py:150-193 | A freshly wrapped, sealed and signed entry verifies and decrypts to the sealed bytes |
| `Installers.CommittedSequenceIsARatchet` | src/zsec_shield/feed.py:525-565 | Over every interleaving of installers with crashes between any two writes the committed sequence never decreases and no sequence is committed with two digests |
| `Installers.LockIsFree` | src/zsec_shield/util.py:118-157 | The lock is never left behind: whenever no process is installing it is free and any process that asks for it gets it, whatever was refused or crashed before |
| `Installers.EveryRunKeepsInv` | src/zsec_shield/feed.py:525-565 | Any document on disk is acceptable against the marker, and commits only accumulate |
| `Installers.InspectionChecksBoth` | src/zsec_shield/feed.py:354-394 | On whatever disk, rules are returned exactly if the document in place has the sequence and the digest on record |
| `Installers.InspectionShowsTheCommit` | src/zsec_shield/feed.py:354-394 | With no installer running, rules are returned only for the document of the latest commit; an uncommitted document is reported invalid, and nothing else is |
| `Installers.InspectionBesideInstallers` | src/zsec_shield/feed.py:354-394 | Six looks without a lock, any installers running between them: rules are returned only for the document that is the latest commit when the state is read, and a feed is called absent only if nothing was committed when the inspection began |
| `Installers.InspectionIsExact` | src/zsec_shield/feed.py:354-394 | Beside any running installers an inspection returns rules if and only if, everything it looks for being there, the document in place at the read of the document has the mark of the one committed at the read of the state; it reports absent exactly when neither file was there at its first looks |
| `Installers.CommittedFeedIsReported` | src/zsec_shield/feed.py:354-394 | For a feed committed before the inspection that condition is all, and it holds whenever no installer writes between the two reads and nothing uncommitted is in place |
| `Installers.InspectionMayMissACommit` | src/zsec_shield/feed.py:365-372 | An install between the two reads makes the inspection report invalid a feed that is valid before and after |
| `Installers.InstallCommits` | src/zsec_shield/automatic_updates.py:317-349 | An undisturbed install of an acceptable document commits it, whatever a crash left behind, and copies the active envelope aside first |
| `Installers.ReinstallRepairs` | src/zsec_shield/feed.py:526-565 | After a crash, installing again the document on disk or the committed one makes the feed valid |
| `Installers.BackupIsThePriorEnvelope` | src/zsec_shield/automatic_updates.py:328-349 | After any run, the last known good copy that an install keeps is the previously committed envelope exactly when no other envelope was written as active since that commit |
| `Installers.UncommittedEnvelopeIsKept` | src/zsec_shield/automatic_updates.py:328-349 | A run in which the copy kept is an envelope that was never committed |
| `Installers.LeftIsActive` | src/zsec_shield/automatic_updates.py:328-349 | After any run the active envelope is the last one written since the last commit, or else the committed one |
| `Installers.FeedStore.InstallFeed` | src/zsec_shield/feed.py:514-566 | Outcome and files of one install for every document, lock state and crash point |
| `Catalog.RegroupingRecovers` | src/zsec_shield/intelligence.py:876-1081 | From any reordering of the merged advisories, filtering by source and sorting by id recovers each source's own list |
| `Catalog.MergeKeepsSource` | src/zsec_shield/intelligence.py:883 | In the merged list the advisories of a source are exactly its own |
| `Catalog.BuiltCatalogValidates` | src/zsec_shield/intelligence.py:313-1101 | Counts, contribution digests and semantic digests of every built catalog pass the validator |
| `Catalog.BuildCatalog` | src/zsec_shield/intelligence.py:876-904 | Sort by source, refuse duplicates, merge, sort newest first, bound the count, validate |
| `Catalog.AssembledInOrder` | src/zsec_shield/intelligence.py:876-904 | The merged document holds every advisory of every source, newest first, then by source and id backwards, and the sources by id |
| `Catalog.ValidMeans` | src/zsec_shield/intelligence.py:926-1102 | A document is accepted exactly if it has sources, 1 to 4096 advisories, no source or advisory id twice, only advisories of listed sources, and every source agrees in count and both digests with the id-sorted list of its own advisories |
| `Catalog.FirstBadMeans` | src/zsec_shield/intelligence.py:990-1077 | The first bad advisory decides the error: the later of two with one id, or one of no listed source |
| `Catalog.MismatchMeans` | src/zsec_shield/intelligence.py:1078-1101 | A source is refused for its count first, then for the digest of its contribution, then for that of its meaning |
| `Catalog.ValidateCatalog` | src/zsec_shield/intelligence.py:926-1102 | One pass that collects contributions, then the per-source checks, reporting the first problem |
| `Catalog.CollectContributions` | src/zsec_shield/intelligence.py:990-1077 | The pass over the advisories refuses the first repeated id or unlisted source, and otherwise sorts every advisory to its source in order |
| `Catalog.CheckSources` | src/zsec_shield/intelligence.py:1078-1101 | The per-source loop reports the first count or digest mismatch |
| `CatalogInstall.CheckMeansSucceeds` | src/zsec_shield/intelligence.py:1184-1202 | The check accepts exactly the catalogs in which no source disappears, no version decreases and an equal version has equal content |
| `CatalogInstall.AcceptanceComposes` | src/zsec_shield/intelligence.py:1184-1202 | If catalogs are accepted step by step, each is accepted against the state left by any earlier one |
| `CatalogInstall.CommittedCatalogsSucceed` | src/zsec_shield/intelligence.py:1205-1280 | Over any series of installs and crashes every committed catalog succeeds every earlier one |
| `CatalogInstall.NextInstallSucceedsExactly` | src/zsec_shield/intelligence.py:1236-1280 | After a crash of an install the next acceptable changed catalog installs if and only if the crash was neither between the two backup writes nor between catalog and rollback state |
| `CatalogInstall.CrashIsRepairableExactly` | src/zsec_shield/intelligence.py:1236-1280 | Exactly those two crash points leave the disk stuck |
| `CatalogInstall.StuckMeansRefused` | src/zsec_shield/intelligence.py:1157-1260 | A disk that is not stuck takes every acceptable changed catalog; one that is takes none and stays as it is |
| `CatalogInstall.BlockedFromEmpty` | src/zsec_shield/intelligence.py:1236-1280 | Over any series of installs and crashes from an empty disk, if digests do not collide, later installs are blocked exactly when one crashed at one of those points |
| `CatalogInstall.TornInstallStaysTorn` | src/zsec_shield/intelligence.py:1157-1280 | After a crash between catalog and rollback state the pair is refused and left as it is by every later install |
| `CatalogInstall.HalfBackupBlocksUpdates` | src/zsec_shield/intelligence.py:1249-1260 | After a crash between the two backup writes the current catalog stays readable and every changed one is refused as an incomplete backup |
| `CatalogInstall.WritesEffect` | src/zsec_shield/intelligence.py:1249-1280 | What each prefix of the two or four writes leaves on the disk |
| `CatalogInstall.InstallIsExact` | src/zsec_shield/intelligence.py:1157-1280 | Every outcome of an install with its exact condition on the disk and the catalog, and what is on the disk afterwards at every crash point |
| `CatalogInstall.RefusalMeans` | src/zsec_shield/intelligence.py:1184-1202 | A refusal names a source of the old state that is missing, or the first that went back or changed without a new version |
| `CatalogInstall.UnlockedCheckRefusesExactly` | src/zsec_shield/intelligence.py:1157-1228 | The check before the lock, looking and reading at times of its own beside an install that goes through, refuses exactly when its looks straddle the last two writes |
| `Framing.ReadEvents` | apps/windows-ui/zsec_desktop/bridge.py:693-718 | The reading loop equals its chunk semantics, and on safe streams the meaning of the whole stream |
| `Framing.DrainLines` | apps/windows-ui/zsec_desktop/bridge.py:703-716 | The inner loop delivers the complete lines of the buffer and keeps the rest |
| `Framing.WholeMeans` | apps/windows-ui/zsec_desktop/bridge.py:693-718 | A stream of lines delivers the parsed lines in order, leaving out those of white space only, up to the first that is too long or does not parse; else it fails exactly if it ends within a line that is not only white space |
| `Framing.EveryStreamIsLines` | apps/windows-ui/zsec_desktop/bridge.py:703-705 | Every stream is one of lines and an unfinished rest |
| `Framing.TailIsShort` | apps/windows-ui/zsec_desktop/bridge.py:701-705 | At the loop head the buffer has no newline and is within the line bound |
| `Framing.ChunkingIsInvisible` | apps/windows-ui/zsec_desktop/bridge.py:693-718 | Events and error are independent of the chunking if and only if every over-long blank line reached is followed by an immediate error |
| `Framing.NoLongBlankIsSafe` | apps/windows-ui/zsec_desktop/bridge.py:706-709 | Every stream without a whitespace-only line over the bound is independent of its chunking |
| `Framing.LongBlankLineIsUnsafe` | apps/windows-ui/zsec_desktop/bridge.py:701-709 | One blank line just over the bound shows the dependence |
| `Framing.ByteByByte` | apps/windows-ui/zsec_desktop/bridge.py:695-702 | Read one byte at a time, the loop holds blank lines to the bound as well |
| `Framing.DrainIsPrefix` | apps/windows-ui/zsec_desktop/bridge.py:703-716 | Draining the start of a safe stream delivers the start of its meaning |
| `RotatingLog.RotatingNdjsonLog.Append` | src/zsec_shield/watch_evidence.py:140-212 | In every case what is appended and what is kept: a record that fits is added to the current file, one that does not starts a new one if the rotation succeeds, which loses the oldest backup only, and an over-long one changes nothing; success means stored and flushed in full |
| `RotatingLog.RotatingNdjsonLog.WriteAll` | src/zsec_shield/watch_evidence.py:202-207 | The write loop stores the prefix of the record that the answers of the system amount to |
| `RotatingLog.StoresWhileProgress` | src/zsec_shield/watch_evidence.py:202-207 | What is stored is the sum of the answers before the first write without progress, and at most the record |
| `RotatingLog.RotatingNdjsonLog.ReadsWholeRecords` | src/zsec_shield/watch_evidence.py:140-212 | Backups from the highest index down and then the current file are the bytes of the last appends in order, and exactly the whole records among them if and only if none of them was cut short |
| `RotatingLog.WholeRecordsExactly` | src/zsec_shield/watch_evidence.py:202-212 | The bytes of a series of appends are those of its whole records if and only if no append stored a non-empty proper part |
| `RotatingLog.TornTailRunsOn` | src/zsec_shield/watch_evidence.py:202-212 | After a cut append the next record runs on from the stored part |
| `RotatingLog.RotatingNdjsonLog.Rotate` | src/zsec_shield/watch_evidence.py:159-185 | Rotation succeeds exactly if the system carries out one operation for each existing backup and one for the current file; it loses only the oldest backup and moves everything else up in order, also when it stops early |
| `RotatingLog.RotatingNdjsonLog.RenameUp` | src/zsec_shield/watch_evidence.py:167-178 | A backup is renamed only onto a vacant index |
| `RotatingLog.RotatingNdjsonLog.RenameCurrent` | src/zsec_shield/watch_evidence.py:179-185 | The current file is renamed only onto a vacant first index |
| `RotatingLog.RotatingNdjsonLog.TotalIsBounded` | src/zsec_shield/watch_evidence.py:140-185 | The disk use is at most (backups + 1) * max_bytes |
| `RotatingLog.MoveKeepsReading` | src/zsec_shield/watch_evidence.py:167-178 | Renaming a backup to the vacant index above it does not change what is read, even with gaps |
| `RotatingLog.NewestIsLast` | src/zsec_shield/watch_evidence.py:179-185 | The rotated current file is read after all older backups |

## Left out

- Queue: events carry normalised paths, so two spellings of one path on a case-insensitive system are one key; the age telemetry is not modelled.
- Session: `ForegroundProtectionWatcher.run` is a set of guarded steps rather than one method; intervals, sleeps and heartbeat timers only enable steps.
- Session: an interrupt in the middle of recording one finished scan, which would leave part of it recorded; exceptions of an event scan inside a pass, which the scanner turns into filter or observer issues of the file at hand; exceptions that escape `run` without a summary, backend selection and fallback, and the duration check.
- Evidence sink: counters, roots, policy and last outcome are copied through and not modelled, nor is the atomic health file.
- Scanner: the identity and size checks around reading one file appear only as outcomes; severity, findings and observations beyond their counts; retries of directory listings on Windows; a file system that changes during one walk.
- DirectoryWalk.WalkDirectories: a directory without an inode number is never recognised as visited, so termination is stated for directories with non-zero inodes; other files may have any.
- Content inspection: entropy, PE, script and archive heuristics; the worker is assumed to return at most 32 well-formed observations, as that module does. Evidence fields of observations and the one MiB frame limit are not modelled.
- Worker process: over many connections the workers follow the protocol but may die or fall silent at any point; a worker that sends anything else is covered by the contract of one inspection. Time limits appear only as a broker that may give up at any moment; resource limits and process spawning.
- Quarantine: cryptographic strength, nonces and key files, permissions and timestamps, and the unencrypted legacy entries.
- Installers: signature, keyring, expiry and schema checks precede the model, which starts from verified documents; an expired feed is not modelled as invalid.
- CatalogInstall: dry runs, and the word for the outcome, which is fixed by the check before the lock; installs themselves are modelled one after another, as the lock makes them.
- Catalog: field-by-field schema checks, advisory commitments and source parsers; publication times compare as numbers.
- Event stream: process exit codes, stderr and the stop request of the watch session.
- Update scheduling, downloads, readiness, desktop application, packaging and site scripts.
