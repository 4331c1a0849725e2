# PixivArchive, verified models

PixivArchive keeps a local archive of Pixiv works: a web application and a worker over PostgreSQL,
with a media directory beside it. Its correctness rests on several small protocols, each spread over
a few functions. This project models those protocols in Dafny and proves what they promise, for every
input, every interleaving and every run.

A database transaction is one atomic step on maps, an early error is a rollback, and a lock held to
commit is what makes the step atomic. File operations, asynchronous waits and process deaths are
separate steps, so that anything may happen between them. Code that changes state step by step also
appears as a class whose methods are proved against the transition functions; the theorems about all
runs are proved on those functions.

| files | what they model |
|---|---|
| `MediaModel`, `MediaInvariant`, `MediaSteps`, `MediaLocks`, `MediaTheorems`, `MediaProgress`, `MediaRepository`, `MediaStore` | artifact intents: files on disk and database rows across takeovers, cancellations, retries, crashes and a background cleaner |
| `MediaTakeover`, `MediaLostFile` | which takeovers of an intent are safe, and two runs in which one is not |
| `MediaStragglers` | which file operations of a worker past its lease are safe, and two runs in which one is not |
| `EventLog`, `EventStream`, `EventNotices`, `EventRepository` | publication of events that commit out of id order, resumable streams over them, and who is told to reload |
| `RefreshModel`, `RefreshTheorems`, `RefreshCoordinator` | the front end's refresh coordinator: timer, generation, pause, retry |
| `LoginLimits`, `LoginTheorems`, `LoginWindows`, `LoginLateness`, `LoginLimiter` | login rate limiting with leased reservations |
| `SettingsBatch`, `SettingsLocks`, `SettingsRepository` | batched compare and swap of settings under ordered locks |
| `RuleModel`, `RuleTheorems`, `RuleHistory`, `RuleRepository` | rule drafts and published versions, read outside and rechecked inside the transaction |
| `RateGate` | permits and evenly spaced request slots |
| `ZipDirectory`, `UgoiraArchive` | the ZIP central directory and the acceptance of ugoira archives |
| `Bookmarks`, `BookmarkPages` | full reconcile of bookmarks and its revisions, and the paged reading that feeds it |
| `FollowingModel`, `FollowingTheorems`, `FollowingSteps`, `FollowingService` | paged refresh of followed authors and switched-off authors |
| `MediaUsage` | the shared scan of the media directory and its walk |
| `Purge`, `PurgeProgress`, `Sessions`, `FollowLatest`, `AsyncBatch` | purge of trashed works, session expiry, a page of newest works, bounded concurrency |
| `Scheduling`, `WorkerLoop` | quota rotation, the worker's main loop, subscription schedule |
| `Results`, `Ordered`, `Sorting`, `Text` | shared vocabulary: results, ascending listings, stable sorting, trimming |

Where the code does not do what one might expect of it, the model follows the code and the exact
condition is proved:

- An intent whose job was cancelled may be taken over at once, although its cleanup is postponed until
  the cancelled attempt's lease ends (`crates/db/src/media.rs:737-753`). The displaced worker may still
  act on the path. A file of which no row and no intent knows can be left behind (`FileIsForgotten`),
  and worse, the file of a committed row can be deleted: the displaced worker removes what it takes for
  its own redundant copy, after another worker has saved a new revision there (`RowFileIsLost`). The
  condition is exact: a takeover is safe if and only if no attempt it displaces is still inside its lease
  and about to write a file there, or to remove a copy of the page's current revision
  (`TakeoverIsSafe`, `RunIsSafe`; the predicates `Spares` and `CanHarm` spell it out). Waiting for the
  postponed cleanup is enough (`WaitingSpares`). The cleaner itself never takes a referenced file and no
  live owner loses an intent, in any run at all (`CleanerSparesReferenced`, `LiveOwnerKeepsIntent`).
- A worker that goes on after its lease is refused by the database, but its file operations are not
  fenced (`apps/worker/src/executors/download.rs:183-214`). Even when every takeover and the cleaner waited
  for the lease to end, it can leave a forgotten file (`StragglerIsForgotten`) or delete a row's
  (`StragglerTakesRowFile`). Exactly two kinds are unsafe (`EventIsSafe`, `EventsAreSafe`): a write where no
  intent is going to remember the file, and the removal of a file that is a row's or that a live attempt
  may still save.
- An empty page ends a reading of bookmarks or followed authors as if it were complete, and so does a page
  that states too small a total (`crates/pixiv/src/mapper.rs:391-402`, `crates/pixiv/src/mapper.rs:419-430`);
  what stands behind it is dropped (both `EmptyPagesDropAll`). `ReadsBothLists`, `UnitMirrors`, `FetchIsTheUnion`,
  `FetchIsWhole` and `RefreshMirrors` give the condition on the pages both ways.
- A stream opened on an empty log with a Last-Event-ID above what the log has reached waits above the
  ids still to come and misses them (`crates/application/src/events.rs:56-62`):
  `MissesOnlyAfterStaleId` gives the condition both ways.
- The request interval is rounded down to whole nanoseconds (`crates/pixiv/src/limit.rs:69`), so a
  window can hold one slot more than configured, exactly when the number of requests does not divide
  the window: `RateIsKept`.
- A login attempt that is judged after its reservation's lease can push a bucket past its threshold;
  `ExcessIsLate` bounds the excess by the number of such judgements, and `LateFailuresExceed` shows the
  bound to be tight for every threshold and every number of them.
- Switching an author off is forgotten when a refresh no longer finds the author, because the exclusion
  row refers to the author row and is deleted with it (`migrations/0001_initial.sql:349-357`). An author
  who is followed again is switched on: `SyncKeepsSwitch`, `RefollowedIsEnabled`.

## Model

| member | source | states |
|---|---|---|
| MediaTheorems.MediaConsistent | crates/db/src/media.rs:24-37 | from the empty state, after any run of registrations, writes, saves, job endings, cancellations, retries, takeovers and cleaner steps whose takeovers displace nobody who can still do harm (`Sparing`): every row's file is on disk, a source's with its recorded digest, and every file has a row or an intent |
| MediaTheorems.StepInv | crates/db/src/media.rs:340-474 | each of the 22 kinds of step, a takeover only if it displaces nobody who can still do harm (`Sparing`), keeps the protocol's invariant: attempts that may save own their intents, rows are numbered and dense, cleaners' reads stay true |
| MediaTheorems.CleanerSparesReferenced | apps/worker/src/storage.rs:82-127 | in every run, whatever the takeovers, no step but a worker's removal of a redundant copy takes or alters a file that a row references |
| MediaTheorems.ReferencedFilesStay | crates/db/src/media.rs:737-753 | in a run whose takeovers displace nobody who can still do harm, no step, not even the removal of a redundant copy, takes or alters a file that a row references |
| MediaLocks.StepLocks | apps/worker/src/storage.rs:82-127 | every step, with no condition on takeovers, keeps what a cleaner transaction has locked as it read it: the intent with its owner, the owner's end, and whether a row needs the file |
| MediaTheorems.FilesWriteOnce | crates/media/src/storage.rs:110-168 | a file never changes its contents; it disappears only by the removal of a redundant copy or by the cleaner, which change no row |
| MediaTheorems.LiveOwnerKeepsIntent | crates/db/src/media.rs:724-782 | in every run, whatever the takeovers: while an intent's owner is not terminal the intent keeps its owner, or the owner's own save has put a row in its place |
| MediaTheorems.IntentFate | crates/db/src/media.rs:724-782 | outside a save, an intent keeps its job, or a terminal job lost it to another, or a cleaner committed its deletion |
| MediaTheorems.SourceSaveFate | crates/db/src/media.rs:340-474 | saving a source revision leaves every other intent as it was, and releases its own only for a row with that path |
| MediaTheorems.DerivativeSaveFate | crates/db/src/media.rs:529-603 | saving a derivative never takes a live job's intent; its own is released only for a row with that path |
| MediaTheorems.PassCleans | apps/worker/src/storage.rs:82-127 | a pass over a due intent, beside whatever other cleaners have locked elsewhere, deletes the intent, and its file exactly when no row references it, and nothing else |
| MediaTheorems.CleaningIsIdempotent | apps/worker/src/storage.rs:82-127 | dying between removing the file and committing, and then running the pass again, ends where an undisturbed pass ends |
| MediaTheorems.WaitingSpares | crates/db/src/jobs/transitions.rs:264-277 | a takeover that waits for the postponed cleanup displaces nobody who can still do harm |
| MediaTakeover.TakeoverIsSafe | crates/db/src/media.rs:737-753 | in every state that keeps the invariant, a step leaves rows and files consistent through all runs in which nobody dangerous is displaced later, if and only if it takes no intent over from an attempt that can still do harm |
| MediaTakeover.RunIsSafe | crates/db/src/media.rs:737-753 | a whole run has only such takeovers if and only if every state on its way is safe in that sense |
| MediaTakeover.TakeoverHarms | crates/db/src/media.rs:737-753 | from every takeover that displaces somebody who can still do harm, by a registration or by a derivative's save, a run follows whose end is inconsistent and whose own takeovers are all harmless |
| MediaTakeover.WriterLeaks | crates/media/src/storage.rs:110-168 | once the path of a displaced attempt that is still to write is due for cleaning, a pass and the write leave a file that no row references and no intent remembers |
| MediaTakeover.DerivativeWriterFails | crates/db/src/media.rs:529-603 | the same for a derivative whose path has rows, after its rows have got other files |
| MediaTakeover.RemoverLosesRow | apps/worker/src/executors/download.rs:205-222 | a displaced attempt with a copy of the page's current revision, judged redundant or not yet, deletes the file of the revision that another worker saved meanwhile |
| MediaLostFile.RowFileIsLost | crates/db/src/media.rs:737-753 | from the empty state a concrete run ends with a revision row whose file is gone |
| MediaLostFile.FileIsForgotten | crates/db/src/jobs/transitions.rs:221-330 | from the empty state a concrete run ends with a file that no row references and no intent remembers |
| MediaStragglers.EventIsSafe | apps/worker/src/executors/download.rs:183-214 | in every state that keeps the invariant, an event, be it a step of the protocol or a file operation by a worker past its lease, leaves rows and files consistent through all harmless runs if and only if it is no dangerous takeover, no late write that no intent will remember, and no late removal of a file a row or a live attempt needs |
| MediaStragglers.EventsAreSafe | apps/worker/src/executors/download.rs:183-214 | a whole run with such workers is harmless if and only if every state on its way is safe in that sense |
| MediaStragglers.LateWriteHarms | crates/media/src/storage.rs:110-168 | after every harmful late write at most a cleaner's commit is needed to end with a file that no row and no intent knows |
| MediaStragglers.LateRemovalHarms | apps/worker/src/executors/download.rs:381-386 | after every harmful late removal a row has lost its file, or the attempt that stored it gets a row without one |
| MediaStragglers.StragglerIsForgotten | apps/worker/src/storage.rs:82-127 | from the empty state a concrete run, in which the cleaner waited for the lease to end, ends with a late write that leaves a forgotten file |
| MediaStragglers.StragglerTakesRowFile | apps/worker/src/executors/download.rs:205-214 | from the empty state a concrete run ends with a late removal that takes the file of a committed row |
| MediaSteps.CancelInv | crates/db/src/jobs/transitions.rs:264-277 | cancelling, which postpones the cleanup of the job's intents to the end of its lease, keeps the invariant |
| MediaSteps.RegisterInv | crates/db/src/media.rs:24-37 | registering an intent, new or taken over, keeps the invariant when it displaces nobody who can still do harm |
| MediaSteps.WriteInv | crates/media/src/storage.rs:110-168 | promoting a staged file keeps the invariant: nothing is overwritten, and what the attempt stored is on disk |
| MediaSteps.RemoveRedundantInv | apps/worker/src/executors/download.rs:205-222 | removing a download that only repeats the current revision keeps the invariant |
| MediaSteps.SaveSourceInv | crates/db/src/media.rs:340-474 | inserting the next revision and releasing its intent keeps numbers unique, the current revision last and every file accounted for |
| MediaSteps.SaveDerivativeInv | crates/db/src/media.rs:529-603 | replacing a derivative's path, with an intent for the replaced one, keeps the invariant when that intent displaces nobody who can still do harm |
| MediaSteps.CleanCommitInv | apps/worker/src/storage.rs:82-127 | committing a cleaner's deletion keeps the invariant |
| MediaProgress.CrashLosesNothing | apps/worker/src/executors/download.rs:183-290 | at whatever point earlier attempts died, a worker that claims the job again brings a page's next revision to its row: the file is there with its content, the intent is gone, the job is done |
| MediaProgress.RegisterIs | crates/db/src/media.rs:724-760 | a path is registered exactly when nobody owns it, or its owner is the same job or one that has ended, and no cleaner is at it; the job owns it then |
| MediaProgress.SaveSourceIs | crates/db/src/media.rs:340-474 | the exact condition and error of saving a source revision, and all that the save changes |
| MediaProgress.SaveDerivativeIs | crates/db/src/media.rs:529-603 | the exact condition of saving a derivative; its key has the path then, and a replaced file has an intent instead of its row |
| MediaProgress.CancelIs | crates/db/src/jobs/transitions.rs:221-330 | cancelling a job that has not ended postpones the cleanup of its intents to the end of its lease, and changes nothing else |
| MediaProgress.HeartbeatIs | apps/worker/src/runtime.rs:205-236 | a heartbeat prolongs the lease of an attempt that still has it and never shortens it |
| MediaProgress.JobMovesAre | crates/db/src/jobs/transitions.rs:41-220 | how a worker ends its job, and how a job is retried, parked and released |
| MediaTables.MediaRepository.RegisterArtifactIntent | crates/db/src/media.rs:24-37 | refines the registration transaction: same result, same new tables, nothing changed on an error |
| MediaTables.MediaRepository.UpsertIntent | crates/db/src/media.rs:724-760 | refines the upsert on the path: the owner and the heir of a terminal owner win, a live owner blocks |
| MediaTables.MediaRepository.SaveSourceRevision | crates/db/src/media.rs:340-474 | refines saving a source revision, with or without completing the job |
| MediaTables.MediaRepository.SaveDerivative | crates/db/src/media.rs:529-603 | refines saving a derivative, rolling back all of it when any part fails |
| MediaTables.MediaRepository.CleanupTerminal | apps/worker/src/storage.rs:82-127 | removes exactly the listed intents that are due and whose file could be removed, each with its unreferenced file, and counts them |
| MediaStore.MediaFiles.Promote | crates/media/src/storage.rs:110-168 | promotion never changes what stands at a destination; it succeeds exactly when the destination is free or holds the same contents, also when a rival links first, and a failure of the link or of the removal is reported |
| MediaStore.PromotionIsWriteStep | crates/media/src/storage.rs:110-168 | the write step of the artifact protocol is such a promotion: same files, and the attempt goes on exactly on success |
| EventLog.PublishedExactly | crates/db/src/events.rs:185-246 | in every run of interleaved appends, commits, aborts and publishers, the published ids are exactly 1..last, each on one row |
| EventLog.PublishedAfterMigration | migrations/0004_app_event_publication_order.sql:1-14 | on a migrated log they are the old ids and everything from the old maximum to last |
| EventLog.PublicationsOnlyGrow | crates/db/src/events.rs:185-246 | a publication id is never taken back or moved, and each new one is greater than all earlier ones |
| EventLog.BatchIsPublished | crates/db/src/events.rs:185-246 | a publisher that read a committed row publishes it, whatever else happens until it commits, unless it rolls back or its numbers do not fit |
| EventLog.BatchKeepsOrder | crates/db/src/events.rs:205-229 | within one batch publication ids follow row ids |
| EventLog.NumberedPublishes | crates/db/src/events.rs:220-229 | numbering a batch adds exactly the ids last+1 .. last+size to the published ones |
| EventLog.ContentsStay | crates/db/src/events.rs:38-63 | in every run a row stays and says what it said |
| EventLog.AppendsAre | crates/db/src/events.rs:38-63 | appends wait under the next id with their content, become unpublished rows by a commit, and are forgotten by an abort |
| EventLog.PublishersAre | crates/db/src/events.rs:185-246 | a publisher takes exactly what is unpublished when it begins, and gives a batch up whose numbers do not fit 64 bits |
| EventLog.MigrationKeeps | migrations/0004_app_event_publication_order.sql:1-14 | the migration numbers every old event by its row id and keeps what it says |
| EventStream.StreamDelivers | crates/application/src/events.rs:47-137 | whatever the log does between a reader's reads, what it was given is a prefix of the events published above its origin, in order, without gap or duplicate, with their contents |
| EventStream.StreamCounts | crates/application/src/events.rs:91-137 | where all ids above the origin are in use the delivered ids are origin+1, origin+2 and so on, also when the replay was cut by its limit |
| EventStream.PollAdvances | crates/application/src/events.rs:124-132 | a reader with nothing waiting gets something from its next poll exactly when it is behind |
| EventStream.MissesOnlyAfterStaleId | crates/application/src/events.rs:56-62 | a reader is owed everything published after it opened, except exactly when the log was empty and the requested id above its last |
| EventStream.OpenInv | crates/application/src/events.rs:56-79 | whatever window it opens on, a reader starts at the requested id inside the window and at the latest id otherwise |
| EventStream.ReplayIsQuery | crates/db/src/events.rs:148-174 | asking for one row more tells whether there are more and changes nothing about the rows replayed |
| EventNotices.ToldToReload | crates/application/src/events.rs:66-75 | in every run a reader is told to reload exactly when the log it opened on could not catch it up, first of all, once, and with the latest id; no other reader is told |
| EventNotices.OpensWithNotice | crates/db/src/events.rs:137-145 | a reader opens with the notice alone exactly when the requested id is outside the window, and otherwise without one |
| EventNotices.ReplayIs | crates/db/src/events.rs:93-183 | the replay window in terms of boundary and request: at most a thousand events above the id, whether there are more, and when a reload is needed |
| EventNotices.TakenAreDelivered | crates/application/src/events.rs:91-100 | what a reader takes are its notices and, in order, the events it counts as delivered |
| EventTables.EventRepository.PublishPending | crates/db/src/events.rs:185-246 | the numbering loop refines the batch publication; it fails exactly when the numbers would not fit, and then changes nothing |
| EventTables.NumberRows | crates/db/src/events.rs:220-229 | one by one in the order of ids, rows get the number that their rank in the batch gives them |
| EventTables.EventRepository.ListAfter | crates/db/src/events.rs:65-91 | publishes what is pending, then returns the first events above the id |
| EventTables.EventRepository.ReplayWindow | crates/db/src/events.rs:93-183 | refines the replay window: limit check, empty log, no id, id outside the window, bounded replay |
| EventTables.OpenedEventStream.Turn | crates/application/src/events.rs:91-137 | one turn of the stream's loop is the reader's taking or polling step, and changes neither stream nor log on an error |
| EventTables.OpenAfter | crates/application/src/events.rs:47-79 | opening yields the reader that the opening step yields |
| EventTables.EventRepository.Append | crates/db/src/events.rs:38-63 | a committed append adds one unpublished row under a fresh id |
| RefreshTheorems.NoLostUpdate | frontend/src/lib/resource-refresh.ts:31-147 | in every run, an idle coordinator that may work shows the version it was told last, as computed from the calls alone, or has failed on it; timer and refresh are never both pending |
| RefreshTheorems.KnowsWhatItWasTold | frontend/src/lib/resource-refresh.ts:31-85 | in every run the coordinator's latest version, pause, activity and disposal are what the calls before the disposal say, with merging |
| RefreshTheorems.ShowsWhatItWasTold | frontend/src/lib/resource-refresh.ts:87-147 | from every run, left alone with succeeding refreshes, it comes to rest after at most three events on the version it was told last, unless that one had failed |
| RefreshTheorems.BeginsTheLatest | frontend/src/lib/resource-refresh.ts:87-130 | a call begins at most one refresh, of the latest version, only when there is something to refresh and, with a delay, only from the timer or a retry |
| RefreshTheorems.TimerWaitsForWork | frontend/src/lib/resource-refresh.ts:37-110 | the timer is set only with a delay, and whatever leaves nothing to refresh stops it |
| RefreshTheorems.FailureFate | frontend/src/lib/resource-refresh.ts:37-147 | exactly which calls remember and which forget that a version failed |
| RefreshTheorems.RetryBegins | frontend/src/lib/resource-refresh.ts:66-78 | a retry of a failure begins exactly one refresh of the latest version, at once |
| RefreshTheorems.RetryNeedsFailure | frontend/src/lib/resource-refresh.ts:66-73 | a retry without a failure, or after the disposal, does nothing; during a refresh it is only noted |
| RefreshTheorems.RetryInFlight | frontend/src/lib/resource-refresh.ts:66-147 | a refresh that fails, with nothing marked or disposed since it began, is remembered as failed exactly when no retry was asked for meanwhile |
| RefreshModel.FlightOutcome | frontend/src/lib/resource-refresh.ts:112-147 | while a refresh is under way and at its end, the version shown changes only by being marked and not after a disposal; the refresh itself changes it exactly when it succeeds and nothing was marked or disposed since it began, and then to its target |
| RefreshModel.StartsAreCharged | frontend/src/lib/resource-refresh.ts:87-147 | refreshes started never outnumber the calls of start, observe, markCurrent and retry |
| RefreshModel.ShowsLatest | frontend/src/lib/resource-refresh.ts:87-147 | left alone with succeeding refreshes the coordinator comes to rest after at most three events, on the latest version unless that one had failed |
| RefreshModel.ApplyInv | frontend/src/lib/resource-refresh.ts:31-158 | every call keeps the invariant: one of timer and refresh at most, a refresh under way exactly while running, nothing left undone when idle |
| RefreshCoordinator.ResourceRefreshCoordinator.constructor | frontend/src/lib/resource-refresh.ts:21-29 | a new coordinator is active exactly when it has a version |
| RefreshCoordinator.ResourceRefreshCoordinator.Start | frontend/src/lib/resource-refresh.ts:31-35 | refines the start step and keeps the invariant |
| RefreshCoordinator.ResourceRefreshCoordinator.Observe | frontend/src/lib/resource-refresh.ts:37-51 | refines the observe step and keeps the invariant |
| RefreshCoordinator.ResourceRefreshCoordinator.MarkCurrent | frontend/src/lib/resource-refresh.ts:53-64 | refines the marking step, merging versions when told how |
| RefreshCoordinator.ResourceRefreshCoordinator.Retry | frontend/src/lib/resource-refresh.ts:66-78 | refines the retry step: remembered while running, nothing without a failure |
| RefreshCoordinator.ResourceRefreshCoordinator.Dispose | frontend/src/lib/resource-refresh.ts:80-85 | refines the disposal step |
| RefreshCoordinator.ResourceRefreshCoordinator.TimerFires | frontend/src/lib/resource-refresh.ts:103-106 | refines the firing of the timer |
| RefreshCoordinator.ResourceRefreshCoordinator.RefreshEnds | frontend/src/lib/resource-refresh.ts:128-147 | refines the end of a refresh, successful or not |
| LoginTheorems.ThresholdHolds | crates/db/src/auth.rs:236-305 | in every run of concurrent attempts that are judged within their leases, each bucket's failures and live reservations together never exceed its threshold, across window resets and successes |
| LoginTheorems.ExcessIsLate | crates/db/src/auth.rs:265-305 | without that condition the excess is at most the number of failures recorded after their reservation ran out |
| LoginLateness.LateFailuresExceed | crates/db/src/auth.rs:265-305 | that bound is tight: for every threshold, every lease and every number of late failures some run reaches threshold plus that number |
| LoginTheorems.ThresholdSetsCooldown | crates/db/src/auth.rs:278-295 | in every run a bucket whose failures have reached the threshold has a cooldown |
| LoginTheorems.LockedOut | crates/db/src/auth.rs:395-402 | from then on nobody is admitted to the bucket and neither its count nor its cooldown changes, until an attempt begins after the cooldown |
| LoginWindows.AdmissionIs | crates/db/src/auth.rs:368-461 | an attempt is admitted exactly when its bucket does not cool down and the failures of its window with the live reservations are below the threshold; a window that is over starts again from nothing |
| LoginWindows.RefusalSaysWhen | crates/db/src/auth.rs:396-461 | a refusal names the wait to the end of the cooldown, to the first live reservation's end, or a cooldown from now, in whole seconds and one at least |
| LoginWindows.AdmittedAfterwards | crates/db/src/auth.rs:403-413 | in every state a later attempt is admitted once cooldown and window are over and fewer than threshold reservations are live, and its bucket starts from nothing |
| LoginWindows.LockoutEnds | crates/db/src/auth.rs:403-413 | from every state there is a time from which on, if nothing else happens, an attempt is admitted whenever it comes |
| LoginWindows.FailureCounts | crates/db/src/auth.rs:265-305 | a failure of a counted kind is one more in its bucket and sets the cooldown exactly when it reaches the threshold |
| LoginWindows.CooldownIsEarned | crates/db/src/auth.rs:265-305 | in every run no bucket cools down with fewer failures than the least threshold asked for |
| LoginTheorems.TimelyNotLate | crates/application/src/auth.rs:89-189 | attempts judged within their leases never record a late failure, because their reservations are still theirs |
| LoginTheorems.CoolingRefuses | crates/db/src/auth.rs:398-402 | a batch that asks for a cooling bucket is refused as a whole |
| LoginTheorems.EndingRemoves | crates/db/src/auth.rs:253-263 | however an attempt ends, exactly its own reservations are removed |
| LoginLimits.UsedWithinCap | crates/db/src/auth.rs:413-454 | the bound from any starting state, with any number of late failures counted in |
| LoginTables.Reserve | crates/db/src/auth.rs:368-461 | refines one reservation: cooldown, window restart, threshold over failures and live reservations, and when to retry |
| LoginTables.FirstToEnd | crates/db/src/auth.rs:426-437 | finds when the first live reservation runs out |
| LoginTables.LoginRateLimiter.ReserveRateLimit | crates/db/src/auth.rs:236-251 | reserves a whole batch in the order of bucket keys, or changes nothing |
| LoginTables.LoginRateLimiter.RecordRateLimitFailure | crates/db/src/auth.rs:265-305 | counts a failure in the buckets of the failed kinds and removes all the reservations |
| LoginTables.LoginRateLimiter.ReleaseRateLimit | crates/db/src/auth.rs:253-263 | removes the reservations and nothing else |
| LoginTables.LoginRateLimiter.ClearAfterSuccess | crates/db/src/auth.rs:135-147 | starts the buckets over, keeping their windows |
| SettingsLocks.BatchesAreSerial | crates/db/src/settings.rs:52-137 | however the small steps of concurrent batches interleave, the store is what the answered batches make of it one after the other as single compare and swaps, and each is answered as it would have been then |
| SettingsLocks.NeverDeadlocked | crates/db/src/settings.rs:56-70 | in every reachable state with an unfinished batch some batch can take a step |
| SettingsLocks.AllBatchesEnd | crates/db/src/settings.rs:56-70 | from every reachable state some schedule answers all batches |
| SettingsLocks.StepInv | crates/db/src/settings.rs:63-136 | every small step keeps locks exclusive and what each batch has checked true until it commits |
| SettingsBatch.CommitsWhenExpected | crates/db/src/settings.rs:57-88 | a batch commits exactly when its groups are distinct and every expected revision is the stored one, or both are absent |
| SettingsBatch.CommitMovesItsGroups | crates/db/src/settings.rs:92-121 | a committed batch moves each of its groups to its next revision with the new value and leaves every other group alone |
| SettingsBatch.CommitAnnouncesItsGroups | crates/db/src/settings.rs:122-132 | it appends one event for each of its groups, naming the revision reached |
| SettingsBatch.EventsInLockOrder | crates/db/src/settings.rs:90-134 | a batch's events come in lock order |
| SettingsTables.ReturnsWhatIsStored | crates/db/src/settings.rs:90-134 | a batch returns the rows it has stored, one for each write, in lock order |
| SettingsTables.SettingsRepository.UpdateMany | crates/db/src/settings.rs:52-137 | the check loop and the write loop refine the single compare and swap; an error changes nothing |
| SettingsTables.SettingsRepository.Write | crates/db/src/settings.rs:90-134 | rows, events and results of the write loop, in lock order |
| Sorting.SortBySorts | crates/db/src/settings.rs:56-56 | the batch is reordered, ascending in lock order |
| Sorting.SortByStable | crates/db/src/auth.rs:241-242 | reordering is stable |
| Sorting.RepeatsWhenDuplicate | crates/db/src/settings.rs:57-61 | after sorting, two neighbours share a key exactly when two entries of the batch do |
| RuleTheorems.RowShowsCurrentVersion | crates/application/src/rules.rs:254-288 | in every run the row of a published rule shows the name, switch and actions of its current version's definition, although it was written from an earlier read |
| RuleTheorems.DraftIsDetermined | crates/db/src/rules.rs:224-264 | base version and draft revision determine a rule's draft through its whole history |
| RuleTheorems.VersionsFormAChain | crates/db/src/rules.rs:311-328 | a rule's versions are exactly 1..n, each based on its predecessor, and a draft is based on the last |
| RuleTheorems.VersionsAreImmutable | migrations/0001_initial.sql:108-127 | a published version never changes and disappears only with its rule |
| RuleTheorems.PublishesTheDraftRead | crates/db/src/rules.rs:277-354 | a publication commits exactly when the draft it read is still the rule's draft and its name is free; it publishes that draft as the next version and removes it |
| RuleTheorems.PrepareFailsOnlyOnConflict | crates/application/src/rules.rs:258-273 | in every run reading a draft for publication fails exactly when base or revision differ, never because it does not parse or belongs to another rule, and otherwise yields the draft's definition, name, switch and actions |
| RuleHistory.DraftIsLastSubmitted | crates/db/src/rules.rs:203-275 | in every run a rule's draft is the definition that was submitted last and stored |
| RuleHistory.PublishesLastSubmitted | crates/db/src/rules.rs:277-354 | in every run what a publication publishes is the definition submitted last, both when it was read and when it is published |
| RuleHistory.SaveStores | crates/db/src/rules.rs:203-275 | when a save commits and with which error it fails; the draft is then what was submitted, at the next revision, and no other rule, draft or version changes |
| RuleHistory.CreateStores | crates/db/src/rules.rs:21-58 | when a rule is created and with which error it is not; its row and first draft show the definition |
| RuleHistory.PublishMoves | crates/db/src/rules.rs:277-354 | when a publication commits and with which error it fails; the draft becomes the next version, the row shows it, and nothing else changes |
| RuleHistory.DeleteRemoves | crates/db/src/rules.rs:168-191 | when a deletion commits, and that it takes the rule, its draft and its versions and nothing else |
| RuleHistory.ReadIsTheDraft | crates/application/src/rules.rs:258-273 | a client reads the rule's draft exactly at the base and revision it asked for |
| RuleHistory.RunsAreTransactions | crates/db/src/rules.rs:21-354 | a run is these transactions one after the other, each with all or none of its effect |
| RuleTables.RulesRepository.CreateRule | crates/db/src/rules.rs:21-58 | refines rule creation, with its first draft, or changes nothing |
| RuleTables.RulesRepository.SaveDraft | crates/db/src/rules.rs:203-275 | refines saving a draft, first or next, or changes nothing |
| RuleTables.RulesRepository.SaveSubmitted | crates/application/src/rules.rs:208-229 | parses before it saves, and checks that the definition is for the rule |
| RuleTables.RulesRepository.PublishVersion | crates/db/src/rules.rs:277-354 | refines publishing, or changes nothing |
| RuleTables.RulesRepository.DeleteRule | crates/db/src/rules.rs:168-191 | deletes a rule with its draft and versions exactly at the expected revision |
| RateGate.RateIsKept | crates/pixiv/src/limit.rs:65-77 | no run puts more than the configured number of slots into any half-open window exactly when that number divides the window |
| RateGate.WindowHolds | crates/pixiv/src/limit.rs:79-87 | n slots in one window take n-1 intervals of it |
| RateGate.SlotIsNear | crates/pixiv/src/limit.rs:27-42 | in every run a caller with a permit gets a slot within one interval for each permit and one for each caller that gave up in its sleep |
| RateGate.SlotWithinConcurrency | crates/pixiv/src/limit.rs:27-42 | without cancellations the wait is at most one interval for each permit |
| RateGate.PermitsAreKept | crates/pixiv/src/limit.rs:27-57 | in every run of a gate, with a rate or without, permits free and held add up to the concurrency |
| RateGate.EntersAtOnce | crates/pixiv/src/limit.rs:36-38 | in every run of a gate without a rate nobody sleeps: a caller with a permit enters at once |
| RateGate.LeavingFrees | crates/pixiv/src/limit.rs:55-57 | a caller that leaves, after its request or by giving up before, frees its permit and no other |
| RateGate.NewGate | crates/pixiv/src/limit.rs:11-25 | a gate exists exactly for a positive concurrency and either no rate or one with a positive number of requests and a window of at least one nanosecond each; the concurrency is checked first |
| RateGate.PixivRequestGate.TryAcquire | crates/pixiv/src/limit.rs:30-35 | takes a permit exactly when one is left |
| RateGate.PixivRequestGate.Wait | crates/pixiv/src/limit.rs:79-87 | reserves the next slot, never before now, or enters at once without a rate |
| RateGate.PixivRequestGate.Release | crates/pixiv/src/limit.rs:55-57 | gives the permit back |
| ZipDirectory.CentralDirectoryEntryCount | crates/media/src/ugoira.rs:266-293 | returns n exactly when the bytes from the start are n central directory headers and then at least four bytes that begin none; otherwise it fails, and it always ends |
| ZipDirectory.DecodeEncoded | crates/media/src/ugoira.rs:266-293 | walking over written headers finds exactly them |
| ZipDirectory.EncodeAllDecoded | crates/media/src/ugoira.rs:266-293 | whatever the walk accepts is the encoding of the headers it read |
| ZipDirectory.DirectoryUnique | crates/media/src/ugoira.rs:273-292 | there is at most one count |
| UgoiraArchive.IndexCollapses | crates/media/src/ugoira.rs:225-228 | an index by name is as long as the directory exactly when no name repeats, and then it is the directory |
| UgoiraArchive.CountNoticesRepeats | crates/media/src/ugoira.rs:223-228 | the count check passes exactly when all headers in the bytes have different names |
| UgoiraArchive.ValidatedArchive | crates/media/src/ugoira.rs:214-264 | accepts exactly the archives that pass every check, and reports a wrong count, overlapping entries or the first faulty entry by its own error |
| UgoiraArchive.CheckEntries | crates/media/src/ugoira.rs:235-259 | finds the first faulty entry, if any |
| UgoiraArchive.AcceptableExactly | crates/media/src/ugoira.rs:214-264 | an archive is acceptable exactly when its directory is counted, nothing overlaps, and its entries are the manifest's files in order, each readable, a plain file name, not encrypted and not empty |
| UgoiraArchive.FaultIs | crates/media/src/ugoira.rs:235-259 | which error each entry gets, the first that applies |
| UgoiraArchive.AcceptedIsTheManifest | crates/media/src/ugoira.rs:235-263 | an accepted archive holds the manifest's files, in order and pairwise distinct |
| UgoiraArchive.AcceptedHidesNothing | crates/media/src/ugoira.rs:214-264 | it lists every record of its directory, each one of the manifest's files |
| Bookmarks.ReconcileReplaces | crates/db/src/bookmarks.rs:172-297 | a full reconcile makes the active bookmarks exactly the known works of the list, private winning over public, and leaves other accounts alone |
| Bookmarks.AnnouncedWhenChanged | crates/db/src/bookmarks.rs:293-333 | revision and event move, by one, exactly when the map from active works to visibility changed |
| Bookmarks.ReconcileTwice | crates/db/src/bookmarks.rs:172-297 | repeating a reconcile announces nothing |
| Bookmarks.ReconcileKeepsRows | crates/db/src/bookmarks.rs:220-246 | no row is lost, and remote ids and first sightings stay |
| Bookmarks.ReconcileStamps | crates/db/src/bookmarks.rs:172-297 | listed works are seen now, dropped ones end now, and new rows were first seen now |
| Bookmarks.AddIs | crates/db/src/bookmarks.rs:27-85 | the row of an added bookmark, when it is refused, and that it is announced exactly when the row differs from before |
| Bookmarks.RemoveIs | crates/db/src/bookmarks.rs:109-136 | an active bookmark is deactivated and announced, any other left alone |
| Bookmarks.RunsAreSteps | crates/db/src/bookmarks.rs:27-297 | a run is reconciles, additions and removals one after the other |
| Bookmarks.RevisionsAreConsecutive | crates/db/src/bookmarks.rs:299-333 | over every run an account announces the revisions 1, 2, 3 and so on |
| Bookmarks.BookmarkRepository.ReconcileFull | crates/db/src/bookmarks.rs:172-297 | the transaction's statements refine the reconcile; without the lease nothing happens |
| Bookmarks.BookmarkRepository.MarkAdded | crates/db/src/bookmarks.rs:27-85 | refines adding one bookmark, announced when its row changed |
| Bookmarks.BookmarkRepository.MarkRemovedByWork | crates/db/src/bookmarks.rs:109-136 | refines removing one bookmark, announced when it was active |
| BookmarkPages.UnitMirrors | crates/application/src/subscriptions/bookmarks.rs:37-113 | against fixed lists, however cut into pages, a unit reconciles exactly when it reads in full, holds its lease and no work it read failed, and then the active bookmarks are the known works it read, private winning; they are those of the whole lists exactly when no known work stands only behind a page that broke the reading off |
| BookmarkPages.UnreconciledStaysDue | crates/application/src/subscriptions/bookmarks.rs:85-113 | whatever the server answers, a unit that does not reconcile leaves every bookmark as it was and announces nothing, and the next one is due in full again |
| BookmarkPages.DueAgain | crates/application/src/subscriptions/bookmarks.rs:17-30 | an account never reconciled is due in full, and after a reconcile it is due again exactly an interval later |
| BookmarkPages.UnitFailsWhen | crates/application/src/subscriptions/bookmarks.rs:55-113 | a unit ends as its reading, its worst work and its lease decide |
| BookmarkPages.PageIs | crates/pixiv/src/mapper.rs:370-403 | when a page is taken, and when it names a next one |
| BookmarkPages.ReadsBothLists | crates/application/src/subscriptions/bookmarks.rs:37-83 | a full reading of fixed lists is a beginning of the public list and then of the private one, in order, and all of both exactly when no page before the end is empty or states too small a total |
| BookmarkPages.ReadsTheNewest | crates/application/src/subscriptions/bookmarks.rs:74-77 | an incremental reading is a prefix of each list: as much as a full one would read, or an entry at least for each page it looks back |
| BookmarkPages.EmptyPagesDropAll | crates/pixiv/src/mapper.rs:391-402 | when the first pages of both lists come back empty, a full unit with its lease drops every bookmark of the account, however long the lists are |
| BookmarkPages.LookbackIsBounded | crates/application/src/subscriptions/bookmarks.rs:74-77 | whatever the server answers, an incremental reading asks for at least one page of each kind and for no more than it looks back |
| BookmarkPages.ProcessSettles | crates/application/src/subscriptions/discovery.rs:51-125 | nothing is left to retry exactly when every listed work was saved or passed over for good; the works known then are those before and those saved |
| BookmarkPages.SortedReconciles | crates/application/src/subscriptions/bookmarks.rs:98-99 | sorting the entries before the reconcile does not change what it does |
| BookmarkPages.ReadPages | crates/pixiv/src/mapper.rs:370-403 | the page loop ends for every server, as the offset grows within 32 bits, and reads what the pages say |
| BookmarkPages.SaveWorks | crates/application/src/subscriptions/discovery.rs:60-124 | refines the processing of the listed works, each once; what was saved stays saved when a later one fails |
| BookmarkPages.RunUnit | crates/application/src/subscriptions/bookmarks.rs:7-124 | refines the whole unit: when it is due in full, both readings, the saving and the reconcile |
| FollowingTheorems.FetchIsTheUnion | crates/application/src/following.rs:618-654 | against fixed lists, however cut into pages, the refresh collects the authors of what it read of both, each once, private winning; these are the authors of both lists exactly when none stands only behind a page that broke the reading off |
| FollowingTheorems.FetchIsWhole | crates/pixiv/src/mapper.rs:419-430 | when nobody is listed twice, it collects the authors of both lists exactly when no page before the end is empty or states too small a total |
| FollowingTheorems.EmptyPagesDropAll | crates/pixiv/src/mapper.rs:419-430 | when the first pages of both lists come back empty, a refresh drops every author, however long the lists are |
| Text.TrimIs | crates/db/src/following.rs:381-399 | trimming takes all the white space around a name and nothing else |
| Text.BlankIsEmpty | crates/db/src/following.rs:384-384 | a name is blank exactly when nothing is left of it |
| FollowingSteps.PageIs | crates/pixiv/src/mapper.rs:405-431 | when a page of followed authors is taken, with which error it is not, and when it names a next one |
| FollowingSteps.CollectedAreDescribed | crates/application/src/following.rs:618-654 | name and picture of a collected author are those of the last entry read for it, of the private list first |
| FollowingSteps.SwitchFailsWhen | crates/db/src/following.rs:220-278 | a switch fails exactly for unusable ids, or when one is not followed |
| FollowingSteps.RemoveIs | crates/db/src/following.rs:130-152 | removing an author takes its row and its exclusion and nothing else |
| FollowingSteps.CollectIs | crates/db/src/following.rs:320-351 | a collection is noted for every author that is switched on, and nothing else changes |
| FollowingSteps.SyncNeeds | crates/db/src/following.rs:381-399 | a snapshot is refused exactly for an id that is not positive, a blank name, or a repeated id |
| FollowingSteps.AddIs | crates/db/src/following.rs:94-128 | an added author's row is what was added, under its trimmed name, and keeps when it was last collected |
| FollowingTables.FetchPages | crates/application/src/following.rs:630-653 | the page loop ends for every server, as the offset grows within 32 bits, and collects what the pages say |
| FollowingTheorems.SyncMirrors | crates/db/src/following.rs:32-92 | a synchronisation makes the table the snapshot and keeps when each author was last collected |
| FollowingTheorems.RefreshMirrors | crates/application/src/following.rs:604-672 | a whole refresh leaves in the table exactly the authors of what it read of both lists, each switched off only if it was, and those of the whole lists exactly when none stands only behind a page that broke the reading off |
| FollowingTheorems.SyncKeepsSwitch | crates/db/src/following.rs:79-91 | after a synchronisation an author is switched off exactly when it was before and is in the snapshot |
| FollowingTheorems.RefollowedIsEnabled | migrations/0001_initial.sql:349-357 | unfollowing and following again, with a refresh after each, switches an author on |
| FollowingTheorems.SwitchIsKept | crates/db/src/following.rs:154-177 | an author stays switched on or off through every run that neither switches it nor lets it go |
| FollowingTheorems.SwitchesExactly | crates/db/src/following.rs:220-278 | a switch takes effect on all its authors and nobody else, or on nobody when one is missing |
| FollowingTables.FollowingRepository.SyncAuthors | crates/db/src/following.rs:32-92 | the upsert loop and the deletion refine the synchronisation; an error changes nothing |
| FollowingTables.FollowingRepository.SetEnabledMany | crates/db/src/following.rs:220-278 | refines the switch and its errors |
| FollowingTables.FollowingRepository.RemoveAuthor | crates/db/src/following.rs:130-152 | removes one author with its exclusion |
| FollowingTables.FollowingRepository.MarkEnabledCollected | crates/db/src/following.rs:320-351 | notes the collection of every author that is switched on |
| FollowingTables.Validate | crates/db/src/following.rs:381-399 | accepts exactly snapshots with positive, distinct ids and names that are not blank |
| FollowingTables.RefreshWithLease | crates/application/src/following.rs:604-672 | refines the refresh; any failure leaves the table as it was |
| MediaUsage.MediaDirectorySize | crates/application/src/system.rs:430-456 | the walk with a stack returns the sum of all regular files below, kept to 64 bits, exactly when all of the tree can be read |
| MediaUsage.BytesAreLeaves | crates/application/src/system.rs:430-456 | the bytes below a directory are those of the regular files among all its entries |
| MediaUsage.BrokenIsALeaf | crates/application/src/system.rs:438-452 | a tree cannot be read exactly when one of its entries has no size, no listing or no type |
| MediaUsage.SaturatesAt64Bits | crates/application/src/system.rs:452-452 | the sum is exact as long as it fits 64 bits and the greatest number after that |
| MediaUsage.OneScanAtATime | crates/application/src/system.rs:189-223 | in every run at most one scan is under way, and whoever waits has one to wait for |
| MediaUsage.AnswersAreRecent | crates/application/src/system.rs:189-240 | each request waits or has one answer: a scan that ended after it came, or the latest successful measurement, younger than the cache's lifetime |
| MediaUsage.AskIsAnswered | crates/application/src/system.rs:189-223 | in every run a new request is answered at once, without a scan, exactly when the latest successful measurement is younger than 15 seconds; otherwise it waits for a scan |
| MediaUsage.EndAnswersAll | crates/application/src/system.rs:225-240 | in every run the end of a scan answers all who waited with its result |
| MediaUsage.RunsAreSteps | crates/application/src/system.rs:189-240 | each step of a run changes what it is about |
| MediaUsage.MediaUsageTracker.Measure | crates/application/src/system.rs:189-223 | refines asking, and keeps the invariant |
| MediaUsage.MediaUsageTracker.FinishScan | crates/application/src/system.rs:225-240 | refines the end of a scan, which answers everyone who waited |
| Purge.DeletedAtMostOnce | crates/db/src/trash.rs:231-310 | over every run a work is announced as deleted at most once, and is then gone |
| Purge.CompletedJobDeleted | crates/db/src/trash.rs:208-229 | a job completed as a purge has its work's deletion in the log |
| Purge.JobCompletes | crates/db/src/trash.rs:208-310 | in every run a job completes a purge exactly when it holds its lease and the work is being purged from the trash or was deleted before; it announces its completion, and only in the first case a deletion, with the marker in the same step |
| PurgeProgress.BegunPurgeCompletes | crates/db/src/trash.rs:80-112 | a trashed work, however often its purge failed, is deleted by beginning the purge and completing it under a lease, whatever happens in between short of a failure or another deletion |
| PurgeProgress.BeginStarts | crates/db/src/trash.rs:80-112 | beginning succeeds exactly for a work with a trash entry, whose purge runs then, with one more attempt and no failures unless it ran already |
| PurgeProgress.FailRecords | crates/db/src/trash.rs:160-193 | a failure is recorded exactly for a running purge with at least one failed file |
| PurgeProgress.CompleteDeletes | crates/db/src/trash.rs:231-310 | when a completion commits and with which error it fails, and all that it changes and announces |
| PurgeProgress.JobFailsWhen | crates/db/src/trash.rs:208-229 | why a job does not complete a purge: an unknown method, a lost lease, a work that never was, or a purge that does not run |
| PurgeProgress.OutrightDeletes | crates/db/src/works/deletion_markers.rs:7-60 | a Pixiv id is deleted outright with whatever work has it, and marked and announced in any case |
| PurgeProgress.RunsAreTransactions | crates/db/src/trash.rs:63-310 | a run is these transactions one after the other, each with all or none of its effect |
| PurgeProgress.JobsAreTransactions | crates/db/src/trash.rs:208-229 | the same for completions by a job, which record what they completed |
| Purge.TrashRepository.BeginPurge | crates/db/src/trash.rs:80-112 | refines beginning or resuming a purge |
| Purge.TrashRepository.RecordFailure | crates/db/src/trash.rs:160-193 | refines recording a failure |
| Purge.TrashRepository.CompletePurge | crates/db/src/trash.rs:231-310 | refines the deletion of the work, its marker and both events |
| Purge.TrashRepository.CompletePurgeJob | crates/db/src/trash.rs:208-229 | completes job and purge together with their events, or neither |
| Scheduling.NewWeights | crates/application/src/jobs.rs:198-220 | weights exist exactly when none of the four is zero |
| Scheduling.WindowIsFair | crates/application/src/jobs.rs:220-270 | in any window of as many ticks as the weights add up to, each priority is primary its weight times |
| Scheduling.FallbackIsAll | crates/domain/src/job.rs:385-401 | the list tried holds all four priorities, the primary first |
| Scheduling.ScheduleIs | crates/domain/src/subscription.rs:85-104 | a schedule has an interval of 15 minutes to 30 days and up to 7 pages to look back |
| Scheduling.QueueQuotaRotation.NextSelection | crates/application/src/jobs.rs:264-270 | hands out the priority at the cursor with its fallbacks and moves the cursor round by one |
| WorkerLoop.TasksShareByWeight | apps/worker/src/runtime.rs:305-314 | in every run, of any consecutively started tasks as many as the weights add up to, each priority is tried first by as many as its weight |
| WorkerLoop.TasksAreBounded | apps/worker/src/runtime.rs:297-319 | in every run no more tasks are active at once than configured |
| WorkerLoop.RoomIsFilled | apps/worker/src/runtime.rs:305-314 | while the loop runs and accepts work, every tick starts a task until as many are active as configured |
| WorkerLoop.HandledIs | apps/worker/src/runtime.rs:297-319 | what a tick, the end of a task, the stop of claiming and a shutdown do to the loop |
| WorkerLoop.StoppedForGood | apps/worker/src/runtime.rs:299-306 | once claiming has stopped no further task starts |
| Scheduling.NextRunIsLeast | crates/domain/src/subscription.rs:132-157 | the next run is the first instant of the grid strictly after now, to the nanosecond; it is refused only beyond the last date, and no integer operation overflows |
| Scheduling.NothingBetween | crates/domain/src/subscription.rs:132-157 | no instant of the grid lies between now and the next run |
| Scheduling.PlansStayOnGrid | apps/worker/src/scheduler.rs:46-69 | scan after scan, early or late, the planned time stays on the first one's grid and never goes back, and it moves exactly when the scan finds it due and a date is left, to after the scan |
| Sessions.KeptAlive | crates/db/src/auth.rs:157-205 | a session used with gaps of at most the idle timeout less the persist interval is accepted until its absolute lifetime ends |
| Sessions.NextUse | crates/db/src/auth.rs:165-198 | after any run of accepted uses the next is surely accepted within that gap, surely refused after the idle timeout, and always refused once the absolute lifetime is over |
| Sessions.RefusedForGood | crates/db/src/auth.rs:165-180 | a refused session stays refused |
| Sessions.UseIs | crates/db/src/auth.rs:157-205 | when a use is accepted, when it is written down, and what is written |
| Sessions.IssuedIs | crates/db/src/auth.rs:105-135 | when a new session expires |
| Sessions.WritesAreRare | crates/db/src/auth.rs:181-198 | in every run each write of a session's activity comes at least a persist interval after the one before |
| Sessions.SessionRepository.AuthenticateSession | crates/db/src/auth.rs:157-205 | refines one use of a session and returns when it expires |
| Sessions.SessionRepository.RevokeSession | crates/db/src/auth.rs:221-234 | revokes one session and no other |
| FollowLatest.MapFollowLatest | crates/pixiv/src/mapper.rs:225-281 | shows exactly the works of the page that have a thumbnail, in the page's order, or all thumbnails; the missing-thumbnail error cannot occur |
| FollowLatest.FirstOccurrencesAre | crates/pixiv/src/mapper.rs:255-268 | the shown ids are the known ids of the page, each once, in the order of their first places |
| FollowLatest.Collect | crates/pixiv/src/mapper.rs:225-253 | collects the thumbnails exactly when ids are positive and distinct and each work maps |
| FollowLatest.Drain | crates/pixiv/src/mapper.rs:255-268 | takes works out by the page's ids until an id is invalid |
| AsyncBatch.EachStartsOnce | frontend/src/lib/async-batch.ts:14-30 | under every interleaving operations start in order, each once, and never more than the bound at a time |
| AsyncBatch.FinishedIsTheMap | frontend/src/lib/async-batch.ts:14-31 | when all workers are done the array holds the outcome of every item, in order |
| AsyncBatch.SettledBatch.constructor | frontend/src/lib/async-batch.ts:8-30 | starts min(concurrency, items) workers on an empty array |
| AsyncBatch.SettledBatch.TakeNext | frontend/src/lib/async-batch.ts:15-16 | refines a worker's loop head and keeps every index claimed once |
| AsyncBatch.SettledBatch.Settle | frontend/src/lib/async-batch.ts:17-24 | refines the end of an await: the outcome is written where its item stood |
| AsyncBatch.StepsAreBounded | frontend/src/lib/async-batch.ts:14-26 | every turn of an unfinished worker brings the batch nearer to its end |
| AsyncBatch.BatchEnds | frontend/src/lib/async-batch.ts:14-31 | every batch can be finished, with the outcome of every item |

## Left out

- MediaConsistent: holds for runs whose takeovers displace nobody who can still do harm, because the code does not see to that; TakeoverIsSafe and RunIsSafe prove the condition exact.
- ReferencedFilesStay: assumes such takeovers for the removal of redundant copies alone; CleanerSparesReferenced needs no assumption, and MediaStragglers covers workers past their lease.
- KeptAlive: the settings are fixed during a run and uses do not go back in time.
- ThresholdHolds: a bucket's threshold is bounded by one value over the run; a change of the settings counts with its greatest threshold.
- RateIsKept: it is about reserved slots; a process that wakes late may send several requests close together.
- CountNoticesRepeats: the ZIP reader's index is taken to be built from the headers that stand in the bytes.
- FetchPages: the account's identity, the HTTP client and JSON decoding are parameters; a response is its users and its total.
- TasksShareByWeight: it is about the priority a task tries first; which job it then claims is up to the queue.
- NoLostUpdate: a version is taken to be the same as itself, which the `Options` type demands.
- AnswersAreRecent: a caller that stops waiting is not distinguished from one that waits.
- Media artifacts: intents are named by their path, which the database keeps unique; cleanup attempt counters, the fifteen-minute pause between listings, the enqueueing of derivative jobs and the removal of files by the trash purge are not modelled.
- Media artifacts: different items have different file names; file operations past a lease are events of `MediaStragglers`, not steps of the protocol itself.
- Event log: events are never pruned, and a listener's wake-ups only decide when a reader polls.
- Login limiter: the administrator row, the log of attempts and password verification do not affect the buckets and are not modelled.
- Settings: values are opaque, row identifiers and time stamps are left out, revisions are unbounded, and all writers go through the batch update.
- Rules: the condition tree is opaque, sort order, creators and events are left out, rule ids are never reused, and white space is the ASCII kind.
- Bookmarks: a work is identified by its Pixiv id, which is unique.
- UnitMirrors: the HTTP client, JSON decoding and the processing of a single work are parameters; a work that is not saved leaves the known works as they were.
- FetchIsTheUnion: the lists do not change while they are read; pages, and what they state as the total, are arbitrary.
- Purge: selecting expired works, restoring them and deleting their files are not modelled; the rest of the program may change works, trash entries and jobs in any way that deletes no work.
- Ugoira: image decoding and the size limits of the manifest validator are not modelled.
- Schedules: the compare and swap on the planned time and the listing of due subscriptions are not modelled.
- HTTP handlers, pages, cryptography, image conversion, the rule engine, gallery queries and import runs are not modelled.
