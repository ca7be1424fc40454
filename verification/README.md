# Rebecca: verified models of its state-keeping core

Rebecca keeps several copies of one truth: the database, Redis, backup files, the generated Xray
configuration, and the running core and nodes. This project models the code that has to keep them in
agreement, and proves that it does, or exactly when it does. Every file is one module; code that updates
objects is modelled by classes and methods with loops, each proved against a specification function about
which the theorems are stated.

`dafny verify dfyconfig.toml` checks everything.

| file | what it models |
|---|---|
| `RedisLists.dfy` | JSON queues in Redis lists; limited pops over a key scan |
| `UsageSync.dfy` | draining admin and service usage with retries and put-back |
| `SnapshotSync.dfy` | hourly snapshots: group, then update or insert |
| `PendingUsage.dfy` | the pending queue and the fast counter of each user, and the clean-up after a sync |
| `UsageService.dfy` | the scheduled user sync: limited pop, batches of twenty users, retries |
| `UsageRecording.dfy` | the recording job with its backup and write-through, a restart, and the sync, each on its own |
| `UsageInterleaving.dfy` | their steps in any order, with failures, crashes and restarts in between |
| `PendingBackup.dfy` | backup files, and crash recovery through all of the above |
| `Review.dfy` | the review job with cursors and a time budget |
| `NodeSession.dfy` | the REST node's session, handle, flag and health cache |
| `NodeStatus.dfy` | the database status of a node under interleaved operations |
| `HostMap.dfy` | the service host map and its cache |
| `Inbounds.dfy`, `Eligibility.dfy`, `ClientTable.dfy`, `HotUpdate.dfy` | inbound indexes, who may use what, full generation, and hot edits as its refinement |
| `Subscription.dfy` | subscription links: the cached validators against the database alone |
| `Json.dfy`, `Merge.dfy`, `Migration.dfy` | nested merges and configuration migration |
| `PortPicker.dfy` | the free port search |
| `Notifications.dfy` | the webhook retry queue |
| `RealityKey.dfy` | the canonical form of REALITY private keys |
| `Prelude.dfy`, `Text.dfy` | options, dictionary lookups, Python text operations |

## Where the code and its intent part

Each of these comes with a theorem that says exactly when the code does what it is meant to, in terms of
what holds before the call, and with a run or input on which it does not.

- A hot edit and a full rebuild differ in two cases, and no others (`HotUpdate.EditRefinesRebuildIff`). For a
  password protocol without a stored password and without a key, generation adds a client with a null
  password, because the default never replaces the null that the settings already hold, and the edit adds
  none (`NullPasswordDiffers`). For a Trojan proxy with a flow on an inbound that supports it, generation
  writes the flow, and the handler message has no place for it (`TrojanFlowDiffers`).
- The recording job and the sync share no lock. What a sync pops between the queueing and the clean-up of a
  recording it charges, and the write-through charges it again, without any crash, restart or failure
  (`UsageInterleaving.OverlapChargesTwice`). A recording is exact for its users iff the syncs meanwhile pop just
  what was queued before it (`RecordingExactIff`); any number of jobs without restarts are exact for a user iff
  the syncs drop all that they pop of the user, as when they pop nothing (`UndisturbedExactIff`), and nobody is
  charged more than twice (`AtMostTwice`).
- Every recording leaves its updates in the backup file, which only a sync that had something to commit
  deletes. A restart therefore queues everything recorded since then once more
  (`UsageInterleaving.RestartQueuesEverythingAgain`): a sync charges it twice (`SyncChargesTwice`), unless a
  recording about the user comes first (`RecordingHealsRestart`). And a sync deletes the file although its
  limit left updates queued (`UsageRecording.SyncLeavesQueueWithoutBackup`). `RestartExactIff` and `CrashExactIff`
  say when nothing is miscounted.
- The user sync drops the counters of the users it popped. That loses track of what the pop's limit left
  queued and of what is pushed during the sync. The counters stay exact iff the list of each popped user is
  empty again by then: popped whole, or cleared since, and not pushed to after that
  (`PendingUsage.UserSyncSafeIff`; `UnderstatedRun` and `PushedMeanwhileRun` have runs for every limit).
- The user sync loses what it popped for a batch that fails and for all later ones, or only for the later ones
  if the batch is committed and an exception follows (`UsageService.UserTrafficConservedIff`); the admin and
  service syncs it calls lose everything they drained when their commit fails
  (`UsageSync.SyncOnceConservesIff`). The copies with retry and put-back lose nothing (`SyncConserves`), but
  nothing calls them.
- A next plan that waits for a first connection makes the reset return nothing; the report that follows
  raises, and the review job stays in front of that user (`Review.ActivePhaseRaisesIff`, `BlockedForever`,
  `BlockedTableNeverChanges`).
- A node that accepts a connection with a null session id can leave an open handle and a cached (true, true)
  without a session (`NodeSession.ConnectExact`, `NullIdBreaksInvariant`).
- A disabled node with a data limit can be moved to `limited` by the usage job while its registered handle has
  or is about to get a session, and `limited` is lost to a connect or restart that has passed its check, or
  to the usage job after the limit was raised
  (`NodeStatus.DisabledForeverIff`, `LimitedIsKeptIff`, `LimitedLostMidConnect`).
- With Redis available the lookup behind a token returns rows that are only marked deleted, and stale
  copies of users no longer stored (`Subscription.TokenTransparentIff`, `DeletedUserIsAccepted`). The key-only
  validator accepts a copy that outlived its row (`KeyOnlyTransparentIff`, `StaleCopyIsAccepted`), and a stale
  key index refuses the owner of a key (`NamedKeyTransparentIff`).
- Migration turns an empty `Host` header from one empty host into none (`Migration.ResolvedHostKeptIff`).
- A tag with a comma would exclude inbounds nobody excluded (`Eligibility.CommaExcludesOthers`); validation
  bans it.

Two more things a caller may not expect: the notification loop re-reads entries that are not due, so it drains
the queue completely and spins until the latest entry is due (`Notifications.NotificationQueue.Drain`); and the
second base64 attempt on a REALITY key silently drops `-` and `_` (`RealityKey.AlphabetKeyExact`).

## Assumptions

Database commits are atomic, and the rows of a batch are locked from their reading to its commit. Queueing one update, clearing pending keys, and reading or writing a file are one
step each. One process runs the jobs, each at most once at a time. Redis commands succeed and keys do not expire. Threaded functions take effect
in the order issued. Inbound tags are unique (`_validate` only demands that each is present and has no comma). A
user has one proxy per type. Usernames and letter case are ASCII. A key scan may yield a key more than once.
Session ids are real, except in `NodeSession`. Times are instants; clocks, network replies, JSON number formatting and the outcome of each commit are parameters
over which the theorems quantify. Clients written into the configuration by hand do not carry the email of a user.

## Model

| member | source | states |
|---|---|---|
| `RedisLists.PopTakesOldestFirst` | app/redis/cache.py:889-923 | a limited pop takes the oldest values of a list, in order, and leaves the rest |
| `RedisLists.PopAllConserves` | app/redis/cache.py:889-923 | for any limit, and however often the scan yields a key, every queued value is either popped or still queued |
| `RedisLists.PopAllExtent` | app/redis/cache.py:1323-1376 | without a limit the scanned lists are emptied; a limit is never exceeded; for any scan |
| `RedisLists.FullPopLeavesNothing` | app/redis/cache.py:1323-1376 | a pop without a limit over every key leaves no list |
| `RedisLists.PopPending` | app/redis/cache.py:1323-1376 | the pop loop over the scan computes the specified items and remainder |
| `RedisLists.PopList` | app/redis/cache.py:889-923 | the inner loop: pops from the tail, skips what does not parse |
| `UsageSync.SyncConserves` | app/jobs/sync_redis_to_db.py:40-178 | one sync keeps committed plus pending usage of every stored owner, and an admin's lifetime minus current usage, for every sequence of commit outcomes |
| `UsageSync.SyncIsAllOrNothing` | app/jobs/sync_redis_to_db.py:64-108 | success means committed with empty lists; failure means no row changed and every backlog is whole |
| `UsageSync.CommitsIff` | app/jobs/sync_redis_to_db.py:64-105 | a call commits iff one of three attempts does and each before it ends in a deadlock or for want of a connection |
| `UsageSync.HistoryConserves` | app/jobs/sync_redis_to_db.py:40-178 | over any history of pushes and syncs of either copy, committed plus pending is the start plus what was pushed, less exactly what was pending when a commit without put-back failed |
| `UsageSync.SyncOnceConservesIff` | app/services/usage_service.py:257-333 | the copy that the job runs conserves an owner's traffic iff its commit succeeds or nothing was drained for the owner; otherwise all that was drained is lost |
| `UsageSync.CopiesAgreeOnCommit` | app/services/usage_service.py:257-333 | when they commit, both copies do the same |
| `UsageSync.SyncsReturn` | app/services/usage_service.py:257-333 | both copies answer true iff they drained something and commit |
| `UsageSync.UsageStore.Pop` | app/jobs/sync_redis_to_db.py:52-57 | `rpop`: the oldest entry; the key disappears with its last entry |
| `UsageSync.UsageStore.DrainOne` | app/jobs/sync_redis_to_db.py:54-62 | one list is emptied into the sums |
| `UsageSync.UsageStore.Drain` | app/jobs/sync_redis_to_db.py:49-62 | the lists are emptied and the sums are the totals per owner, in any scan order with repetitions |
| `UsageSync.UsageStore.CommitOrPutBack` | app/jobs/sync_redis_to_db.py:64-105 | at most three attempts; a commit publishes the charged rows, final failure restores the queues |
| `UsageSync.UsageStore.Sync` | app/jobs/sync_redis_to_db.py:40-178 | the whole call refines the ledger transition the conservation laws are about |
| `UsageSync.UsageStore.SyncOnce` | app/services/usage_service.py:257-333 | the running copy refines the transition that law is about |
| `UsageSync.UsageStore.PutBack` | app/jobs/sync_redis_to_db.py:98-101 | each drained sum returns as one entry |
| `SnapshotSync.BatchedEqualsOneByOne` | app/jobs/sync_redis_to_db.py:192-295 | grouping by key and writing each sum once gives the very table of one upsert per snapshot |
| `SnapshotSync.UpsertAllAdds` | app/jobs/sync_redis_to_db.py:192-295 | each key's row grows by exactly its snapshots |
| `SnapshotSync.UpsertAllRows` | app/jobs/sync_redis_to_db.py:192-295 | a key has a row afterwards iff it had one or was mentioned |
| `SnapshotSync.UpsertAllUnique` | app/jobs/sync_redis_to_db.py:192-295 | one row per key is kept |
| `SnapshotSync.OrderDoesNotMatter` | app/jobs/sync_redis_to_db.py:192-295 | any order of the snapshots gives the same amounts |
| `SnapshotSync.OrderDoesNotMatterForRows` | app/jobs/sync_redis_to_db.py:192-295 | and the same set of rows |
| `SnapshotSync.UserSyncConserves` | app/jobs/sync_redis_to_db.py:181-302 | for every (user, node, hour), stored plus queued traffic is unchanged by a successful sync under any limit and any scan |
| `SnapshotSync.UserRowsStored` | app/jobs/sync_redis_to_db.py:196-242 | after a sync that commits there is a row for a user, node and hour iff there was one, or a snapshot was popped with a user id, those ids, and a text that is that time |
| `SnapshotSync.UserTrafficStored` | app/jobs/sync_redis_to_db.py:196-242 | and it has risen by the traffic of exactly these snapshots |
| `SnapshotSync.NodeRowsStored` | app/jobs/sync_redis_to_db.py:244-291 | the same for the rows of nodes |
| `SnapshotSync.NodeTrafficStored` | app/jobs/sync_redis_to_db.py:244-291 | and for their uplink and downlink |
| `SnapshotSync.NodeSyncConserves` | app/jobs/sync_redis_to_db.py:181-302 | the same for uplink and downlink of every (node, hour) |
| `SnapshotSync.UserRoundsConserve` | app/jobs/sync_redis_to_db.py:181-302 | so it is by any number of them |
| `SnapshotSync.NodeRoundsConserve` | app/jobs/sync_redis_to_db.py:181-302 | the same for nodes |
| `SnapshotSync.GroupByKey` | app/jobs/sync_redis_to_db.py:196-210 | the grouping loop sums per key, once per key |
| `SnapshotSync.FetchExisting` | app/jobs/sync_redis_to_db.py:214-228 | exactly the rows that the grouped keys already have |
| `SnapshotSync.WriteGroups` | app/jobs/sync_redis_to_db.py:230-242 | updating what exists and inserting the rest is one upsert per group |
| `SnapshotSync.WriteBatch` | app/jobs/sync_redis_to_db.py:192-295 | the whole batch equals one upsert per snapshot |
| `SnapshotSync.UsageTables.Sync` | app/jobs/sync_redis_to_db.py:181-302 | tables and lists after a call that commits or not; popped snapshots are not returned |
| `PendingUsage.StepKeepsInv` | app/redis/cache.py:856-993 | every operation keeps: counter = queued + popped since the last clear, absent iff both nil |
| `PendingUsage.ReadsAreExact` | app/redis/cache.py:926-977 | over every sequence of operations a read reports exactly queued plus popped deltas; the fallback sum never disagrees |
| `PendingUsage.OnlineReadsAreExact` | app/redis/cache.py:926-977 | and the last online time recorded since the user's last clear |
| `PendingUsage.FallbackIsQueued` | app/redis/cache.py:951-966 | as far as numbers survive the conversion, the fallback sum is what is queued |
| `PendingUsage.PopMovesDeltas` | app/redis/cache.py:889-923 | a limited pop moves each user's deltas from list to result, for any scan |
| `PendingUsage.UserSyncSafeIff` | app/services/usage_service.py:82-233 | popping under a limit, and dropping the counters of the popped users after whatever is recorded, read and cleared meanwhile, keeps every counter exact iff each popped user's list was popped whole or cleared since, and not pushed to after that |
| `PendingUsage.LoneSyncSafeIff` | app/services/usage_service.py:82-233 | with nothing in between, iff the limit falls in no user's list; without a limit it never does |
| `PendingUsage.PoppedWholeIff` | app/redis/cache.py:889-923 | a popped user is popped whole iff the limit does not fall in the user's list |
| `PendingUsage.CutIsPopped` | app/redis/cache.py:889-923 | the user in whose list it falls is popped |
| `PendingUsage.PushedMeanwhileRun` | app/services/usage_service.py:82-233 | for every limit, and without one, a reachable run on which an update pushed during the sync makes 8 queued bytes read as 3 |
| `PendingUsage.CutOffUserUnderstated` | app/services/usage_service.py:226-233 | later reads miss exactly what was queued when the counters were dropped |
| `PendingUsage.UnderstatedRun` | app/services/usage_service.py:82-233 | for every limit, a reachable run with 8 queued bytes that reads as 3 |
| `PendingUsage.PendingStore.CacheUserUsageUpdate` | app/redis/cache.py:856-886 | push, counter and latest online time |
| `PendingUsage.PendingStore.GetPendingUsageUpdates` | app/redis/cache.py:889-923 | the limited pop |
| `PendingUsage.PendingStore.GetUserPendingUsageState` | app/redis/cache.py:926-977 | counter or fallback sum, with the cached value written back |
| `PendingUsage.PendingStore.ClearUserPendingUsage` | app/redis/cache.py:980-993 | lists and counters of the given users disappear |
| `PendingUsage.PendingStore.DropCounters` | app/services/usage_service.py:226-231 | counters and times of the popped users disappear, their lists stay |
| `UsageService.UserTrafficConservedIff` | app/services/usage_service.py:82-222 | for every stored user and every way the attempts can end, before or after the commit, the call loses exactly what it popped for a user it does not charge: conserved iff that sum is nothing, or it is positive, the user's batch is committed and none before stops the call |
| `UsageService.CommittedSyncConserves` | app/services/usage_service.py:82-222 | with traffic that is not negative, a call that no batch stops conserves every stored user |
| `UsageService.FailedSyncShows` | app/services/usage_service.py:113-233 | after a call that fails half way a charged user is shown the popped sum twice, and one not charged what is in neither store any more |
| `UsageService.CommittedSyncShows` | app/services/usage_service.py:113-233 | after one that commits a user popped whole is shown as before |
| `UsageService.UsageJob.SyncUsers` | app/services/usage_service.py:82-233 | the loops refine the transition these laws are about |
| `UsageService.UsageJob.CommitBatches` | app/services/usage_service.py:107-222 | batches of twenty users in id order until one stops the call |
| `UsageService.UsageJob.CommitBatch` | app/services/usage_service.py:113-222 | one batch: nothing to commit without a positive sum, else up to three attempts; how it ends and what it charges |
| `UsageService.BatchEndIs` | app/services/usage_service.py:113-217 | how a batch ends: by the first of three attempts that is no deadlock |
| `UsageService.BatchOfTwenty` | app/services/usage_service.py:107-112 | users in ascending order, twenty to a batch |
| `UsageService.AnyPositiveIff` | app/services/usage_service.py:116-123 | there is something to commit iff the sum of some user is positive |
| `UsageService.Group` | app/services/usage_service.py:89-103 | the sums per user of the popped updates |
| `UsageRecording.RecordingAccounts` | app/jobs/usage/user_usage.py:538-551 | what the first so many steps of a recording do to the column, the queue and the file of a user |
| `UsageRecording.SyncAccounts` | app/services/usage_service.py:82-224 | the sync loses what it popped for a user it does not charge, and nothing else |
| `UsageRecording.RestartExactIff` | app/redis/pending_backup.py:218-250 | a restart is exact for a user iff the file holds what Redis has lost, and nothing if Redis has lost nothing |
| `UsageRecording.CrashExactIff` | app/jobs/usage/user_usage.py:396-551 | in any state, a crash in the middle of a recording and the restart after it are exact iff what was written through, what the file holds and what Redis keeps come to what was queued and recorded |
| `UsageRecording.CleanCrashExactIff` | app/jobs/usage/user_usage.py:396-551 | with nothing queued and nothing in the file: iff there was nothing to record, or it came after the queueing and Redis is kept, or after the saving and Redis is lost |
| `UsageRecording.SyncLeavesQueueWithoutBackup` | app/services/usage_service.py:217-224 | after a sync that had something to commit, losing Redis loses exactly what the sync left queued |
| `UsageRecording.UsageRecorder.RecordUserUsages` | app/jobs/usage/user_usage.py:396-417 | the steps of the recording job, up to a crash |
| `UsageRecording.UsageRecorder.RestoreAtStart` | app/redis/pending_backup.py:218-250 | the file is pushed into what Redis holds, and stays |
| `UsageRecording.UsageRecorder.SyncUsage` | app/services/usage_service.py:82-233 | the sync, with the deletion of the file |
| `UsageInterleaving.RunAccounts` | app/jobs/usage/user_usage.py:517-551 | over every order of the steps of recordings, syncs, failures, restarts and restores, the column, the hands of the sync and the queue of a user balance, and the account misses what was collected by exactly what was written through or restored less what was forgotten or dropped |
| `UsageInterleaving.StepBalances` | app/jobs/usage/user_usage.py:517-551 | what every single step moves, read off the state before it |
| `UsageInterleaving.RecordingExactIff` | app/jobs/usage/user_usage.py:538-551 | a recording with syncs anywhere inside it misses by what they dropped, what they popped of the user, and what was queued before: exact iff they popped just that much, or it is not about the user |
| `UsageInterleaving.UndisturbedExactIff` | app/jobs/usage/user_usage.py:538-551 | any number of recordings and syncs, interleaved in any way without restarts and failed writes, leave nothing queued and charge what was recorded and, again, what syncs popped and did not drop: exact iff they dropped all they popped |
| `UsageInterleaving.QueuedOnlyMeanwhile` | app/jobs/usage/user_usage.py:538-549 | in such runs there is something to pop only while a recording about the user is under way |
| `UsageInterleaving.AtMostTwice` | app/jobs/usage/user_usage.py:538-551 | in such runs nobody is charged less than was recorded or more than twice |
| `UsageInterleaving.OverlapChargesTwice` | app/services/usage_service.py:82-233 | for every update with traffic and every limit, the run on which a sync charges it before the write-through does |
| `UsageInterleaving.FileGrows` | app/redis/pending_backup.py:87-121 | until a sync deletes it the file grows by everything recorded, however the jobs interleave |
| `UsageInterleaving.RestartExactIff` | app/__init__.py:182-196 | a restart at any moment of any job keeps a user's account iff the file holds what the sync had popped, what was yet to be queued, and what Redis lost |
| `UsageInterleaving.RestartQueuesEverythingAgain` | app/redis/pending_backup.py:218-250 | after runs without restarts on which no sync deletes the file, a restart queues everything recorded once more |
| `UsageInterleaving.SyncChargesTwice` | app/services/usage_service.py:82-224 | a sync that then charges the user, whatever its limit, leaves it charged or queued twice for everything |
| `UsageInterleaving.RecordingHealsRestart` | app/jobs/usage/user_usage.py:538-551 | a recording about the user that comes first makes it exact again |
| `UsageInterleaving.RecordingRuns` | app/jobs/usage/user_usage.py:538-551 | steps of a recording with nothing in between are the job's transition, up to any crash |
| `UsageInterleaving.SyncRuns` | app/services/usage_service.py:82-233 | single `rpop`s, batches and clean-ups with nothing in between are the sync's transition, for any scan, limit and commit outcomes |
| `UsageInterleaving.RestartRuns` | app/redis/pending_backup.py:218-250 | a restore with nothing in between is the restart's transition |
| `PendingBackup.UserFileExact` | app/redis/pending_backup.py:87-121 | after any saves the user file has one entry per user with the summed delta and the latest time |
| `PendingBackup.LatestIs` | app/redis/pending_backup.py:95-119 | the latest time of a user is one of its times, and none is later |
| `PendingBackup.OwnerFilesExact` | app/redis/pending_backup.py:134-167 | the admin and service files hold the sums of everything saved |
| `PendingBackup.UserRecoveryExact` | app/redis/pending_backup.py:218-301 | restoring into an empty Redis makes every user's pending total the sum of saved deltas and its online time the latest saved |
| `PendingBackup.AdminRecoveryExact` | app/redis/pending_backup.py:218-301 | a committing sync then raises both counters of every stored admin by exactly what was saved |
| `PendingBackup.ServiceRecoveryExact` | app/redis/pending_backup.py:218-301 | the same for services |
| `PendingBackup.UserHoursRecoveryExact` | app/redis/pending_backup.py:180-301 | after any successful syncs, under any limits and scans, every (user, node, hour) has risen by the saved traffic less what is still queued, and by all of it once the lists are empty |
| `PendingBackup.NodeHoursRecoveryExact` | app/redis/pending_backup.py:180-301 | the same for uplink and downlink of every (node, hour) |
| `PendingBackup.NodeHourFullyRecovered` | app/redis/pending_backup.py:180-301 | with empty lists all that was saved has arrived |
| `PendingBackup.BackupStore.SaveUserUsage` | app/redis/pending_backup.py:87-121 | the user file after one save |
| `PendingBackup.BackupStore.MergeLoop` | app/redis/pending_backup.py:95-119 | the merging loops compute the specified merge |
| `PendingBackup.BackupStore.SaveAdminUsage` | app/redis/pending_backup.py:134-144 | the admin file after one save |
| `PendingBackup.BackupStore.SaveServiceUsage` | app/redis/pending_backup.py:157-167 | the service file after one save |
| `PendingBackup.BackupStore.AddLoop` | app/redis/pending_backup.py:140-142 | adding deltas per owner |
| `PendingBackup.BackupStore.SaveUsageSnapshots` | app/redis/pending_backup.py:180-205 | both snapshot files after one save |
| `PendingBackup.BackupStore.RestoreAll` | app/redis/pending_backup.py:218-301 | what each empty Redis store holds after the restore |
| `Review.EveryActiveUserIsReviewed` | app/jobs/review_users.py:109-186 | from any cursor, with n users active or on hold, 2n runs that do not reach a blocking user review every active user, for every batch size, every pattern of time-budget cuts and whatever happens to the on-hold phases |
| `Review.EveryActiveUserIsReviewedWithoutDelays` | app/jobs/review_users.py:109-186 | the same from the first table alone: no live user's plan waits for a first connection that has not happened |
| `Review.ActivePhaseRaisesIff` | app/jobs/review_users.py:120-186 | the active phase raises iff some active user above the cursor has a firing plan that waits for a first connection, lies within the batch, and no such user and no cut comes before it |
| `Review.ProcessRaisesIff` | app/jobs/review_users.py:125-186 | a pass raises iff an element raises with no cut and no raise before it |
| `Review.RunAdvances` | app/jobs/review_users.py:120-186 | each run reviews an active user or brings its turn nearer |
| `Review.ReviewedUsersAreSettled` | app/jobs/review_users.py:120-186 | after any run a reviewed user who is still active is within its limits, has moved to its next plan, or its status write failed; every other user that was active is as before |
| `Review.ReviewedUserColumns` | app/db/crud/user.py:1644-1675 | what a reviewed user's row holds after the run, column by column: limit, expiry, usage, status and plans after a plan that fires, else the status by limit and expiry |
| `Review.BlocksColumns` | app/db/crud/user.py:1644-1652 | who blocks the job: an active user above the cursor whose plan fires, waits for a first connection, and has used nothing |
| `Review.HeldUserColumns` | app/jobs/review_users.py:197-226 | when an on-hold user starts, and what the row then holds; without a duration it raises |
| `Review.HoldPhaseHandles` | app/jobs/review_users.py:188-247 | an on-hold phase that raises nothing has handled every on-hold user from its old cursor to its new one, and touched nobody else |
| `Review.BlockedRun` | app/db/crud/user.py:1644-1653 | while a delayed plan fires, a run keeps the cursor between where it is and that user, and reviews only users between them |
| `Review.BlockedForever` | app/db/crud/user.py:1644-1653 | so in any number of runs nobody at or below the first cursor and nobody from that user on is reviewed |
| `Review.BlockedTableNeverChanges` | app/db/crud/user.py:1644-1653 | a table on which no number of runs changes anything: three overdue users stay active |
| `Review.MatchingIsQuery` | app/jobs/review_users.py:88-98 | the batch query yields exactly the users of the status above the cursor, in id order |
| `Review.ProcessFacts` | app/jobs/review_users.py:125-186 | a pass handles a non-empty prefix of its batch and touches nobody else but a user whose handling raised |
| `Review.RunFacts` | app/jobs/review_users.py:117-254 | what a run that does not reach a blocking user leaves, whatever its on-hold phase does |
| `Review.ReviewJob.Review` | app/jobs/review_users.py:109-256 | the job refines the run the progress theorem is about |
| `Review.ReviewJob.ReviewActive` | app/jobs/review_users.py:120-186 | the active phase |
| `Review.ReviewJob.ReviewHold` | app/jobs/review_users.py:191-250 | the on-hold phase |
| `Review.ReviewJob.Scan` | app/jobs/review_users.py:125-186 | the loop of either phase, cut by the time budget or an exception |
| `NodeSession.SessionInvariant` | app/reb_node/node.py:357-608 | over every sequence of calls and every reply with real ids: no session means no handle, not started, (false, false) cached; a handle means started; started means a session |
| `NodeSession.RequestColumns` | app/reb_node/node.py:424-483 | a request retries once when the connection breaks; the session is dropped when it breaks twice, the reply cannot be read, or it is refused with 401, 403 or a text about the session; else nothing changes |
| `NodeSession.HealthUnasked` | app/reb_node/node.py:357-378 | without a session the health is (false, false); with one and a recent reading the cache answers |
| `NodeSession.HealthAsked` | app/reb_node/node.py:380-409 | else the node's reply decides, and an unreachable node loses its session |
| `NodeSession.ConnectColumns` | app/reb_node/node.py:506-539 | a connect goes through iff there is a certificate, an answer with an id, and a status; it leaves that id and status |
| `NodeSession.StartColumns` | app/reb_node/node.py:556-580 | a start goes through iff it is answered and the channel is ready; a node started already is restarted instead; other refusals are the caller's |
| `NodeSession.RestartColumns` | app/reb_node/node.py:590-608 | the same for a restart, without the fallback |
| `NodeSession.StopColumns` | app/reb_node/node.py:582-588 | a stop that goes through leaves the session, no handle and a cached (true, false) |
| `NodeSession.VersionColumns` | app/reb_node/node.py:548-554 | asking for the version goes through iff the node answers with a dictionary, and leaves a connected node as it was |
| `NodeSession.DisconnectColumns` | app/reb_node/node.py:493-546 | a disconnect that goes through leaves nothing; the handle is handed out only with a session |
| `NodeSession.StepKeepsInv` | app/reb_node/node.py:357-608 | every single call keeps it |
| `NodeSession.RequestFacts` | app/reb_node/node.py:424-483 | one POST, or two when the first broke; what each outcome leaves |
| `NodeSession.RestartKeepsInv` | app/reb_node/node.py:590-608 | a restart that returns leaves a started node with session, handle and a (true, true) cache |
| `NodeSession.ConnectExact` | app/reb_node/node.py:506-539 | `connect` keeps the invariant iff the id it will be given is real, or the status reply will be no dictionary and either has the node expelled or finds it with nothing to lose |
| `NodeSession.NullIdBreaksInvariant` | app/reb_node/node.py:506-580 | a null id breaks it in one `start` |
| `NodeSession.ReSTXRayNode.MakeRequest` | app/reb_node/node.py:424-483 | the retry loop, at most two POSTs |
| `NodeSession.ReSTXRayNode.CheckHealthNow` | app/reb_node/node.py:357-409 | the health check with its cache |
| `NodeSession.ReSTXRayNode.ConnectNow` | app/reb_node/node.py:506-539 | connect |
| `NodeSession.ReSTXRayNode.EnsureConnectedNow` | app/reb_node/node.py:731-737 | connect only when not connected |
| `NodeSession.ReSTXRayNode.DisconnectNow` | app/reb_node/node.py:541-546 | disconnect |
| `NodeSession.ReSTXRayNode.OpenApiNow` | app/reb_node/node.py:347-355 | opening the gRPC handle |
| `NodeSession.ReSTXRayNode.StartNow` | app/reb_node/node.py:556-580 | start, falling back to restart when the node runs already |
| `NodeSession.ReSTXRayNode.StopNow` | app/reb_node/node.py:582-588 | stop |
| `NodeSession.ReSTXRayNode.RestartNow` | app/reb_node/node.py:590-608 | restart |
| `NodeSession.ReSTXRayNode.UseApiNow` | app/reb_node/node.py:493-505 | the handle property |
| `NodeStatus.DisabledIsAbsorbing` | app/reb_node/operations.py:414-613 | no interleaving of runtime operations, in flight or new, takes a node out of disabled, as long as their traffic does not reach the data limit |
| `NodeStatus.StatusWritten` | app/reb_node/operations.py:414-613 | the status that each step of each operation writes on a node that is neither disabled nor limited |
| `NodeStatus.StatusGuarded` | app/reb_node/operations.py:414-456 | what each does to a missing row, a disabled and a limited node |
| `NodeStatus.ConnectEndsIn` | app/reb_node/operations.py:485-565 | a whole connect ends connected iff the start goes through or the node proves connected and running, and in error otherwise |
| `NodeStatus.RestartEndsIn` | app/reb_node/operations.py:568-613 | a whole restart ends connected if the core runs afterwards, in error if it fails |
| `NodeStatus.ConnectGates` | app/reb_node/operations.py:485-500 | who may connect, and where the start leads |
| `NodeStatus.RestartGates` | app/reb_node/operations.py:568-590 | who may restart, and where that leads |
| `NodeStatus.ProbeGates` | app/jobs/0_xray_core.py:60-149 | what a health check and the usage job look at, and what a health check sets off |
| `NodeStatus.MarkWritten` | app/reb_node/operations.py:514-565 | the mark of a connect in progress is set when the handle is chosen and cleared at the end, by these steps only |
| `NodeStatus.SessionsWritten` | app/reb_node/operations.py:373-613 | which handles have a session after the steps that talk to the node |
| `NodeStatus.FollowUps` | app/jobs/usage/node_usage.py:21-52 | what a restart of an unreachable node, a probe, and usage that begins or ends the limit set off |
| `NodeStatus.DisabledForeverIff` | app/jobs/usage/node_usage.py:21-52 | a disabled node is safe from all runtime operations iff it has no data limit, or no usage session is under way and none can begin: the registered handle, if any, has no session and no connect or restart is about to give it one |
| `NodeStatus.DisablingWins` | app/reb_node/operations.py:414-613 | an administrator disabling the node mid-way has the last word, under the same condition |
| `NodeStatus.LimitedIsKeptIff` | app/jobs/0_xray_core.py:15-98 | limited survives every further runtime run iff no operation in flight can still overwrite it, and one more byte is over the limit or the usage job can record none |
| `NodeStatus.StepKeepsWellFormed` | app/reb_node/operations.py:386-411 | handles in the registry, with a session or held by an operation are ones that were made, in every reachable state |
| `NodeStatus.LimitedLostMidConnect` | app/reb_node/operations.py:473-557 | the race that loses it |
| `NodeStatus.NodeOperations.ChangeNodeStatus` | app/reb_node/operations.py:414-430 | the status session, unregistering a disabled node |
| `NodeStatus.NodeOperations.RemoveHandle` | app/reb_node/operations.py:373-383 | the handle leaves the registry, with or without its session |
| `NodeStatus.NodeOperations.AddHandle` | app/reb_node/operations.py:386-411 | a new handle without a session replaces the registered one |
| `NodeStatus.NodeOperations.UpdateNodeLimits` | app/jobs/usage/node_usage.py:21-52 | the usage session, with the two triggers it reports |
| `NodeStatus.NodeOperations.RegisterNodeRuntimeError` | app/reb_node/operations.py:438-470 | the error session; the same error is reported again only after the cooldown |
| `HostMap.HostListIsQueryResult` | app/reb_node/state.py:116-169 | grouping and sorting answers the direct query: exactly the enabled hosts of the tag and service, each once, by (sort, id) |
| `HostMap.HostListColumns` | app/reb_node/state.py:116-169 | in the columns: enabled hosts of the tag linked to the service, by `sort`, null as 0, then by id |
| `HostMap.AnswersIff` | app/reb_node/state.py:116-169 | a rebuild is answered iff one of three attempts is, and each before it fails for a lock |
| `HostMap.OrderedListIsUnique` | app/reb_node/state.py:166-169 | the query has one answer |
| `HostMap.RowOrderDoesNotMatter` | app/reb_node/state.py:116-169 | whatever order the rows come in |
| `HostMap.HostMapCache.Rebuild` | app/reb_node/state.py:98-173 | with up to three attempts the cache agrees with the database, or stays as it was |
| `HostMap.HostMapCache.Fill` | app/reb_node/state.py:119-153 | the grouping loops |
| `HostMap.HostMapCache.AddHost` | app/reb_node/state.py:139-152 | one host goes to `None` and each linked service, nowhere else |
| `HostMap.HostMapCache.SortLists` | app/reb_node/state.py:166-169 | every list is sorted, none is touched twice |
| `HostMap.HostMapCache.SortHostMap` | app/reb_node/state.py:167-169 | the lists of one service |
| `HostMap.HostMapCache.GetServiceHostMap` | app/reb_node/state.py:189-214 | rebuilds exactly when forced, empty or too old, and returns the list of every configured tag |
| `HostMap.HostMapCache.Invalidate` | app/reb_node/state.py:221-229 | the local cache is emptied |
| `HostMap.HostMapCache.ReadAfterInvalidate` | app/reb_node/state.py:189-240 | the next read answers the direct query on the current table |
| `Inbounds.XRayConfig.ResolveInbounds` | app/reb_node/config.py:416-673 | list, tag map and protocol map of the resolved inbounds agree |
| `Inbounds.XRayConfig.constructor` | app/reb_node/config.py:226-263 | a configuration starts with agreeing indexes |
| `Inbounds.AddAgrees` | app/reb_node/config.py:667-673 | one more inbound keeps the agreement |
| `Inbounds.ResolvedIs` | app/reb_node/config.py:416-424 | the inbounds of the four proxy protocols whose tags are not excluded, in order |
| `Eligibility.AllowedTagsAgree` | app/reb_node/config.py:759-786 | `User.inbounds`, the generator's tags with its fallback query, and the host map coincide on configured tags, whichever sources load |
| `Eligibility.ExclusionsSurvive` | app/reb_node/config.py:730-799 | splitting the joined column recovers exactly the excluded tags |
| `Eligibility.CommaExcludesOthers` | app/reb_node/config.py:400-414 | with a comma in a tag it does not |
| `Eligibility.ProxyTagsAreEligible` | app/db/models.py:284-350 | a tag is listed for a proxy iff the user may use it there |
| `Eligibility.UserInbounds` | app/db/models.py:284-350 | the property computes these lists for every proxy |
| `Eligibility.ListTags` | app/db/models.py:332-350 | the inner loop over one proxy's protocol |
| `ClientTable.EmailInjective` | app/reb_node/config.py:819 | the email determines the user |
| `ClientTable.RowsGiveWanted` | app/reb_node/config.py:801-865 | in a generated list a user's email carries what that user wants, or nothing |
| `ClientTable.GeneratedIsExpected` | app/reb_node/config.py:694-865 | the generated lists are exactly what the database calls for, at most one client per email |
| `ClientTable.GeneratedClientIff` | app/reb_node/config.py:783-848 | in the columns: a client stands under `id.username` iff the user is enabled and has a proxy of the protocol that the service offers there, or that does not exclude the inbound, with a well-formed key or none, and a UUID or a key; its secret is the stored one, else the derived one, else as stored; its flow the user's or the proxy's, for VLESS and Trojan, where the inbound supports it |
| `ClientTable.GroupByType` | app/reb_node/config.py:788-799 | grouping by proxy type keeps every row under its type |
| `ClientTable.IsAllowed` | app/reb_node/config.py:812-817 | a row may use an inbound by its service's tags or its excluded tags, as the eligibility says |
| `ClientTable.AppendRows` | app/reb_node/config.py:807-865 | the innermost loop appends one client per eligible row |
| `ClientTable.FillInbound` | app/reb_node/config.py:801-865 | one inbound of one type |
| `ClientTable.FillProtocol` | app/reb_node/config.py:801-865 | all inbounds of one type |
| `ClientTable.IncludeDbUsers` | app/reb_node/config.py:694-865 | the loops together generate the specified list for every inbound and leave the others |
| `HotUpdate.EditRefinesRebuildIff` | app/reb_node/operations.py:268-370 | editing the one changed user in a core that mirrors the old database gives a core that mirrors the new one, iff the user is not enabled any more or the handler API can express its accounts: no null password, and no Trojan flow that would count, on any inbound it is eligible on |
| `HotUpdate.EditedAccountIff` | app/reb_node/operations.py:102-160 | the same of an edited core: a secret that is not null, and a flow for VLESS only |
| `HotUpdate.NullPasswordDiffers` | app/utils/credentials.py:257-276 | an input on which generation adds a client with a null password and the edit none |
| `HotUpdate.TrojanFlowDiffers` | app/reb_node/config.py:826-848 | an input on which generation writes a flow that the edit cannot carry |
| `HotUpdate.InjectedIsWantedIff` | app/reb_node/operations.py:141-160 | what the account models accept and the messages carry is what generation adds, on every inbound, iff the handler API can express the user's accounts |
| `HotUpdate.EditsKeepMirroring` | app/reb_node/operations.py:268-370 | any sequence of changes to users whose accounts the handler API can express keeps the core equal to a full rebuild |
| `HotUpdate.RejectedUpdateMirrorsIff` | app/reb_node/operations.py:314-322 | an update rejected for a malformed key leaves a core that mirrors the new database iff the old one gave the user nothing |
| `HotUpdate.RebuildMirrors` | app/reb_node/config.py:694-894 | a core started from full generation mirrors the database |
| `HotUpdate.BackfillHarmless` | app/models/user.py:774-804 | filling in missing secrets first does not change the account |
| `HotUpdate.WantedIsListed` | app/reb_node/operations.py:268-298 | every inbound the user wants is listed for one of its proxies |
| `HotUpdate.ListedIsInjected` | app/reb_node/operations.py:102-160 | on a listed inbound the runtime account is the generated one, if it validates, as the message carries it |
| `HotUpdate.RemoveFromInbound` | app/reb_node/operations.py:77-84 | after at most two attempts the email is gone from a reachable core |
| `HotUpdate.AddToInbound` | app/reb_node/operations.py:227-244 | remove, then add: exactly one client under the email |
| `HotUpdate.Operations.RemoveUser` | app/reb_node/operations.py:301-311 | the user is gone from every indexed inbound of every reachable core, nothing else changed |
| `HotUpdate.Operations.UpdateUser` | app/reb_node/operations.py:314-370 | every reachable core ends with exactly what can be injected for the user; rejected users change nothing |
| `HotUpdate.Operations.AddUser` | app/reb_node/operations.py:268-298 | the same for a user with no clients yet |
| `HotUpdate.Operations.RemoveFromAll` | app/reb_node/operations.py:301-311 | the removal loops over indexed tags |
| `HotUpdate.Operations.AddOnListed` | app/reb_node/operations.py:268-298 | the adding loops over listed tags |
| `Subscription.TokenTransparentIff` | app/redis/adapter.py:68-143 | for any cache contents the token validator answers as the database alone iff the user is stored, nothing is left under the name, or the token does not fit what is left |
| `Subscription.TokenAcceptedIff` | app/redis/adapter.py:68-143 | a stored user is accepted, by the caches and by the database alone, iff the token says when it was issued and the account was created, and not revoked after, by then; a time without a zone is UTC |
| `Subscription.NoRevokedToken` | app/redis/adapter.py:96-130 | for any rows and caches nobody is accepted with a token issued before the creation or the revocation |
| `Subscription.NamedKeyAcceptedIff` | app/redis/adapter.py:196-208 | by name and key the database alone accepts a stored user iff the key has the digits of the stored one; a stored key that is none raises |
| `Subscription.NamedKeyOfDeleted` | app/redis/adapter.py:198-207 | without a live row the first row of that name that has a key is judged |
| `Subscription.AcceptedHasKey` | app/redis/adapter.py:146-287 | whoever a key validator accepts has a key with the digits asked for; by key alone the database accepts iff a row has them |
| `Subscription.NormalizeKeyIs` | app/utils/credentials.py:91-95 | a normal key is 32 hexadecimal digits in lower case; such digits in either case, with dashes anywhere, are accepted as that |
| `Subscription.WithoutRedis` | app/redis/adapter.py:68-287 | without Redis every validator is the database alone |
| `Subscription.IndexRefuses` | app/redis/adapter.py:174-177 | a key index that names another user refuses at once; one that names nobody does a stored user no harm |
| `Subscription.LookUpLeaves` | app/db/crud/user.py:138-185 | the one entry that a lookup rewrites, and with what |
| `Subscription.KeyedCopiesAreLookedUp` | app/redis/adapter.py:178-190 | a key validator looks a name up in its cached part only if there is a copy of it that has a key |
| `Subscription.AcceptedIsRemembered` | app/redis/adapter.py:106-143 | whoever a token is accepted for has a fresh copy, a known name and an index entry afterwards; a refused one leaves only its lookup |
| `Subscription.AcceptedByNameIsRemembered` | app/redis/adapter.py:172-219 | the same by name and key |
| `Subscription.AcceptedByKeyIsRemembered` | app/redis/adapter.py:246-287 | and by key alone |
| `Subscription.RefusedOnlyLooksUp` | app/redis/adapter.py:146-219 | a refused call by name and key leaves only its lookups |
| `Subscription.WarmUpCounts` | app/redis/subscription.py:217-258 | a warm-up counts the rows not deleted, and those of them with a name |
| `Subscription.LowerIs` | app/redis/subscription.py:39-92 | letter case, for ASCII |
| `Subscription.DeletedUserIsAccepted` | app/db/crud/user.py:138-185 | a deleted user's token: refused from the database alone, accepted through Redis |
| `Subscription.KeyOnlyTransparentIff` | app/redis/adapter.py:222-287 | for any cache contents, iff the entry for the key does no harm: there is no copy with a key under the indexed name, or the stored user's key, if asked for, has no outer white space, or the copy of a name not stored, if asked for, is a row as it stands |
| `Subscription.KeyOnlyTransparent` | app/redis/adapter.py:222-287 | in particular when the name indexed for the key is stored with a key free of white space, however stale the copy |
| `Subscription.StaleCopyIsAccepted` | app/redis/adapter.py:246-260 | a copy that outlives its row is accepted, or returned in place of the row marked deleted |
| `Subscription.SqlSeesNormalKeyIff` | app/utils/credentials.py:91-95 | `normalize_key` and the SQL filter agree on a stored key iff it has no outer white space |
| `Subscription.SpacedKeyIsAcceptedOnlyFromCache` | app/redis/adapter.py:222-287 | with a stored key in outer white space, which no writer leaves, the two paths would differ right after the user is cached |
| `Subscription.NamedKeyTransparentIff` | app/redis/adapter.py:146-219 | for a stored user, iff the key index names nobody else or the key is not the user's |
| `Subscription.WarmUpMakesNamedKeyTransparent` | app/redis/subscription.py:185-258 | after a warm-up over any stale contents it is, for every stored user and every key |
| `Subscription.WarmUpIndexes` | app/redis/subscription.py:217-258 | a warm-up points every key to its user |
| `Subscription.AcceptedKeyIsRemembered` | app/redis/adapter.py:222-287 | an accepted key-only call repairs the index and the user entry, and the same call again is answered the same from the cache |
| `Subscription.LookingUpTwice` | app/db/crud/user.py:138-185 | looking a user up does not change what the next lookup finds |
| `Subscription.SubscriptionCache.LookUp` | app/db/crud/user.py:138-185 | the user found and the entries rewritten on the way |
| `Subscription.SubscriptionCache.ValidateByToken` | app/redis/adapter.py:68-143 | reply and caches after the token validator |
| `Subscription.SubscriptionCache.TryCachedKey` | app/redis/adapter.py:246-264 | the cached part of both key validators |
| `Subscription.SubscriptionCache.ValidateByKeyOnly` | app/redis/adapter.py:222-287 | reply and caches after the key-only validator |
| `Subscription.SubscriptionCache.ValidateByNamedKey` | app/redis/adapter.py:146-219 | reply and caches after the validator by name and key |
| `Subscription.SubscriptionCache.CacheSubscriptionNow` | app/redis/subscription.py:39-92 | name and key index entries; malformed keys are not indexed |
| `Subscription.SubscriptionCache.Invalidate` | app/redis/subscription.py:149-182 | exactly the user's name and key entries disappear |
| `Subscription.SubscriptionCache.WarmUp` | app/redis/subscription.py:185-258 | the batched loop indexes every live user and counts them |
| `Merge.OverrideWins` | app/reb_node/config.py:39-45 | every leaf of the override wins |
| `Merge.BaseSurvives` | app/reb_node/config.py:39-45 | what the override says nothing about survives |
| `Merge.LeavesComeFromSomewhere` | app/reb_node/config.py:39-45 | and the result has no other leaves |
| `Merge.MergeTwice` | app/reb_node/config.py:39-45 | merging an override twice equals once |
| `Merge.MergeDicts` | app/reb_node/config.py:39-45 | the configuration's merge computes the specified merge |
| `Merge.MergePermissions` | app/models/admin.py:130-142 | the admin permissions' merge computes the same function |
| `Merge.ApplyPolicy` | app/reb_node/config.py:265-292 | the policy after `_apply_api`, or an exception |
| `Merge.ForcedPolicyHolds` | app/reb_node/config.py:270-292 | for any prior policy the six switches are as forced and everything else is kept |
| `Migration.MigrateTwice` | app/reb_node/config.py:337-398 | migration is idempotent on whole configurations |
| `Migration.ConfigurationColumns` | app/reb_node/config.py:337-398 | the two lists are migrated and nothing else |
| `Migration.BoundsColumns` | app/reb_node/config.py:337-398 | of each element the stream settings |
| `Migration.BoundsRaiseIff` | app/reb_node/config.py:337-398 | it raises iff an element is no dictionary or its stream settings raise |
| `Migration.ItemsColumns` | app/reb_node/config.py:388-398 | a list, or an empty dictionary or text; anything else raises |
| `Migration.StreamColumns` | app/reb_node/config.py:340-386 | of a stream the WebSocket, TCP and TLS settings, by its network |
| `Migration.WsColumns` | app/reb_node/config.py:345-357 | the `Host` header becomes the host unless there is one, and empty headers go |
| `Migration.WsRaisesIff` | app/reb_node/config.py:345-357 | which values of the headers raise |
| `Migration.TcpColumns` | app/reb_node/config.py:359-374 | a `Host` text among the request headers of an HTTP header becomes a list |
| `Migration.TlsColumns` | app/utils/xray_defaults.py:107-143 | the peer names end in the field of the core's age, the other field goes |
| `Migration.NamesColumns` | app/utils/xray_defaults.py:98-105 | the names of a list are its stripped items that are not empty |
| `Migration.FirstNameColumns` | app/utils/xray_defaults.py:84-95 | the first name of a list is the first of them; text is a list of itself, if it is not blank |
| `Migration.NormalizeTlsTwice` | app/utils/xray_defaults.py:84-143 | so is the renaming of TLS fields, for old and new cores |
| `Migration.EffectiveHostKept` | app/reb_node/config.py:587-605 | the effective WebSocket host is the same before and after |
| `Migration.ResolvedHostKeptIff` | app/reb_node/config.py:587-605 | what is read is literally the same iff the header is not empty |
| `Migration.ConfigDocument.MigrateDeprecatedConfigs` | app/reb_node/config.py:337-398 | the in-place loops compute the migration |
| `Migration.ConfigDocument.MigrateUnder` | app/reb_node/config.py:388-398 | one of the two loops |
| `PortPicker.PickAvailablePort` | app/routers/service.py:125-134 | for any draws the port is in range and outside everything taken; none is found only when all are taken |
| `PortPicker.CoversIs` | app/routers/service.py:74-113 | which ports numbers, booleans and lists cover, and what is taken |
| `PortPicker.ListText` | app/routers/service.py:74-99 | a comma list covers what its parts cover |
| `PortPicker.NumberText` | app/routers/service.py:74-99 | the text of a number covers that number |
| `PortPicker.NoDigitsCoverNothing` | app/routers/service.py:74-99 | text without digits covers nothing |
| `PortPicker.UsedPorts.CollectPorts` | app/routers/service.py:74-99 | exactly the ports a value stands for become used |
| `PortPicker.UsedPorts.CollectText` | app/routers/service.py:74-99 | the same for comma lists |
| `PortPicker.UsedPorts.CollectPiece` | app/routers/service.py:74-99 | the same for one number or range |
| `PortPicker.UsedPorts.Extract` | app/routers/service.py:102-113 | the ports of all inbounds and the API port |
| `PortPicker.UsedPorts.IsUsed` | app/routers/service.py:116-122 | membership in the set or a range |
| `PortPicker.RangeOrderDoesNotMatter` | app/routers/service.py:74-99 | a range text covers the ports between its ends, whichever comes first |
| `Notifications.NoneLostOrOversent` | app/jobs/send_notifications.py:55-81 | over all runs tries stay within the limit, nothing is sent more than limit + 1 times, and what is gone was delivered or failed limit + 1 times |
| `Notifications.RetriesAreDue` | app/jobs/send_notifications.py:73-81 | what is put back is of the batch, one try up, within the limit, and due the timeout after a reading of the clock |
| `Notifications.FailingRuns` | app/jobs/send_notifications.py:55-81 | a notification that always fails is gone after exactly limit + 1 runs |
| `Notifications.NotificationQueue.Drain` | app/jobs/send_notifications.py:59-69 | the drain loop ends on an advancing clock, with an empty queue and every entry in the batch, none before it is due |
| `Notifications.NotificationQueue.SendNotifications` | app/jobs/send_notifications.py:55-81 | one run refines the bookkeeping the theorem is about |
| `Notifications.NotificationQueue.PutBack` | app/jobs/send_notifications.py:73-81 | what a failed batch puts back, with tries and due times |
| `Notifications.RetriesRepresentRetried` | app/jobs/send_notifications.py:73-81 | that is every entry below the limit, one try up, and no other |
| `RealityKey.NormalFormIsCanonical` | app/routers/system.py:986-1022 | every accepted key becomes 43 base64url characters that decode to its 32 bytes and are their own normal form |
| `RealityKey.AlphabetKeyExact` | app/routers/system.py:995-1022 | exactly which keys of alphabet characters are accepted, and as what |
| `RealityKey.AlphabetIs` | app/routers/system.py:1002-1010 | the base64url alphabet of RFC 4648, section 5, and its values |
| `RealityKey.EncodingExamples` | app/routers/system.py:1002-1010 | the encoding examples of RFC 4648, section 10, for one to three bytes |
| `RealityKey.NonAsciiIsRefused` | app/routers/system.py:995-1022 | a key with a character outside ASCII is refused |
| `RealityKey.PaddedKeyExact` | app/routers/system.py:995-1022 | the same with the padding character written out |
| `RealityKey.HexKeyNormalForm` | app/routers/system.py:995-999 | a hexadecimal key decodes to its digit pairs |
| `RealityKey.SameNormalFormIff` | app/routers/system.py:986-1022 | two keys have one normal form iff they differ at most in alphabet and unused bits |
| `RealityKey.ScanIsMeaning` | app/routers/system.py:1002-1022 | the decoder's bit-by-bit reading is the 24-bit group arithmetic of RFC 4648, section 4; unclosed groups raise |
| `RealityKey.DecodeOfEncode` | app/routers/system.py:1002-1010 | decoding what was encoded gives the bytes back |
| `RealityKey.SextetsOfMeaning` | app/routers/system.py:1002-1010 | the way through bytes clears exactly the unused bits |

## Left out

- gRPC, HTTP, WebSocket and subprocess calls: a reply is an arbitrary value of a small datatype.
- Redis failures and expiry, failed file writes of backups, and pending entries that are JSON but not objects.
- The comparison of times as ISO text in the backup merge: times are ordered instants.
- Floating-point conversion of the pending counter is an arbitrary function, on which the results do not depend.
- Drained deltas of admins or services that no longer exist: a successful sync drops them, so conservation is about stored owners.
- Put-back of snapshots: the code has none, and `SnapshotSync.UsageTables.Sync` says so.
- Restoring admin and service deltas and snapshots into a Redis that is not empty; for user updates see `UsageRecording` and `UsageInterleaving`.
- UsageRecording, UsageInterleaving: the resets of `used_traffic` by next plans, traffic that the collection itself loses, failed file writes, and a crash in the middle of one.
- UsageInterleaving: `RecordUserUsages`, `RestoreAtStart` and `SyncUsage` are methods that run uninterrupted; interleaved, the jobs are a state machine over their steps.
- UsageService: its laws are about one call with nothing in between; `UsageInterleaving` has the rest.
- `sync_user_changes_to_db` and the aggregated user list in `app/redis/cache.py`, whose base values already contain pending usage.
- Fairness of the on-hold phase of the review job, which is skipped when the active phase uses up the budget, and database errors inside either phase other than a failed status write.
- UsageService: the admin counters, online times, limits and notifications that the same commits of the user sync change, and that the job returns before the other syncs when no user update is pending.
- NodeStatus: start-up and configuration reload, which write `connecting` to enabled nodes, and the administrator's routes, which are one event, although a connect of theirs can be in flight: the access-log reader, after its check of the status (`app/services/access_insights.py:181-189`), log streaming, and core and geo updates make requests that can give the registered handle a session.
- NodeStatus: `_connect_node_impl`, `restart_node` and `core_health_check` are a state machine over their database sessions, not methods, because their sessions interleave; file errors while a configuration is prepared are not modelled.
- NodeSession: log streaming and core or geo updates, which use the same `make_request`.
- ClientTable: the cipher method and the `iv_check` flag of a Shadowsocks account.
- HotUpdate: the removing and adding threads of `update_user` running out of order, and the reload of a configuration for tags that are not indexed (listed tags always are).
- ClientTable: length limits of the SQL `group_concat`, clients written by hand under a user's email, and the clean-up of TLS and REALITY settings after the loops.
- Inbounds: port, network, TLS and header fields of a resolved inbound, except the flow capability and the WebSocket host (in `Migration`).
- Merge: the API inbound and routing rule that `_apply_api` also inserts.
- Migration: the version comparison is a flag, and the text of JSON values that are not strings is an arbitrary function.
- PortPicker: digits outside ASCII.
- Subscription: signatures and payload parsing of tokens, database failures, the user entries by id, the marks for a later sync, and merging pending usage into a cached copy; letter case is that of ASCII.
- Subscription.NamedKeyTransparentIff: is about stored users; a name that is not stored is answered from what is left behind, as for tokens.
- Notifications: transport of the batch; its verdict is a parameter.
- RealityKey: decoding errors are one rejection, without their text.
- Role and permission predicates, Pydantic, FastAPI, SQLAlchemy internals, the CLI and the dashboard: single-branch checks or libraries.
