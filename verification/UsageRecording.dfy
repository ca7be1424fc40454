/** What the recording job, a restart and the sync each do to a user's traffic: through Redis, the backup file
    and the write-through to the database. How they interleave is in `UsageInterleaving`. */
module UsageRecording {
  import opened Prelude
  import opened RedisLists
  import opened PendingUsage
  import opened PendingBackup
  import opened UsageService

  /** The `used_traffic` column, the pending usage in Redis, and the backup file of user updates. */
  datatype Store = Store(used: map<nat, int>, cache: Cache, backup: seq<Update>)

  // ---------- recording ----------

  function RecordAll(c: Cache, updates: seq<Update>): Cache {
    if updates == [] then c else Record(RecordAll(c, updates[..|updates| - 1]), updates[|updates| - 1])
  }

  function UsersIn(updates: seq<Update>): set<nat> {
    set u <- updates :: u.userId
  }

  function WrittenThrough(used: map<nat, int>, updates: seq<Update>): map<nat, int> {
    map id | id in used :: used[id] + TotalDelta(updates, id)
  }

  function SaveUpdates(backup: seq<Update>, updates: seq<Update>): seq<Update> {
    AfterSave(NO_FILES.(userUsage := backup), SaveUsers(updates)).userUsage
  }

  const STEPS: nat := 4

  /** The first so many steps of `record_user_usages`: queue the updates, save them to the file, add them to
      the database, and forget everything pending of their users. */
  function RecordUpTo(s: Store, updates: seq<Update>, steps: nat): (s': Store)
    ensures s'.used.Keys == s.used.Keys
  {
    Store(if steps < 3 then s.used else WrittenThrough(s.used, updates),
          if steps == 0 then s.cache
          else if steps < STEPS then RecordAll(s.cache, updates)
          else Clear(RecordAll(s.cache, updates), UsersIn(updates)),
          if steps < 2 then s.backup else SaveUpdates(s.backup, updates))
  }

  // ---------- restarts and syncs ----------

  /** A start of the panel: the file is pushed into Redis again, and stays as it is. */
  function Restarted(s: Store, keepsRedis: bool): Store {
    s.(cache := RestoreUsers(if keepsRedis then s.cache else EMPTY, s.backup))
  }

  /** The user sync; it deletes the file when it goes through and had something to commit. */
  function Synced(s: Store, scanned: seq<nat>, max: nat, outcomes: Outcomes): Store {
    var taken := Taken(PopAllItems(s.cache.lists, scanned, max, 0));
    var sys := SyncedUsers(System(s.used, s.cache), scanned, max, outcomes);
    Store(sys.used, sys.cache, if Succeeds(taken, outcomes) && AnyPositive(taken) then [] else s.backup)
  }

  // ---------- the account ----------

  predicate Sound(s: Store) {
    OwnUpdates(s.cache)
  }

  /** What the user has been charged, and what is queued to be. */
  function Owed(s: Store, id: nat): int
    requires id in s.used
  {
    s.used[id] + QueuedDelta(s.cache, id)
  }

  lemma {:induction false} RecordAllQueues(c: Cache, updates: seq<Update>, id: nat)
    requires OwnUpdates(c)
    ensures OwnUpdates(RecordAll(c, updates))
    ensures QueuedDelta(RecordAll(c, updates), id) == QueuedDelta(c, id) + TotalDelta(updates, id)
    ensures RecordAll(c, updates).lists.Keys == c.lists.Keys + UsersIn(updates)
  {
    if updates != [] {
      var init, u := updates[..|updates| - 1], updates[|updates| - 1];
      assert updates == init + [u];
      RecordAllQueues(c, init, id);
      PushAdds(RecordAll(c, init), u, id);
      assert UsersIn(updates) == UsersIn(init) + {u.userId};
    }
  }

  lemma {:induction false} RestoreQueues(c: Cache, entries: seq<Update>, id: nat)
    requires OwnUpdates(c) && id != 0
    ensures OwnUpdates(RestoreUsers(c, entries))
    ensures QueuedDelta(RestoreUsers(c, entries), id) == QueuedDelta(c, id) + TotalDelta(entries, id)
  {
    if entries != [] {
      var init, u := entries[..|entries| - 1], entries[|entries| - 1];
      RestoreQueues(c, init, id);
      PushAdds(RestoreUsers(c, init), u, id);
    }
  }

  lemma SaveKeepsAccount(backup: seq<Update>, updates: seq<Update>, id: nat)
    requires id != 0
    ensures TotalDelta(SaveUpdates(backup, updates), id) == TotalDelta(backup, id) + TotalDelta(updates, id)
  {
    if updates != [] {
      UserSaveAdds(backup, updates, id);
    }
  }

  lemma NotMentioned(updates: seq<Update>, id: nat)
    requires id !in UsersIn(updates)
    ensures TotalDelta(updates, id) == 0
  {
    forall u | u in updates ensures u.userId != id {
      assert u.userId in UsersIn(updates);
    }
    NoUpdatesOf(updates, id);
  }

  /** The steps of a recording, with nothing in between: the queueing counts the updates, the write-through
      counts them again, and what is forgotten is all that is queued for their users by then. */
  lemma RecordingAccounts(s: Store, updates: seq<Update>, steps: nat, id: nat)
    requires Sound(s) && id in s.used && id != 0
    ensures var t, s' := TotalDelta(updates, id), RecordUpTo(s, updates, steps);
            && Sound(s') && id in s'.used
            && s'.used[id] == s.used[id] + (if steps >= 3 then t else 0)
            && QueuedDelta(s'.cache, id)
               == (if steps >= STEPS && id in UsersIn(updates) then 0
                   else QueuedDelta(s.cache, id) + if steps == 0 then 0 else t)
            && TotalDelta(s'.backup, id) == TotalDelta(s.backup, id) + (if steps >= 2 then t else 0)
  {
    RecordAllQueues(s.cache, updates, id);
    SaveKeepsAccount(s.backup, updates, id);
    if id !in UsersIn(updates) {
      NotMentioned(updates, id);
    }
  }

  /** The sync loses what it popped for a user it does not charge, and nothing else. */
  lemma {:induction false} SyncAccounts(s: Store, scanned: seq<nat>, max: nat, outcomes: Outcomes, id: nat)
    requires Sound(s) && id in s.used && id != 0
    ensures var items, s' := PopAllItems(s.cache.lists, scanned, max, 0), Synced(s, scanned, max, outcomes);
            && Sound(s') && id in s'.used
            && Owed(s', id) == Owed(s, id) - if Charged(Taken(items), outcomes, id) then 0 else SumBy(items, DeltaOf(id))
  {
    UserTrafficConservedIff(System(s.used, s.cache), scanned, max, outcomes, id);
    PopKeepsOwn(s.cache.lists, scanned, max, 0);
  }

  lemma RestartAccounts(s: Store, keepsRedis: bool, id: nat)
    requires Sound(s) && id in s.used && id != 0
    ensures var s' := Restarted(s, keepsRedis);
            && Sound(s') && id in s'.used
            && QueuedDelta(s'.cache, id) == TotalDelta(s.backup, id) + if keepsRedis then QueuedDelta(s.cache, id) else 0
  {
    RestoreQueues(if keepsRedis then s.cache else EMPTY, s.backup, id);
  }

  // ---------- when it is exact ----------

  /** A restart is exact for a user exactly when the file holds what Redis has lost, and nothing if Redis has
      lost nothing. */
  lemma RestartExactIff(s: Store, keepsRedis: bool, id: nat)
    requires Sound(s) && id in s.used && id != 0
    ensures Owed(Restarted(s, keepsRedis), id) == Owed(s, id)
       <==> TotalDelta(s.backup, id) == if keepsRedis then 0 else QueuedDelta(s.cache, id)
  {
    RestartAccounts(s, keepsRedis, id);
  }

  /** A crash in the middle of a recording, and the restart after it, in any state: exact for a user exactly
      when what was written through, what the file holds, and what Redis has kept, come to what was queued
      and the recorded traffic. */
  lemma CrashExactIff(s: Store, updates: seq<Update>, steps: nat, keepsRedis: bool, id: nat)
    requires Sound(s) && id in s.used && id != 0 && steps < STEPS
    ensures var t, inFile, queued := TotalDelta(updates, id), TotalDelta(s.backup, id), QueuedDelta(s.cache, id);
            (Owed(Restarted(RecordUpTo(s, updates, steps), keepsRedis), id) == Owed(s, id) + t
             <==> (if steps == 3 then t else 0) + inFile + (if steps >= 2 then t else 0)
                  + (if keepsRedis then queued + (if steps >= 1 then t else 0) else 0) == queued + t)
  {
    RecordingAccounts(s, updates, steps, id);
    RestartAccounts(RecordUpTo(s, updates, steps), keepsRedis, id);
  }

  /** So, with nothing queued and nothing in the file, only if there was nothing to record, or the crash came
      after the queueing and Redis is kept, or after the saving and Redis is lost. */
  lemma CleanCrashExactIff(s: Store, updates: seq<Update>, steps: nat, keepsRedis: bool, id: nat)
    requires Sound(s) && id in s.used && id != 0 && steps < STEPS
    requires QueuedDelta(s.cache, id) == 0 && TotalDelta(s.backup, id) == 0
    ensures Owed(Restarted(RecordUpTo(s, updates, steps), keepsRedis), id) == Owed(s, id) + TotalDelta(updates, id)
       <==> TotalDelta(updates, id) == 0 || (steps == 1 && keepsRedis) || (steps == 2 && !keepsRedis)
  {
    CrashExactIff(s, updates, steps, keepsRedis, id);
  }

  /** A sync that goes through with something to commit deletes the file, whatever its limit left queued: a
      restart that loses Redis then loses exactly that. */
  lemma {:induction false} SyncLeavesQueueWithoutBackup(s: Store, scanned: seq<nat>, max: nat, outcomes: Outcomes, id: nat)
    requires Sound(s) && id in s.used && id != 0
    ensures var taken := Taken(PopAllItems(s.cache.lists, scanned, max, 0));
            var s' := Synced(s, scanned, max, outcomes);
            && Sound(s') && id in s'.used
            && (Succeeds(taken, outcomes) && AnyPositive(taken) ==>
                  Owed(Restarted(s', false), id) == Owed(s', id) - QueuedDelta(s'.cache, id))
  {
    SyncAccounts(s, scanned, max, outcomes, id);
    RestartAccounts(Synced(s, scanned, max, outcomes), false, id);
  }

  lemma IdsOf(updates: seq<Update>, ids: seq<nat>)
    requires |ids| == |updates| && forall i :: 0 <= i < |ids| ==> ids[i] == updates[i].userId
    ensures (set id <- ids) == UsersIn(updates)
  {
    forall id | id in UsersIn(updates) ensures id in ids {
      var i :| 0 <= i < |updates| && updates[i].userId == id;
      assert ids[i] == id;
    }
  }

  // ---------- the job ----------

  /** The recording job and the sync against one database, Redis and file. */
  class UsageRecorder {
    const job: UsageJob
    const files: BackupStore

    constructor (job: UsageJob, files: BackupStore)
      ensures this.job == job && this.files == files
    {
      this.job, this.files := job, files;
    }

    function State(): Store
      reads job, job.store, files
    {
      Store(job.used, job.store.State(), files.userUsage)
    }

    /** `record_user_usages` in Redis mode, cut off by a crash after so many steps. */
    method RecordUserUsages(updates: seq<Update>, steps: nat)
      modifies job`used, job.store, files
      ensures State() == RecordUpTo(old(State()), updates, steps)
    {
      if steps == 0 {
        return;
      }
      QueueAll(updates);
      if steps == 1 {
        return;
      }
      files.SaveUserUsage(updates);
      if steps == 2 {
        return;
      }
      job.used := WrittenThrough(job.used, updates);
      if steps == 3 {
        return;
      }
      ForgetAll(updates);
    }

    method ForgetAll(updates: seq<Update>)
      modifies job.store
      ensures job.store.State() == Clear(old(job.store.State()), UsersIn(updates))
    {
      var ids := seq(|updates|, i requires 0 <= i < |updates| => updates[i].userId);
      IdsOf(updates, ids);
      job.store.ClearUserPendingUsage(ids);
    }

    method QueueAll(updates: seq<Update>)
      modifies job.store
      ensures job.store.State() == RecordAll(old(job.store.State()), updates)
    {
      for i := 0 to |updates|
        invariant job.store.State() == RecordAll(old(job.store.State()), updates[..i])
      {
        assert updates[..i + 1][..i] == updates[..i];
        job.store.CacheUserUsageUpdate(updates[i].userId, updates[i].delta, updates[i].onlineAt);
      }
      assert updates[..|updates|] == updates;
    }

    /** The start of the panel, with what Redis still holds. */
    method RestoreAtStart()
      modifies job.store
      ensures State() == Restarted(old(State()), true)
    {
      files.RestoreUserUsage(job.store);
    }

    /** The sync, with the deletion of the file. */
    method SyncUsage(scanned: seq<nat>, max: nat, outcomes: Outcomes)
      modifies job`used, job.store, files
      ensures State() == Synced(old(State()), scanned, max, outcomes)
    {
      var ok, any := job.SyncUsers(scanned, max, outcomes);
      if ok && any {
        files.ClearUserUsage();
      }
    }
  }
}
