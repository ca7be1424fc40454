/** The recording job, the sync and the restore at start-up as they interleave. One scheduler runs the jobs
    in a thread pool, each at most once at a time, and the restore runs beside them; no lock is shared. */
module UsageInterleaving {
  import opened Prelude
  import opened RedisLists
  import opened PendingUsage
  import opened PendingBackup
  import opened UsageService
  import opened UsageRecording

  /** The recording job between two of its steps: so many updates are queued; the file has been read; it has
      been written back; the database has been written. */
  datatype Job =
    | Queueing(updates: seq<Update>, done: nat)
    | Merging(updates: seq<Update>, had: seq<Update>)
    | Saved(updates: seq<Update>)
    | Written(updates: seq<Update>)

  /** The user sync between two of its steps: popping, committing its batches one by one, and about to delete
      the file or to drop the counters. */
  datatype SyncJob =
    | Popping(items: seq<Update>, max: nat)
    | Committing(taken: map<nat, int>, batch: nat)
    | Deleting(taken: map<nat, int>)
    | Dropping(taken: map<nat, int>)

  /** The stores and what is under way. `restore` is what the restore has yet to push, and nothing before it
      has read the file. */
  datatype Panel = Panel(store: Store, job: Option<Job>, sync: Option<SyncJob>, restore: Option<seq<Update>>)

  /** One step of one of them. A step that is not the next one of its job does nothing. */
  datatype Event =
    | Begin(updates: seq<Update>)
    | Advance
    | WriteFails
    | StartSync(max: nat)
    | PopOne(id: nat)
    | StopPopping
    | CommitBatch(attempts: nat -> Attempt)
    | Tidy
    | Restart(keepsRedis: bool)
    | LoadFile
    | PushNext

  // ---------- the steps ----------

  function Advanced(p: Panel, job: Job): Panel {
    var s := p.store;
    match job
    case Queueing(updates, done) =>
      if done < |updates|
      then p.(store := s.(cache := Record(s.cache, updates[done])), job := Some(Queueing(updates, done + 1)))
      else p.(job := Some(Merging(updates, s.backup)))
    case Merging(updates, had) => p.(store := s.(backup := SaveUpdates(had, updates)), job := Some(Saved(updates)))
    case Saved(updates) => p.(store := s.(used := WrittenThrough(s.used, updates)), job := Some(Written(updates)))
    case Written(updates) => p.(store := s.(cache := Clear(s.cache, UsersIn(updates))), job := None)
  }

  /** `rpop` of one list, unless the limit has been reached. */
  function PoppedOne(p: Panel, items: seq<Update>, max: nat, k: nat): Panel {
    var c := p.store.cache;
    var list := At(c.lists, k);
    if Full(max, |items|) then p
    else if list == [] then p.(store := p.store.(cache := c.(lists := c.lists - {k})))
    else
      var e, rest := list[|list| - 1], list[..|list| - 1];
      p.(store := p.store.(cache := c.(lists := Put(c.lists, k, rest))),
         sync := Some(Popping(if e.Json? then items + [e.value] else items, max)))
  }

  /** How a batch ends that may have nothing to commit. */
  function EndOfBatch(taken: map<nat, int>, batch: nat, attempts: nat -> Attempt): End {
    if exists j <- taken :: taken[j] > 0 && BatchOf(taken.Keys, j) == batch then BatchEnd(attempts, 0) else GoesOn
  }

  /** The user is in the batch, with something to commit. */
  predicate Commits(taken: map<nat, int>, batch: nat, id: nat) {
    id in taken && taken[id] > 0 && BatchOf(taken.Keys, id) == batch
  }

  function ChargeBatch(used: map<nat, int>, taken: map<nat, int>, batch: nat): map<nat, int> {
    map id | id in used :: used[id] + if Commits(taken, batch, id) then taken[id] else 0
  }

  function BatchCommitted(p: Panel, taken: map<nat, int>, batch: nat, attempts: nat -> Attempt): Panel {
    if |taken| <= USER_BATCH * batch then p.(sync := Some(Deleting(taken)))
    else
      var end, used := EndOfBatch(taken, batch, attempts), p.store.used;
      p.(store := if end == Fails then p.store else p.store.(used := ChargeBatch(used, taken, batch)),
         sync := if end == GoesOn then Some(Committing(taken, batch + 1)) else None)
  }

  function SyncStep(p: Panel, sync: SyncJob, e: Event): Panel {
    match (e, sync)
    case (PopOne(k), Popping(items, max)) => PoppedOne(p, items, max, k)
    case (StopPopping, Popping(items, _)) =>
      p.(sync := if Taken(items) == map[] then None else Some(Committing(Taken(items), 0)))
    case (CommitBatch(attempts), Committing(taken, batch)) => BatchCommitted(p, taken, batch, attempts)
    case (Tidy, Deleting(taken)) =>
      p.(store := p.store.(backup := if AnyPositive(taken) then [] else p.store.backup), sync := Some(Dropping(taken)))
    case (Tidy, Dropping(taken)) =>
      p.(store := p.store.(cache := ClearCounters(p.store.cache, taken.Keys)), sync := None)
    case _ => p
  }

  /** A restart ends what is under way, and Redis may be lost. The restore then reads the file and pushes its
      entries one by one, while the jobs already run. */
  function Step(p: Panel, e: Event): Panel {
    match e
    case Begin(updates) => if p.job == None && updates != [] then p.(job := Some(Queueing(updates, 0))) else p
    case Advance => if p.job.Some? then Advanced(p, p.job.value) else p
    case WriteFails => if p.job.Some? && p.job.value.Saved? then p.(job := None) else p
    case StartSync(max) => if p.sync == None then p.(sync := Some(Popping([], max))) else p
    case Restart(keepsRedis) => Panel(if keepsRedis then p.store else p.store.(cache := EMPTY), None, None, None)
    case LoadFile => if p.restore == None then p.(restore := Some(p.store.backup)) else p
    case PushNext =>
      if p.restore.Some? && p.restore.value != [] then
        var u, s := p.restore.value[0], p.store;
        p.(store := if u.userId == 0 then s else s.(cache := Record(s.cache, u)), restore := Some(p.restore.value[1..]))
      else p
    case _ => if p.sync.Some? then SyncStep(p, p.sync.value, e) else p
  }

  function Run(p: Panel, events: seq<Event>): Panel {
    if events == [] then p else Step(Run(p, events[..|events| - 1]), events[|events| - 1])
  }

  // ---------- where a user's traffic is, and where it goes ----------

  /** Popped, and neither charged nor dropped yet. */
  function Held(p: Panel, id: nat): int {
    match p.sync
    case Some(Popping(items, _)) => SumBy(items, DeltaOf(id))
    case Some(Committing(taken, batch)) => if id in taken && BatchOf(taken.Keys, id) >= batch then taken[id] else 0
    case _ => 0
  }

  /** Of the recording under way, what it has yet to queue. */
  function ToQueue(p: Panel, id: nat): int {
    match p.job
    case Some(Queueing(updates, done)) => if done < |updates| then TotalDelta(updates[done..], id) else 0
    case _ => 0
  }

  /** Queued in Redis, or about to be. */
  function Pending(p: Panel, id: nat): int {
    QueuedDelta(p.store.cache, id) + ToQueue(p, id)
  }

  /** What a step can do with a user's traffic. */
  datatype Flow = Collected | Restored | Popped | Forgotten | WroteThrough | SyncCharged | Dropped

  function Amount(f: Flow, p: Panel, e: Event, id: nat): int {
    match f
    case Collected => if e.Begin? && p.job == None then TotalDelta(e.updates, id) else 0
    case Restored => if e.PushNext? && p.restore.Some? && p.restore.value != [] then DeltaOf(id)(p.restore.value[0]) else 0
    case Popped => if e.PopOne? && e.id == id && p.sync.Some? then PoppedAmount(p, p.sync.value, id) else 0
    case Forgotten =>
      if e.Restart? then ToQueue(p, id) + (if e.keepsRedis then 0 else QueuedDelta(p.store.cache, id))
      else if e.Advance? && p.job.Some? && p.job.value.Written? && id in UsersIn(p.job.value.updates)
      then QueuedDelta(p.store.cache, id)
      else 0
    case WroteThrough => if e.Advance? && p.job.Some? && p.job.value.Saved? then TotalDelta(p.job.value.updates, id) else 0
    case SyncCharged => if e.CommitBatch? && p.sync.Some? then ChargedAmount(p.sync.value, e.attempts, id) else 0
    case Dropped =>
      if e.Restart? then Held(p, id)
      else if e.CommitBatch? && p.sync.Some? then DroppedAmount(p.sync.value, e.attempts, id)
      else 0
  }

  /** The oldest queued update of the user. */
  function PoppedAmount(p: Panel, sync: SyncJob, id: nat): int {
    var list := At(p.store.cache.lists, id);
    if sync.Popping? && list != [] && !Full(sync.max, |sync.items|) && list[|list| - 1].Json?
    then list[|list| - 1].value.delta
    else 0
  }

  /** A positive sum of a batch that is committed. */
  function ChargedAmount(sync: SyncJob, attempts: nat -> Attempt, id: nat): int {
    if sync.Committing? && Commits(sync.taken, sync.batch, id) && EndOfBatch(sync.taken, sync.batch, attempts) != Fails
    then sync.taken[id]
    else 0
  }

  /** The rest of the batch, and all that comes after a batch that stops the call. */
  function DroppedAmount(sync: SyncJob, attempts: nat -> Attempt, id: nat): int {
    if !sync.Committing? || id !in sync.taken then 0
    else
      var batch := BatchOf(sync.taken.Keys, id);
      if batch == sync.batch then sync.taken[id] - ChargedAmount(sync, attempts, id)
      else if batch > sync.batch && EndOfBatch(sync.taken, sync.batch, attempts) != GoesOn then sync.taken[id]
      else 0
  }

  /** The sum of a flow over a run, each amount read off the state before its step. */
  function Total(f: Flow, p: Panel, events: seq<Event>, id: nat): int {
    if events == [] then 0
    else
      var init := events[..|events| - 1];
      Total(f, p, init, id) + Amount(f, Run(p, init), events[|events| - 1], id)
  }

  predicate Owns(p: Panel, id: nat) {
    Sound(p.store) && id in p.store.used && id != 0
  }

  /** The database takes what is written through or charged; the sync holds what it popped, until it charges
      or drops it; Redis gets what is recorded or restored, until it is popped or forgotten. */
  predicate Balanced(p: Panel, e: Event, id: nat)
    requires id in p.store.used
  {
    var p' := Step(p, e);
    && Owns(p', id)
    && p'.store.used[id] == p.store.used[id] + Amount(WroteThrough, p, e, id) + Amount(SyncCharged, p, e, id)
    && Held(p', id) == Held(p, id) + Amount(Popped, p, e, id) - Amount(SyncCharged, p, e, id) - Amount(Dropped, p, e, id)
    && Pending(p', id) == Pending(p, id) + Amount(Collected, p, e, id) + Amount(Restored, p, e, id)
                          - Amount(Popped, p, e, id) - Amount(Forgotten, p, e, id)
  }

  lemma {:induction false} QueueBalances(p: Panel, updates: seq<Update>, done: nat, id: nat)
    requires Owns(p, id) && p.job == Some(Queueing(updates, done)) && done < |updates|
    ensures Balanced(p, Advance, id)
  {
    PushAdds(p.store.cache, updates[done], id);
    FromNext(updates, done, id);
    assert Step(p, Advance).job == Some(Queueing(updates, done + 1));
  }

  lemma {:induction false} FromNext(updates: seq<Update>, done: nat, id: nat)
    requires done < |updates|
    ensures TotalDelta(updates[done..], id) == DeltaOf(id)(updates[done]) + TotalDelta(updates[done + 1..], id)
  {
    UpdatesAppend([updates[done]], updates[done + 1..], id);
    assert [updates[done]] + updates[done + 1..] == updates[done..];
    assert [updates[done]][..0] == [];
  }

  lemma {:induction false} ForgetBalances(p: Panel, updates: seq<Update>, id: nat)
    requires Owns(p, id) && p.job == Some(Written(updates))
    ensures Balanced(p, Advance, id)
  {
  }

  lemma {:induction false} JobBalances(p: Panel, id: nat)
    requires Owns(p, id) && p.job.Some?
    ensures Balanced(p, Advance, id)
  {
    match p.job.value
    case Queueing(updates, done) =>
      if done < |updates| {
        QueueBalances(p, updates, done, id);
      }
    case Written(updates) => ForgetBalances(p, updates, id);
    case _ =>
  }

  lemma {:induction false} PopBalances(p: Panel, items: seq<Update>, max: nat, k: nat, id: nat)
    requires Owns(p, id) && p.sync == Some(Popping(items, max))
    ensures Balanced(p, PopOne(k), id)
  {
    if At(p.store.cache.lists, k) != [] && !Full(max, |items|) {
      PopOneBalances(p, items, max, k, id);
    } else {
      NoPopBalances(p, items, max, k, id);
    }
  }

  lemma {:induction false} PopOneBalances(p: Panel, items: seq<Update>, max: nat, k: nat, id: nat)
    requires Owns(p, id) && p.sync == Some(Popping(items, max))
    requires At(p.store.cache.lists, k) != [] && !Full(max, |items|)
    ensures Balanced(p, PopOne(k), id)
  {
    var list := At(p.store.cache.lists, k);
    OldestPopped(p.store.cache.lists, k, id);
    SumOfOneMore(items, list[|list| - 1].value, id);
  }

  lemma {:induction false} NoPopBalances(p: Panel, items: seq<Update>, max: nat, k: nat, id: nat)
    requires Owns(p, id) && p.sync == Some(Popping(items, max))
    requires At(p.store.cache.lists, k) == [] || Full(max, |items|)
    ensures Balanced(p, PopOne(k), id)
  {}

  lemma {:induction false} OldestPopped(lists: Lists<nat, Update>, k: nat, id: nat)
    requires Owned(lists) && At(lists, k) != []
    ensures var list := At(lists, k);
            var e, lists' := list[|list| - 1], Put(lists, k, list[..|list| - 1]);
            && e.Json? && e.value.userId == k && Owned(lists')
            && OwnDelta(lists', id) == OwnDelta(lists, id) - DeltaOf(id)(e.value)
  {
    var list := At(lists, k);
    var rest, e := list[..|list| - 1], list[|list| - 1];
    assert AllOwn(list, k) && e in list;
    assert AllOwn(rest, k);
    assert ([e.value] + Fifo(rest))[1..] == Fifo(rest);
  }

  lemma {:induction false} LastBatch(keys: set<nat>, batch: nat, id: nat)
    requires |keys| <= USER_BATCH * batch && id in keys
    ensures BatchOf(keys, id) < batch
  {
    var below := set j | j in keys && j < id;
    Smaller(below + {id}, keys);
  }

  lemma {:induction false} Smaller(a: set<nat>, b: set<nat>)
    requires a <= b
    ensures |a| <= |b|
  {
    if a != {} {
      var x :| x in a;
      Smaller(a - {x}, b - {x});
    }
  }

  lemma {:induction false} CommitBalances(p: Panel, attempts: nat -> Attempt, id: nat)
    requires Owns(p, id) && p.sync.Some? && p.sync.value.Committing?
    ensures Balanced(p, CommitBatch(attempts), id)
  {
    var taken, batch := p.sync.value.taken, p.sync.value.batch;
    if |taken| <= USER_BATCH * batch && id in taken {
      LastBatch(taken.Keys, batch, id);
    }
  }

  lemma {:induction false} SyncBalances(p: Panel, e: Event, id: nat)
    requires Owns(p, id) && p.sync.Some? && (e.PopOne? || e.StopPopping? || e.CommitBatch? || e.Tidy?)
    ensures Balanced(p, e, id)
  {
    match (e, p.sync.value)
    case (PopOne(k), Popping(items, max)) => PopBalances(p, items, max, k, id);
    case (StopPopping, Popping(items, _)) =>
      if id !in UsersOf(items) {
        NoItemsOf(items, id);
      }
    case (CommitBatch(attempts), Committing(_, _)) => CommitBalances(p, attempts, id);
    case _ =>
  }

  lemma {:induction false} PushBalances(p: Panel, id: nat)
    requires Owns(p, id)
    ensures Balanced(p, PushNext, id)
  {
    if p.restore.Some? && p.restore.value != [] {
      assert p.restore.value == [p.restore.value[0]] + p.restore.value[1..];
      PushOneBalances(p, p.restore.value[0], p.restore.value[1..], id);
    } else {
      NothingMoves(p, PushNext, id);
    }
  }

  lemma {:induction false} PushOneBalances(p: Panel, u: Update, rest: seq<Update>, id: nat)
    requires Owns(p, id) && p.restore == Some([u] + rest)
    ensures Balanced(p, PushNext, id)
  {
    PushAdds(p.store.cache, u, id);
    assert ([u] + rest)[1..] == rest;
  }

  lemma {:induction false} RestartBalances(p: Panel, keepsRedis: bool, id: nat)
    requires Owns(p, id)
    ensures Balanced(p, Restart(keepsRedis), id)
  {}

  lemma {:induction false} BeginBalances(p: Panel, updates: seq<Update>, id: nat)
    requires Owns(p, id)
    ensures Balanced(p, Begin(updates), id)
  {
    assert updates[0..] == updates;
  }

  /** Nothing of the user's moves. */
  lemma {:induction false} NothingMoves(p: Panel, e: Event, id: nat)
    requires Owns(p, id) && Step(p, e).store == p.store
    requires Held(Step(p, e), id) == Held(p, id) && ToQueue(Step(p, e), id) == ToQueue(p, id)
    requires forall f: Flow :: Amount(f, p, e, id) == 0
    ensures Balanced(p, e, id)
  {}

  lemma {:induction false} RestBalances(p: Panel, e: Event, id: nat)
    requires Owns(p, id) && (p.sync == None || e.WriteFails? || e.StartSync? || e.LoadFile?)
    requires !e.Begin? && !e.Advance? && !e.PushNext? && !e.Restart?
    ensures Balanced(p, e, id)
  {
    NothingMoves(p, e, id);
  }

  lemma {:induction false} StepBalances(p: Panel, e: Event, id: nat)
    requires Owns(p, id)
    ensures Balanced(p, e, id)
  {
    match e
    case Begin(updates) => BeginBalances(p, updates, id);
    case Advance =>
      if p.job.Some? {
        JobBalances(p, id);
      } else {
        NothingMoves(p, e, id);
      }
    case PushNext => PushBalances(p, id);
    case Restart(keepsRedis) => RestartBalances(p, keepsRedis, id);
    case _ =>
      if p.sync.Some? && (e.PopOne? || e.StopPopping? || e.CommitBatch? || e.Tidy?) {
        SyncBalances(p, e, id);
      } else {
        RestBalances(p, e, id);
      }
  }

  // ---------- every run ----------

  /** Charged to the user, in the hands of the sync, or pending. */
  function Account(p: Panel, id: nat): int
    requires id in p.store.used
  {
    p.store.used[id] + Held(p, id) + Pending(p, id)
  }

  /** Over every run of steps, in whatever order the jobs, their failures and restarts come: the three places
      balance, and so the account misses what was collected by exactly what was written through or
      restored and what was forgotten or dropped. */
  lemma {:induction false} RunAccounts(p: Panel, events: seq<Event>, id: nat)
    requires Owns(p, id)
    ensures var p' := Run(p, events);
            && Owns(p', id)
            && p'.store.used[id] == p.store.used[id] + Total(WroteThrough, p, events, id) + Total(SyncCharged, p, events, id)
            && Held(p', id) == Held(p, id) + Total(Popped, p, events, id)
                               - Total(SyncCharged, p, events, id) - Total(Dropped, p, events, id)
            && Pending(p', id) == Pending(p, id) + Total(Collected, p, events, id) + Total(Restored, p, events, id)
                                  - Total(Popped, p, events, id) - Total(Forgotten, p, events, id)
            && Account(p', id) == Account(p, id) + Total(Collected, p, events, id)
                                  + Total(WroteThrough, p, events, id) + Total(Restored, p, events, id)
                                  - Total(Forgotten, p, events, id) - Total(Dropped, p, events, id)
            && (Account(p', id) == Account(p, id) + Total(Collected, p, events, id)
                <==> Total(WroteThrough, p, events, id) + Total(Restored, p, events, id)
                     == Total(Forgotten, p, events, id) + Total(Dropped, p, events, id))
  {
    if events != [] {
      var init := events[..|events| - 1];
      RunAccounts(p, init, id);
      StepBalances(Run(p, init), events[|events| - 1], id);
    }
  }

  // ---------- one recording ----------

  /** Steps of the recording under way and of syncs, to the end of the recording. */
  ghost predicate OneRecording(events: seq<Event>) {
    forall e <- events :: !e.Begin? && !e.WriteFails? && !e.Restart?
  }

  /** What holds of a run that started at the beginning of a recording. */
  ghost predicate RecordingSoFar(p: Panel, updates: seq<Update>, events: seq<Event>, id: nat) {
    var p' := Run(p, events);
    && p'.restore == Some([])
    && (p'.job.Some? ==> p'.job.value.updates == updates)
    && (p'.job == None && id in UsersIn(updates) ==> At(p'.store.cache.lists, id) == [])
    && Total(Collected, p, events, id) == 0 && Total(Restored, p, events, id) == 0
    && Total(WroteThrough, p, events, id) == (if p'.job == None || p'.job.value.Written? then TotalDelta(updates, id) else 0)
    && (id !in UsersIn(updates) ==> Total(Forgotten, p, events, id) == 0)
  }

  lemma {:induction false} RecordingGoesOn(p: Panel, updates: seq<Update>, events: seq<Event>, id: nat)
    requires p.job == Some(Queueing(updates, 0)) && p.restore == Some([]) && OneRecording(events)
    ensures RecordingSoFar(p, updates, events, id)
  {
    if events != [] {
      var init, e := events[..|events| - 1], events[|events| - 1];
      assert e in events && forall x <- init :: x in events;
      RecordingGoesOn(p, updates, init, id);
      RecordingNext(p, updates, init, e, id);
      assert init + [e] == events;
    }
  }

  /** What steps of syncs leave alone. */
  lemma {:induction false} SyncLeaves(p: Panel, e: Event, id: nat)
    requires p.restore == Some([]) && !e.Begin? && !e.Advance? && !e.WriteFails? && !e.Restart?
    ensures var p' := Step(p, e);
            && p'.restore == Some([]) && p'.job == p.job && p'.store.cache.lists.Keys <= p.store.cache.lists.Keys
            && (At(p.store.cache.lists, id) == [] ==> At(p'.store.cache.lists, id) == [])
    ensures Amount(Collected, p, e, id) == Amount(Restored, p, e, id) == 0
    ensures Amount(WroteThrough, p, e, id) == Amount(Forgotten, p, e, id) == 0
  {}

  lemma {:induction false} AdvanceLeaves(p: Panel, id: nat)
    requires p.restore == Some([]) && p.job.Some?
    ensures var p', updates := Step(p, Advance), p.job.value.updates;
            && p'.restore == Some([])
            && (p'.job.Some? ==> p'.job.value.updates == updates)
            && (p'.job == None <==> p.job.value.Written?)
            && (p'.job.Some? && p'.job.value.Written? <==> p.job.value.Saved?)
            && (p'.job == None && id in UsersIn(updates) ==> At(p'.store.cache.lists, id) == [])
    ensures Amount(Collected, p, Advance, id) == Amount(Restored, p, Advance, id) == 0
    ensures Amount(WroteThrough, p, Advance, id) == if p.job.value.Saved? then TotalDelta(p.job.value.updates, id) else 0
    ensures id !in UsersIn(p.job.value.updates) ==> Amount(Forgotten, p, Advance, id) == 0
  {}

  lemma {:induction false} RecordingNext(p: Panel, updates: seq<Update>, init: seq<Event>, e: Event, id: nat)
    requires RecordingSoFar(p, updates, init, id) && OneRecording([e])
    ensures RecordingSoFar(p, updates, init + [e], id)
  {
    var mid := Run(p, init);
    assert e in [e];
    RunLast(p, init, e);
    assert (init + [e])[..|init|] == init;
    if !e.Advance? {
      SyncLeaves(mid, e, id);
    } else if mid.job.Some? {
      AdvanceLeaves(mid, id);
    }
  }

  /** A recording, from its beginning to its end, with steps of syncs anywhere in between, misses by what the
      syncs dropped, by what they popped of the user meanwhile, and by what was queued before: it is exact
      exactly when they popped just as much as was queued before it, or it is not about the user. */
  lemma {:induction false} RecordingExactIff(p: Panel, updates: seq<Update>, events: seq<Event>, id: nat)
    requires Owns(p, id) && p.job == Some(Queueing(updates, 0)) && p.restore == Some([])
    requires OneRecording(events) && Run(p, events).job == None
    ensures var p', popped, dropped := Run(p, events), Total(Popped, p, events, id), Total(Dropped, p, events, id);
            && Owns(p', id)
            && Account(p', id) == Account(p, id) - dropped
                                  + (if id in UsersIn(updates) then popped - QueuedDelta(p.store.cache, id) else 0)
            && (Account(p', id) == Account(p, id) - dropped
                <==> id !in UsersIn(updates) || popped == QueuedDelta(p.store.cache, id))
  {
    RecordingGoesOn(p, updates, events, id);
    RunAccounts(p, events, id);
    assert updates[0..] == updates;
    if id !in UsersIn(updates) {
      NotMentioned(updates, id);
    }
  }

  // ---------- runs without restarts and failed writes ----------

  predicate Idle(p: Panel) {
    p.job == None && p.sync == None && p.restore == Some([])
  }

  predicate Quiet(s: Store) {
    s.cache.lists == map[]
  }

  ghost predicate Undisturbed(events: seq<Event>) {
    forall e <- events :: !e.WriteFails? && !e.Restart?
  }

  function Unwritten(p: Panel, id: nat): int {
    if p.job.Some? && !p.job.value.Written? then TotalDelta(p.job.value.updates, id) else 0
  }

  /** The users of the recording under way. */
  function Recording(p: Panel): set<nat> {
    if p.job == None then {} else UsersIn(p.job.value.updates)
  }

  ghost predicate UndisturbedSoFar(p: Panel, events: seq<Event>, id: nat) {
    var p' := Run(p, events);
    && p'.restore == Some([])
    && p'.store.cache.lists.Keys <= Recording(p')
    && Total(Restored, p, events, id) == 0
    && Total(WroteThrough, p, events, id) + Unwritten(p', id) == Total(Collected, p, events, id)
  }

  lemma {:induction false} UndisturbedGoesOn(p: Panel, events: seq<Event>, id: nat)
    requires Idle(p) && Quiet(p.store) && Undisturbed(events)
    ensures UndisturbedSoFar(p, events, id)
  {
    if events != [] {
      var init, e := events[..|events| - 1], events[|events| - 1];
      assert e in events && forall x <- init :: x in events;
      UndisturbedGoesOn(p, init, id);
      UndisturbedNext(p, init, e, id);
      assert init + [e] == events;
    }
  }

  lemma {:induction false} UndisturbedStep(p: Panel, e: Event, id: nat)
    requires p.restore == Some([]) && p.store.cache.lists.Keys <= Recording(p) && !e.WriteFails? && !e.Restart?
    ensures var p' := Step(p, e);
            && p'.restore == Some([]) && p'.store.cache.lists.Keys <= Recording(p')
            && Amount(Restored, p, e, id) == 0
            && Amount(WroteThrough, p, e, id) + Unwritten(p', id) == Unwritten(p, id) + Amount(Collected, p, e, id)
  {
    QueuedByRecording(p, e);
    if !e.Advance? && !e.Begin? {
      SyncLeaves(p, e, id);
    } else if e.Advance? && p.job.Some? {
      AdvanceLeaves(p, id);
    }
  }

  lemma {:induction false} UndisturbedNext(p: Panel, init: seq<Event>, e: Event, id: nat)
    requires UndisturbedSoFar(p, init, id) && Undisturbed([e])
    ensures UndisturbedSoFar(p, init + [e], id)
  {
    assert e in [e];
    RunLast(p, init, e);
    assert (init + [e])[..|init|] == init;
    UndisturbedStep(Run(p, init), e, id);
  }

  lemma {:induction false} QueuedByRecording(p: Panel, e: Event)
    requires p.restore == Some([]) && p.store.cache.lists.Keys <= Recording(p) && !e.WriteFails? && !e.Restart?
    ensures Step(p, e).store.cache.lists.Keys <= Recording(Step(p, e))
  {
    if e.Advance? && p.job.Some? && p.job.value.Queueing? && p.job.value.done < |p.job.value.updates| {
      assert p.job.value.updates[p.job.value.done] in p.job.value.updates;
    }
  }

  /** Whatever is queued is queued by the recording under way, which has not forgotten it yet. */
  lemma {:induction false} QueuedOnlyMeanwhile(p: Panel, events: seq<Event>, id: nat)
    requires Idle(p) && Quiet(p.store) && Undisturbed(events)
    ensures var p' := Run(p, events);
            At(p'.store.cache.lists, id) != [] ==> p'.job.Some? && id in UsersIn(p'.job.value.updates)
  {
    UndisturbedGoesOn(p, events, id);
  }

  /** Any number of recordings and syncs, interleaved in any way: nothing stays queued, and the user is charged
      what was recorded and, once more, what syncs popped between its queueing and its being forgotten
      and did not drop. It is exact exactly when they dropped all they popped, as when they popped
      nothing. */
  lemma {:induction false} UndisturbedExactIff(p: Panel, events: seq<Event>, id: nat)
    requires Owns(p, id) && Idle(p) && Quiet(p.store) && Undisturbed(events) && Idle(Run(p, events))
    ensures var p', popped, dropped := Run(p, events), Total(Popped, p, events, id), Total(Dropped, p, events, id);
            && Owns(p', id) && Quiet(p'.store)
            && p'.store.used[id] == p.store.used[id] + Total(Collected, p, events, id) + popped - dropped
            && (p'.store.used[id] == p.store.used[id] + Total(Collected, p, events, id) <==> popped == dropped)
  {
    UndisturbedGoesOn(p, events, id);
    RunAccounts(p, events, id);
  }

  // ---------- at most twice ----------

  ghost predicate NoneNegative(updates: seq<Update>) {
    forall u <- updates :: u.delta >= 0
  }

  ghost predicate Traffic(events: seq<Event>) {
    forall e <- events :: e.Begin? ==> NoneNegative(e.updates)
  }

  ghost predicate QueuesTraffic(lists: Lists<nat, Update>) {
    forall k <- lists :: forall e <- lists[k] :: e.Json? ==> e.value.delta >= 0
  }

  /** No negative amount anywhere. */
  ghost predicate HoldsTraffic(p: Panel) {
    && QueuesTraffic(p.store.cache.lists)
    && (p.job.Some? ==> NoneNegative(p.job.value.updates))
    && match p.sync
       case Some(Popping(items, _)) => NoneNegative(items)
       case Some(Committing(taken, _)) => forall j <- taken :: taken[j] >= 0
       case _ => true
  }

  lemma {:induction false} SumOfNoneNegative(updates: seq<Update>, id: nat)
    requires NoneNegative(updates)
    ensures TotalDelta(updates, id) >= 0
  {
    if updates != [] {
      assert updates[|updates| - 1] in updates;
      assert forall u <- updates[..|updates| - 1] :: u in updates;
      SumOfNoneNegative(updates[..|updates| - 1], id);
    }
  }

  lemma {:induction false} FifoOfTraffic(list: seq<Entry<Update>>, id: nat)
    requires forall e <- list :: e.Json? ==> e.value.delta >= 0
    ensures SumBy(Fifo(list), DeltaOf(id)) >= 0
  {
    forall u | u in Fifo(list) ensures u.delta >= 0 {
      FifoMembers(list, u);
    }
    SumOfTraffic(Fifo(list), id);
  }

  /** Amounts of traffic are not negative, and neither is what is pending or held. */
  lemma {:induction false} NothingNegative(p: Panel, e: Event, id: nat)
    requires HoldsTraffic(p)
    ensures Held(p, id) >= 0 && Pending(p, id) >= 0
    ensures Amount(Forgotten, p, e, id) >= 0 && Amount(SyncCharged, p, e, id) >= 0 && Amount(Dropped, p, e, id) >= 0
  {
    FifoOfTraffic(At(p.store.cache.lists, id), id);
    match p.sync {
      case Some(Popping(items, _)) => SumOfTraffic(items, id);
      case _ =>
    }
    match p.job {
      case Some(Queueing(updates, done)) =>
        if done < |updates| {
          assert forall u <- updates[done..] :: u in updates;
          SumOfNoneNegative(updates[done..], id);
        }
      case _ =>
    }
  }

  lemma {:induction false} SyncHoldsTraffic(p: Panel, e: Event)
    requires HoldsTraffic(p) && p.sync.Some?
    ensures HoldsTraffic(SyncStepped(p, e))
  {
    match (e, p.sync.value)
    case (PopOne(k), Popping(items, max)) =>
      var list := At(p.store.cache.lists, k);
      if list != [] && !Full(max, |items|) {
        assert list[|list| - 1] in list;
        assert forall x <- list[..|list| - 1] :: x in list;
      }
    case (StopPopping, Popping(items, _)) =>
      forall j | j in Taken(items) ensures Taken(items)[j] >= 0 {
        SumOfTraffic(items, j);
      }
    case _ =>
  }

  function SyncStepped(p: Panel, e: Event): Panel {
    if p.sync.Some? then SyncStep(p, p.sync.value, e) else p
  }

  lemma {:induction false} StepHoldsTraffic(p: Panel, e: Event)
    requires HoldsTraffic(p) && p.restore == Some([]) && (e.Begin? ==> NoneNegative(e.updates))
    ensures HoldsTraffic(Step(p, e))
  {
    match e
    case Advance =>
      if p.job.Some? && p.job.value.Queueing? && p.job.value.done < |p.job.value.updates| {
        assert p.job.value.updates[p.job.value.done] in p.job.value.updates;
      }
    case Begin(_) =>
    case WriteFails =>
    case StartSync(_) =>
    case Restart(_) =>
    case LoadFile =>
    case PushNext =>
    case _ =>
      if p.sync.Some? {
        SyncHoldsTraffic(p, e);
      }
  }

  lemma {:induction false} TrafficGoesOn(p: Panel, events: seq<Event>, id: nat)
    requires Idle(p) && Quiet(p.store) && Undisturbed(events) && Traffic(events)
    ensures HoldsTraffic(Run(p, events))
    ensures Total(Forgotten, p, events, id) >= 0 && Total(SyncCharged, p, events, id) >= 0 && Total(Dropped, p, events, id) >= 0
  {
    if events != [] {
      var init, e := events[..|events| - 1], events[|events| - 1];
      assert e in events && forall x <- init :: x in events;
      TrafficGoesOn(p, init, id);
      UndisturbedGoesOn(p, init, id);
      StepHoldsTraffic(Run(p, init), e);
      NothingNegative(Run(p, init), e, id);
    }
  }

  /** However recordings and syncs interleave, nobody is charged less than was recorded, or more than twice. */
  lemma {:induction false} AtMostTwice(p: Panel, events: seq<Event>, id: nat)
    requires Owns(p, id) && Idle(p) && Quiet(p.store) && Undisturbed(events) && Traffic(events)
    requires Run(p, events).job == None
    ensures var p', recorded := Run(p, events), Total(Collected, p, events, id);
            && id in p'.store.used
            && p.store.used[id] + recorded <= p'.store.used[id] <= p.store.used[id] + 2 * recorded
  {
    UndisturbedGoesOn(p, events, id);
    RunAccounts(p, events, id);
    TrafficGoesOn(p, events, id);
    NothingNegative(Run(p, events), Advance, id);
  }

  // ---------- the file, and the restart after such a run ----------

  /** No sync gets as far as deleting the file. */
  ghost predicate FileKept(p: Panel, events: seq<Event>) {
    events == [] ||
    var init := events[..|events| - 1];
    FileKept(p, init) && !Deletes(Run(p, init), events[|events| - 1])
  }

  predicate Deletes(p: Panel, e: Event) {
    e.Tidy? && p.sync.Some? && p.sync.value.Deleting? && AnyPositive(p.sync.value.taken)
  }

  /** Of the recording under way, what it has yet to save. */
  function Unsaved(p: Panel, id: nat): int {
    if p.job.Some? && (p.job.value.Queueing? || p.job.value.Merging?) then TotalDelta(p.job.value.updates, id) else 0
  }

  ghost predicate FileSoFar(p: Panel, events: seq<Event>, id: nat) {
    var p' := Run(p, events);
    && (p'.job.Some? && p'.job.value.Merging? ==> p'.job.value.had == p'.store.backup)
    && TotalDelta(p'.store.backup, id) + Unsaved(p', id) == TotalDelta(p.store.backup, id) + Total(Collected, p, events, id)
  }

  lemma {:induction false} FileStep(p: Panel, e: Event, id: nat)
    requires p.job.Some? && p.job.value.Merging? ==> p.job.value.had == p.store.backup
    requires id != 0 && !e.WriteFails? && !e.Restart? && !Deletes(p, e)
    ensures var p' := Step(p, e);
            && (p'.job.Some? && p'.job.value.Merging? ==> p'.job.value.had == p'.store.backup)
            && TotalDelta(p'.store.backup, id) + Unsaved(p', id)
               == TotalDelta(p.store.backup, id) + Unsaved(p, id) + Amount(Collected, p, e, id)
  {
    if p.job.Some? && p.job.value.Merging? {
      SaveKeepsAccount(p.store.backup, p.job.value.updates, id);
    }
    if !e.Advance? && !e.Begin? {
      assert Step(p, e).store.backup == p.store.backup && Step(p, e).job == p.job;
    }
  }

  /** Until a sync deletes it the file grows by everything recorded. */
  lemma {:induction false} FileGrows(p: Panel, events: seq<Event>, id: nat)
    requires p.job == None && id != 0 && Undisturbed(events) && FileKept(p, events)
    ensures FileSoFar(p, events, id)
  {
    if events != [] {
      var init, e := events[..|events| - 1], events[|events| - 1];
      assert e in events && forall x <- init :: x in events;
      FileGrows(p, init, id);
      FileStep(Run(p, init), e, id);
    }
  }

  /** A restart then, whether Redis is kept or not, queues everything ever recorded once more. */
  lemma {:induction false} RestartQueuesEverythingAgain(p: Panel, events: seq<Event>, keepsRedis: bool, id: nat)
    requires Owns(p, id) && Idle(p) && Quiet(p.store) && p.store.backup == []
    requires Undisturbed(events) && FileKept(p, events) && Run(p, events).job == None
    ensures var s, recorded := Restarted(Run(p, events).store, keepsRedis), Total(Collected, p, events, id);
            && Sound(s) && id in s.used
            && s.used[id] == p.store.used[id] + recorded + Total(SyncCharged, p, events, id)
            && QueuedDelta(s.cache, id) == recorded
  {
    RunAccounts(p, events, id);
    UndisturbedGoesOn(p, events, id);
    FileGrows(p, events, id);
    RestartAccounts(Run(p, events).store, keepsRedis, id);
  }

  /** The sync that comes next, whatever its limit, moves that to the column as well, except for what it drops. */
  lemma {:induction false} SyncChargesTwice(p: Panel, events: seq<Event>, keepsRedis: bool, scanned: seq<nat>, max: nat,
                                                   outcomes: Outcomes, id: nat)
    requires Owns(p, id) && Idle(p) && Quiet(p.store) && p.store.backup == []
    requires Undisturbed(events) && FileKept(p, events) && Run(p, events).job == None
    ensures var mid, recorded := Restarted(Run(p, events).store, keepsRedis), Total(Collected, p, events, id);
            var items, s := PopAllItems(mid.cache.lists, scanned, max, 0), Synced(mid, scanned, max, outcomes);
            && id in s.used
            && Owed(s, id) == p.store.used[id] + Total(SyncCharged, p, events, id) + 2 * recorded
                              - if Charged(Taken(items), outcomes, id) then 0 else SumBy(items, DeltaOf(id))
  {
    RestartQueuesEverythingAgain(p, events, keepsRedis, id);
    SyncAccounts(Restarted(Run(p, events).store, keepsRedis), scanned, max, outcomes, id);
  }

  /** If a recording about the user comes first, it forgets what the restart queued. */
  lemma {:induction false} RecordingHealsRestart(p: Panel, events: seq<Event>, keepsRedis: bool, updates: seq<Update>, id: nat)
    requires Owns(p, id) && Idle(p) && Quiet(p.store) && p.store.backup == []
    requires Undisturbed(events) && FileKept(p, events) && Run(p, events).job == None
    requires id in UsersIn(updates)
    ensures var s := RecordUpTo(Restarted(Run(p, events).store, keepsRedis), updates, STEPS);
            && id in s.used
            && Owed(s, id) == p.store.used[id] + Total(SyncCharged, p, events, id) + Total(Collected, p, events, id)
                              + TotalDelta(updates, id)
  {
    RestartQueuesEverythingAgain(p, events, keepsRedis, id);
    RecordingAccounts(Restarted(Run(p, events).store, keepsRedis), updates, STEPS, id);
  }

  // ---------- uninterrupted runs are the jobs ----------

  lemma {:induction false} RunAppend(p: Panel, a: seq<Event>, b: seq<Event>)
    ensures Run(p, a + b) == Run(Run(p, a), b)
  {
    if b == [] {
      assert a + b == a;
    } else {
      RunAppend(p, a, b[..|b| - 1]);
      assert (a + b)[..|a + b| - 1] == a + b[..|b| - 1];
    }
  }

  lemma {:induction false} RunFirst(p: Panel, e: Event, rest: seq<Event>)
    ensures Run(p, [e] + rest) == Run(Step(p, e), rest)
  {
    RunAppend(p, [e], rest);
    assert [e][..0] == [];
  }

  lemma {:induction false} RunLast(p: Panel, init: seq<Event>, e: Event)
    ensures Run(p, init + [e]) == Step(Run(p, init), e)
  {
    assert (init + [e])[..|init|] == init;
  }

  function Times(e: Event, n: nat): seq<Event> {
    if n == 0 then [] else Times(e, n - 1) + [e]
  }

  lemma {:induction false} RunOnce(p: Panel, e: Event, n: nat)
    requires n > 0
    ensures Run(p, Times(e, n)) == Step(Run(p, Times(e, n - 1)), e)
  {
    RunLast(p, Times(e, n - 1), e);
  }

  /** The recording with its first updates queued. */
  function Queued(p: Panel, updates: seq<Update>, n: nat): Panel
    requires n <= |updates|
  {
    p.(store := p.store.(cache := RecordAll(p.store.cache, updates[..n])), job := Some(Queueing(updates, n)))
  }

  lemma {:induction false} QueueNext(p: Panel, updates: seq<Update>, n: nat)
    requires n < |updates|
    ensures Step(Queued(p, updates, n), Advance) == Queued(p, updates, n + 1)
  {
    assert updates[..n + 1][..n] == updates[..n];
  }

  /** The same step again and again, through the given panels. */
  lemma {:induction false} Iterates(e: Event, panels: seq<Panel>, n: nat)
    requires |panels| == n + 1 && forall i :: 0 <= i < n ==> Step(panels[i], e) == panels[i + 1]
    ensures Run(panels[0], Times(e, n)) == panels[n]
  {
    if n > 0 {
      Iterates(e, panels[..n], n - 1);
      RunOnce(panels[0], e, n);
      assert Step(panels[n - 1], e) == panels[n];
    }
  }

  lemma {:induction false} Queueings(p: Panel, updates: seq<Update>, n: nat)
    requires p.job == Some(Queueing(updates, 0)) && n <= |updates|
    ensures Run(p, Times(Advance, n)) == Queued(p, updates, n)
  {
    var panels := seq(n + 1, i requires 0 <= i <= n => Queued(p, updates, i));
    forall i | 0 <= i < n ensures Step(panels[i], Advance) == panels[i + 1] {
      QueueNext(p, updates, i);
    }
    Iterates(Advance, panels, n);
  }

  /** The recording so many steps after its queueing. */
  function Stage(p: Panel, updates: seq<Update>, k: nat): Panel {
    var s := p.store;
    p.(store := Store(if k < 3 then s.used else WrittenThrough(s.used, updates),
                      if k < 4 then s.cache else Clear(s.cache, UsersIn(updates)),
                      if k < 2 then s.backup else SaveUpdates(s.backup, updates)),
       job := if k == 0 then Some(Queueing(updates, |updates|))
              else if k == 1 then Some(Merging(updates, s.backup))
              else if k == 2 then Some(Saved(updates))
              else if k == 3 then Some(Written(updates))
              else None)
  }

  lemma {:induction false} StageNext(p: Panel, updates: seq<Update>, k: nat)
    requires k < STEPS
    ensures Step(Stage(p, updates, k), Advance) == Stage(p, updates, k + 1)
  {}

  lemma {:induction false} Stages(p: Panel, updates: seq<Update>, k: nat)
    requires p.job == Some(Queueing(updates, |updates|)) && k <= STEPS
    ensures Run(p, Times(Advance, k)) == Stage(p, updates, k)
  {
    var panels := seq(k + 1, i requires 0 <= i <= k => Stage(p, updates, i));
    forall i | 0 <= i < k ensures Step(panels[i], Advance) == panels[i + 1] {
      StageNext(p, updates, i);
    }
    Iterates(Advance, panels, k);
  }

  /** The steps of `UsageRecording.RecordUpTo` beyond the queueing, counted one by one. */
  function Later(steps: nat): nat {
    if steps < 2 then 0 else steps
  }

  lemma {:induction false} StageIsRecordUpTo(p: Panel, updates: seq<Update>, steps: nat)
    requires 0 < steps <= STEPS
    ensures Stage(Queued(p, updates, |updates|), updates, Later(steps)).store == RecordUpTo(p.store, updates, steps)
  {
    assert updates[..|updates|] == updates;
  }

  /** A recording with nothing in between, up to a crash, is the job's own transition. */
  lemma {:induction false} RecordingRuns(p: Panel, updates: seq<Update>, steps: nat)
    requires p.job == Some(Queueing(updates, 0)) && 0 < steps <= STEPS
    ensures var p' := Run(p, Times(Advance, |updates|) + Times(Advance, Later(steps)));
            p'.store == RecordUpTo(p.store, updates, steps) && (steps == STEPS ==> p'.job == None)
  {
    RunAppend(p, Times(Advance, |updates|), Times(Advance, Later(steps)));
    Queueings(p, updates, |updates|);
    Stages(Queued(p, updates, |updates|), updates, Later(steps));
    StageIsRecordUpTo(p, updates, steps);
  }

  /** The restore with its first entries pushed. */
  function Pushed(p: Panel, file: seq<Update>, n: nat): Panel
    requires n <= |file|
  {
    p.(store := p.store.(cache := RestoreUsers(p.store.cache, file[..n])), restore := Some(file[n..]))
  }

  lemma {:induction false} PushNextStep(p: Panel, file: seq<Update>, n: nat)
    requires n < |file|
    ensures Step(Pushed(p, file, n), PushNext) == Pushed(p, file, n + 1)
  {
    assert file[..n + 1][..n] == file[..n];
    assert file[n..][1..] == file[n + 1..];
  }

  lemma {:induction false} Pushes(p: Panel, file: seq<Update>, n: nat)
    requires p.restore == Some(file) && n <= |file|
    ensures Run(p, Times(PushNext, n)) == Pushed(p, file, n)
  {
    var panels := seq(n + 1, i requires 0 <= i <= n => Pushed(p, file, i));
    forall i | 0 <= i < n ensures Step(panels[i], PushNext) == panels[i + 1] {
      PushNextStep(p, file, i);
    }
    assert file[0..] == file;
    Iterates(PushNext, panels, n);
  }

  lemma {:induction false} AllPushed(p: Panel, file: seq<Update>)
    ensures Pushed(p, file, |file|) == p.(store := p.store.(cache := RestoreUsers(p.store.cache, file)), restore := Some([]))
  {
    assert file[..|file|] == file && file[|file|..] == [];
  }

  lemma {:induction false} RestartSteps(p: Panel, keepsRedis: bool)
    ensures var store := if keepsRedis then p.store else p.store.(cache := EMPTY);
            && Step(p, Restart(keepsRedis)) == Panel(store, None, None, None)
            && Step(Panel(store, None, None, None), LoadFile) == Panel(store, None, None, Some(store.backup))
  {}

  /** So is a restart whose restore nothing interrupts. */
  lemma {:induction false} RestartRuns(p: Panel, keepsRedis: bool)
    ensures Run(p, [Restart(keepsRedis)] + ([LoadFile] + Times(PushNext, |p.store.backup|)))
         == Panel(Restarted(p.store, keepsRedis), None, None, Some([]))
  {
    var file, store := p.store.backup, if keepsRedis then p.store else p.store.(cache := EMPTY);
    var pushes := Times(PushNext, |file|);
    RestartSteps(p, keepsRedis);
    RunFirst(p, Restart(keepsRedis), [LoadFile] + pushes);
    RunFirst(Panel(store, None, None, None), LoadFile, pushes);
    Pushes(Panel(store, None, None, Some(file)), file, |file|);
    AllPushed(Panel(store, None, None, Some(file)), file);
  }

  /** A restart at any moment, with its restore, keeps a user's account exactly when the file holds what is lost:
      what the sync had popped, what the recording had yet to queue, and what Redis held unless it is
      kept. */
  lemma {:induction false} RestartExactIff(p: Panel, keepsRedis: bool, id: nat)
    requires Owns(p, id)
    ensures var p' := Run(p, [Restart(keepsRedis)] + ([LoadFile] + Times(PushNext, |p.store.backup|)));
            && Owns(p', id)
            && (Account(p', id) == Account(p, id)
                <==> TotalDelta(p.store.backup, id)
                     == Held(p, id) + ToQueue(p, id) + if keepsRedis then 0 else QueuedDelta(p.store.cache, id))
  {
    RestartRuns(p, keepsRedis);
    RestartAccounts(p.store, keepsRedis, id);
  }

  /** The panel while the sync is popping. */
  function WhilePopping(p: Panel, lists: Lists<nat, Update>, items: seq<Update>, max: nat): Panel {
    p.(store := p.store.(cache := p.store.cache.(lists := lists)), sync := Some(Popping(items, max)))
  }

  /** What one `rpop` leaves, and what so many do. */
  function PopNext(lists: Lists<nat, Update>, items: seq<Update>, max: nat, k: nat): (Lists<nat, Update>, seq<Update>) {
    var list := At(lists, k);
    if Full(max, |items|) then (lists, items)
    else if list == [] then (lists - {k}, items)
    else (Put(lists, k, list[..|list| - 1]), if list[|list| - 1].Json? then items + [list[|list| - 1].value] else items)
  }

  function PopMany(lists: Lists<nat, Update>, items: seq<Update>, max: nat, k: nat, n: nat): (Lists<nat, Update>, seq<Update>)
    decreases n
  {
    if n == 0 then (lists, items)
    else
      var (lists', items') := PopNext(lists, items, max, k);
      PopMany(lists', items', max, k, n - 1)
  }

  lemma {:induction false} PopOneStep(p: Panel, lists: Lists<nat, Update>, items: seq<Update>, max: nat, k: nat)
    ensures var (lists', items') := PopNext(lists, items, max, k);
            Step(WhilePopping(p, lists, items, max), PopOne(k)) == WhilePopping(p, lists', items', max)
  {}

  lemma {:induction false} PopManyRuns(p: Panel, lists: Lists<nat, Update>, items: seq<Update>, max: nat, k: nat, n: nat)
    ensures var (lists', items') := PopMany(lists, items, max, k, n);
            Run(WhilePopping(p, lists, items, max), Times(PopOne(k), n)) == WhilePopping(p, lists', items', max)
    decreases n
  {
    if n > 0 {
      var (lists', items') := PopNext(lists, items, max, k);
      PopOneStep(p, lists, items, max, k);
      TimesFirst(WhilePopping(p, lists, items, max), PopOne(k), n);
      PopManyRuns(p, lists', items', max, k, n - 1);
    }
  }

  lemma {:induction false} PopListStep(lists: Lists<nat, Update>, items: seq<Update>, max: nat, k: nat)
    requires !Full(max, |items|) && At(lists, k) != []
    ensures var list, (lists', items') := At(lists, k), PopNext(lists, items, max, k);
            && At(lists', k) == list[..|list| - 1] && (At(lists', k) == [] ==> k !in lists')
            && Put(lists', k, PopRest(At(lists', k), max, |items'|)) == Put(lists, k, PopRest(list, max, |items|))
            && items' + PopItems(At(lists', k), max, |items'|) == items + PopItems(list, max, |items|)
  {
    var list := At(lists, k);
    if list[|list| - 1].Json? {
      Reassociate(items, [list[|list| - 1].value], PopItems(list[..|list| - 1], max, |items| + 1));
    }
  }

  /** `rpop` until one list is empty or the limit is reached; more of it does nothing. */
  lemma {:induction false} PopManyIs(lists: Lists<nat, Update>, items: seq<Update>, max: nat, k: nat, n: nat)
    requires At(lists, k) != [] || k !in lists || !Full(max, |items|)
    requires Full(max, |items|) || |At(lists, k)| < n
    ensures var list := At(lists, k);
            PopMany(lists, items, max, k, n)
            == (Put(lists, k, PopRest(list, max, |items|)), items + PopItems(list, max, |items|))
    decreases n
  {
    if Full(max, |items|) || k !in lists {
      NothingMore(lists, items, max, k, n);
      assert items + [] == items && Put(lists, k, At(lists, k)) == lists;
    } else {
      var (lists', items') := PopNext(lists, items, max, k);
      if At(lists, k) == [] {
        NothingMore(lists', items', max, k, n - 1);
        assert items + [] == items;
      } else {
        PopListStep(lists, items, max, k);
        PopManyIs(lists', items', max, k, n - 1);
      }
    }
  }

  lemma {:induction false} NothingMore(lists: Lists<nat, Update>, items: seq<Update>, max: nat, k: nat, n: nat)
    requires Full(max, |items|) || k !in lists
    ensures PopMany(lists, items, max, k, n) == (lists, items)
    decreases n
  {
    if n > 0 {
      assert PopNext(lists, items, max, k) == (lists, items) by { assert k !in lists ==> lists - {k} == lists; }
      NothingMore(lists, items, max, k, n - 1);
    }
  }

  lemma {:induction false} TimesFirst(p: Panel, e: Event, n: nat)
    requires n > 0
    ensures Run(p, Times(e, n)) == Run(Step(p, e), Times(e, n - 1))
  {
    TimesIs(e, n);
    RunFirst(p, e, Times(e, n - 1));
  }

  lemma {:induction false} TimesIs(e: Event, n: nat)
    requires n > 0
    ensures Times(e, n) == [e] + Times(e, n - 1)
  {
    if n > 1 {
      TimesIs(e, n - 1);
      assert ([e] + Times(e, n - 2)) + [e] == [e] + (Times(e, n - 2) + [e]);
    }
  }

  lemma {:induction false} OneListRuns(p: Panel, lists: Lists<nat, Update>, k: nat, items: seq<Update>, max: nat,
                                              more: seq<Event>)
    requires !Full(max, |items|)
    ensures var list := At(lists, k);
            Run(WhilePopping(p, lists, items, max), Times(PopOne(k), |list| + 1) + more)
            == Run(WhilePopping(p, Put(lists, k, PopRest(list, max, |items|)), items + PopItems(list, max, |items|), max), more)
  {
    var n := |At(lists, k)| + 1;
    PopManyRuns(p, lists, items, max, k, n);
    PopManyIs(lists, items, max, k, n);
    RunAppend(WhilePopping(p, lists, items, max), Times(PopOne(k), n), more);
  }

  /** Where the pops of a scan lead. */
  function AfterPops(p: Panel, lists: Lists<nat, Update>, scanned: seq<nat>, items: seq<Update>, max: nat): Panel {
    WhilePopping(p, PopAllRest(lists, scanned, max, |items|), items + PopAllItems(lists, scanned, max, |items|), max)
  }

  lemma {:induction false} AfterOneList(p: Panel, lists: Lists<nat, Update>, scanned: seq<nat>, items: seq<Update>, max: nat)
    requires scanned != [] && !Full(max, |items|)
    ensures var list := At(lists, scanned[0]);
            AfterPops(p, lists, scanned, items, max)
            == AfterPops(p, Put(lists, scanned[0], PopRest(list, max, |items|)), scanned[1..],
                         items + PopItems(list, max, |items|), max)
  {
    var list := At(lists, scanned[0]);
    var popped, lists' := PopItems(list, max, |items|), Put(lists, scanned[0], PopRest(list, max, |items|));
    PopAllStep(lists, scanned, max, |items|);
    Reassociate(items, popped, PopAllItems(lists', scanned[1..], max, |items| + |popped|));
  }

  ghost predicate OnlyPops(events: seq<Event>) {
    forall e <- events :: e.PopOne?
  }

  lemma {:induction false} TimesPops(k: nat, n: nat)
    ensures OnlyPops(Times(PopOne(k), n))
  {
    if n > 0 {
      TimesPops(k, n - 1);
    }
  }

  lemma {:induction false} PopsRun(p: Panel, lists: Lists<nat, Update>, scanned: seq<nat>, items: seq<Update>, max: nat)
    returns (events: seq<Event>)
    ensures OnlyPops(events) && Run(WhilePopping(p, lists, items, max), events) == AfterPops(p, lists, scanned, items, max)
    decreases |scanned|
  {
    if scanned == [] || Full(max, |items|) {
      events := [];
      assert items + [] == items;
    } else {
      var list, k := At(lists, scanned[0]), scanned[0];
      var more := PopsRun(p, Put(lists, k, PopRest(list, max, |items|)), scanned[1..], items + PopItems(list, max, |items|), max);
      events := Times(PopOne(k), |list| + 1) + more;
      OneListRuns(p, lists, k, items, max, more);
      AfterOneList(p, lists, scanned, items, max);
      TimesPops(k, |list| + 1);
    }
  }

  /** The panel with the given column and sync. */
  function With(p: Panel, used: map<nat, int>, sync: Option<SyncJob>): Panel {
    p.(store := p.store.(used := used), sync := sync)
  }

  /** After so many batches: all of them committed, or the call stopped by one, or all there are done. */
  ghost predicate BatchesLead(p: Panel, p': Panel, taken: map<nat, int>, outcomes: Outcomes, n: nat) {
    var used := p.store.used;
    || (p' == With(p, ChargedBelow(used, taken, n), Some(Committing(taken, n))) && GoesOnBelow(taken, outcomes, n)
        && (n == 0 || USER_BATCH * (n - 1) < |taken|))
    || (p' == With(p, ChargeUsers(used, taken, outcomes), None) && !Succeeds(taken, outcomes))
    || (p' == With(p, ChargeUsers(used, taken, outcomes), Some(Deleting(taken))) && Succeeds(taken, outcomes))
  }

  lemma {:induction false} SeqOf(s: set<nat>) returns (ids: seq<nat>)
    ensures forall id: nat :: id in ids <==> id in s
  {
    if s == {} {
      ids := [];
    } else {
      var id :| id in s;
      var rest := SeqOf(s - {id});
      ids := [id] + rest;
    }
  }

  /** The batch as a list, the way `UsageJob.CommitBatch` takes it. */
  lemma {:induction false} BatchAsList(taken: map<nat, int>, n: nat, ids: seq<nat>, attempts: nat -> Attempt)
    requires Members(taken, n, ids) && forall id <- ids :: id in taken
    ensures EndOfBatch(taken, n, attempts) == EndWith(taken, ids, attempts)
  {
    if exists j <- taken :: taken[j] > 0 && BatchOf(taken.Keys, j) == n {
      var j :| j in taken && taken[j] > 0 && BatchOf(taken.Keys, j) == n;
      assert j in ids;
    }
  }

  lemma {:induction false} BatchCharges(taken: map<nat, int>, n: nat, ids: seq<nat>, used: map<nat, int>)
    requires Members(taken, n, ids)
    ensures ChargeBatch(used, taken, n) == ChargedIn(used, taken, ids)
  {
    forall id | id in used ensures ChargeBatch(used, taken, n)[id] == ChargedIn(used, taken, ids)[id] {
      assert id in ids <==> id in taken && BatchOf(taken.Keys, id) == n;
    }
  }

  lemma {:induction false} OneBatchDecides(used: map<nat, int>, taken: map<nat, int>, outcomes: Outcomes, n: nat)
    requires GoesOnBelow(taken, outcomes, n)
    ensures var end := EndOfBatch(taken, n, outcomes(n));
            var after := if end == Fails then ChargedBelow(used, taken, n) else ChargeBatch(ChargedBelow(used, taken, n), taken, n);
            if end == GoesOn then GoesOnBelow(taken, outcomes, n + 1) && after == ChargedBelow(used, taken, n + 1)
            else !Succeeds(taken, outcomes) && after == ChargeUsers(used, taken, outcomes)
  {
    var ids := SeqOf(set id | id in taken && BatchOf(taken.Keys, id) == n);
    BatchAsList(taken, n, ids, outcomes(n));
    BatchCharges(taken, n, ids, ChargedBelow(used, taken, n));
    BatchDecided(used, taken, outcomes, n, ids, EndOfBatch(taken, n, outcomes(n)));
  }

  lemma {:induction false} OneBatch(p: Panel, taken: map<nat, int>, outcomes: Outcomes, n: nat)
    requires GoesOnBelow(taken, outcomes, n) && |taken| > USER_BATCH * n
    ensures var used := p.store.used;
            BatchesLead(p, BatchCommitted(With(p, ChargedBelow(used, taken, n), Some(Committing(taken, n))), taken, n, outcomes(n)),
                        taken, outcomes, n + 1)
  {
    OneBatchDecides(p.store.used, taken, outcomes, n);
  }

  lemma {:induction false} LastDone(used: map<nat, int>, taken: map<nat, int>, outcomes: Outcomes, n: nat)
    requires GoesOnBelow(taken, outcomes, n) && |taken| <= USER_BATCH * n
    ensures Succeeds(taken, outcomes) && ChargedBelow(used, taken, n) == ChargeUsers(used, taken, outcomes)
  {
    forall id | id in taken ensures BatchOf(taken.Keys, id) < n {
      LastBatch(taken.Keys, n, id);
    }
    SuccessChargesAll(used, taken, outcomes, n);
  }

  lemma {:induction false} BatchNext(p: Panel, p': Panel, taken: map<nat, int>, outcomes: Outcomes, n: nat)
    requires BatchesLead(p, p', taken, outcomes, n)
    ensures BatchesLead(p, Step(p', CommitBatch(outcomes(n))), taken, outcomes, n + 1)
  {
    if p'.sync.Some? && p'.sync.value.Committing? {
      if |taken| <= USER_BATCH * n {
        LastDone(p.store.used, taken, outcomes, n);
      } else {
        OneBatch(p, taken, outcomes, n);
      }
    }
  }

  lemma {:induction false} NoBatches(p: Panel, taken: map<nat, int>, outcomes: Outcomes)
    requires p.sync == Some(Committing(taken, 0))
    ensures BatchesLead(p, p, taken, outcomes, 0)
  {
    NothingCharged(p.store.used, taken, outcomes);
  }

  lemma {:induction false} BatchesRun(p: Panel, taken: map<nat, int>, outcomes: Outcomes, n: nat)
    returns (p': Panel, events: seq<Event>)
    requires p.sync == Some(Committing(taken, 0))
    ensures BatchesLead(p, p', taken, outcomes, n)
    ensures p' == Run(p, events) && forall e <- events :: OfSync(e)
  {
    p', events := p, [];
    NoBatches(p, taken, outcomes);
    for i := 0 to n
      invariant BatchesLead(p, p', taken, outcomes, i)
      invariant p' == Run(p, events) && forall e <- events :: OfSync(e)
    {
      p', events := BatchAfter(p, p', events, taken, outcomes, i);
    }
  }

  lemma {:induction false} BatchAfter(p: Panel, p1: Panel, events1: seq<Event>, taken: map<nat, int>, outcomes: Outcomes, n: nat)
    returns (p': Panel, events: seq<Event>)
    requires BatchesLead(p, p1, taken, outcomes, n) && p1 == Run(p, events1) && forall e <- events1 :: OfSync(e)
    ensures BatchesLead(p, p', taken, outcomes, n + 1)
    ensures p' == Run(p, events) && forall e <- events :: OfSync(e)
  {
    BatchNext(p, p1, taken, outcomes, n);
    RunLast(p, events1, CommitBatch(outcomes(n)));
    p', events := Step(p1, CommitBatch(outcomes(n))), events1 + [CommitBatch(outcomes(n))];
  }

  predicate OfSync(e: Event) {
    e.StartSync? || e.PopOne? || e.StopPopping? || e.CommitBatch? || e.Tidy?
  }

  /** From the sums on: the batches, the file, and the counters. */
  lemma {:induction false} CommitsRun(p: Panel, taken: map<nat, int>, outcomes: Outcomes) returns (events: seq<Event>)
    requires p.sync == Some(Committing(taken, 0)) && taken != map[]
    ensures forall e <- events :: OfSync(e)
    ensures var s := p.store;
            Run(p, events)
            == Panel(Store(ChargeUsers(s.used, taken, outcomes),
                           if Succeeds(taken, outcomes) then ClearCounters(s.cache, taken.Keys) else s.cache,
                           if Succeeds(taken, outcomes) && AnyPositive(taken) then [] else s.backup),
                     p.job, None, p.restore)
  {
    var n := |taken| + 1;
    var done, batches := BatchesRun(p, taken, outcomes, n);
    assert |taken| == |taken.Keys| && taken.Keys != {};
    assert done.sync != Some(Committing(taken, n));
    events := batches + [Tidy, Tidy];
    RunAppend(p, batches, [Tidy, Tidy]);
    assert [Tidy, Tidy] == [Tidy] + [Tidy];
    RunFirst(done, Tidy, [Tidy]);
    RunFirst(Step(done, Tidy), Tidy, []);
    assert [Tidy] + [] == [Tidy];
  }

  lemma {:induction false} PoppingRuns(p: Panel, p2: Panel, max: nat, pops: seq<Event>, more: seq<Event>)
    requires p.sync == None && p2 == Run(WhilePopping(p, p.store.cache.lists, [], max), pops)
    ensures Run(p, [StartSync(max)] + (pops + ([StopPopping] + more))) == Run(Step(p2, StopPopping), more)
  {
    var p1 := WhilePopping(p, p.store.cache.lists, [], max);
    RunFirst(p2, StopPopping, more);
    RunFirst(p, StartSync(max), pops + ([StopPopping] + more));
    assert Step(p, StartSync(max)) == p1;
    RunAppend(p1, pops, [StopPopping] + more);
  }

  /** A sync that nothing interrupts is the sync of `UsageRecording`, whatever it scans, its limit, and how its
      batches end. */
  lemma {:induction false} SyncRuns(p: Panel, scanned: seq<nat>, max: nat, outcomes: Outcomes) returns (events: seq<Event>)
    requires p.sync == None
    ensures forall e <- events :: OfSync(e)
    ensures Run(p, events) == p.(store := Synced(p.store, scanned, max, outcomes))
  {
    var lists := p.store.cache.lists;
    var items := PopAllItems(lists, scanned, max, 0);
    var pops := PopsRun(p, lists, scanned, [], max);
    assert [] + items == items;
    var p2 := AfterPops(p, lists, scanned, [], max);
    var more := [];
    if Taken(items) == map[] {
      NothingTaken(p.store, scanned, max, outcomes);
    } else {
      more := CommitsRun(Step(p2, StopPopping), Taken(items), outcomes);
    }
    PoppingRuns(p, p2, max, pops, more);
    events := [StartSync(max)] + (pops + ([StopPopping] + more));
  }

  lemma {:induction false} NothingTaken(s: Store, scanned: seq<nat>, max: nat, outcomes: Outcomes)
    requires Taken(PopAllItems(s.cache.lists, scanned, max, 0)) == map[]
    ensures Synced(s, scanned, max, outcomes) == s.(cache := s.cache.(lists := PopAllRest(s.cache.lists, scanned, max, 0)))
  {
    var c := s.cache.(lists := PopAllRest(s.cache.lists, scanned, max, 0));
    assert ClearCounters(c, {}) == c;
    assert ChargeUsers(s.used, map[], outcomes) == s.used;
  }

  // ---------- the interleaving that charges twice ----------

  const ALL_COMMITTED: Outcomes := _ => _ => Committed

  lemma {:induction false} OneUpdatePopped(u: Update, max: nat)
    ensures PopAllItems(map[u.userId := [Json(u)]], [u.userId], max, 0) == [u]
  {
    var list: seq<Entry<Update>> := [Json(u)];
    var lists := map[u.userId := list];
    assert list[..0] == [];
    assert PopItems(list, max, 0) == [u] + [];
    PopAllStep(lists, [u.userId], max, 0);
    assert [u.userId][1..] == [] && [u] + [] == [u];
  }

  lemma {:induction false} OneUpdateTaken(u: Update)
    requires u.userId != 0 && u.delta > 0
    ensures Charged(Taken([u]), ALL_COMMITTED, u.userId) && Taken([u])[u.userId] == u.delta
  {
    assert u in [u];
    assert [u][1..] == [] && SumBy([u], DeltaOf(u.userId)) == u.delta;
    assert EndOf(Taken([u]), ALL_COMMITTED, u.userId) == GoesOn;
  }

  /** A sync that finds one queued update of one user charges it. */
  lemma {:induction false} OneUpdateCharged(s: Store, u: Update, max: nat)
    requires u.userId != 0 && u.userId in s.used && u.delta > 0 && s.cache.lists == map[u.userId := [Json(u)]]
    ensures var s' := Synced(s, [u.userId], max, ALL_COMMITTED);
            u.userId in s'.used && s'.used[u.userId] == s.used[u.userId] + u.delta
  {
    OneUpdatePopped(u, max);
    assert PopAllItems(s.cache.lists, [u.userId], max, 0) == [u];
    OneUpdateTaken(u);
    assert Synced(s, [u.userId], max, ALL_COMMITTED).used == ChargeUsers(s.used, Taken([u]), ALL_COMMITTED);
  }

  lemma {:induction false} OneUpdateQueued(p: Panel, u: Update)
    requires p.job == None && Quiet(p.store)
    ensures Run(p, [Begin([u])] + Times(Advance, 1)) == Queued(p, [u], 1)
    ensures Queued(p, [u], 1).store.cache.lists == map[u.userId := [Json(u)]]
  {
    var p1 := p.(job := Some(Queueing([u], 0)));
    assert Step(p, Begin([u])) == p1;
    RunFirst(p, Begin([u]), Times(Advance, 1));
    Queueings(p1, [u], 1);
    assert [u][..1] == [u] && [u][..0] == [];
    assert RecordAll(p.store.cache, [u]) == Record(p.store.cache, u);
    assert [Json(u)] + [] == [Json(u)];
  }

  /** The sync, and then the rest of the recording. */
  lemma {:induction false} SyncThenWrite(p: Panel, u: Update, max: nat) returns (events: seq<Event>)
    requires p.job == Some(Queueing([u], 1)) && p.sync == None && u.userId != 0 && u.userId in p.store.used && u.delta > 0
    requires p.store.cache.lists == map[u.userId := [Json(u)]]
    ensures forall e <- events :: e == Advance || OfSync(e)
    ensures var p' := Run(p, events);
            && p'.job == None && p'.sync == None && p'.restore == p.restore && u.userId in p'.store.used
            && p'.store.used[u.userId] == p.store.used[u.userId] + 2 * u.delta
  {
    var sync := SyncRuns(p, [u.userId], max, ALL_COMMITTED);
    OneUpdateCharged(p.store, u, max);
    Stages(Run(p, sync), [u], STEPS);
    assert [u][..0] == [] && TotalDelta([u], u.userId) == u.delta;
    TimesAdvance(STEPS);
    events := sync + Times(Advance, STEPS);
    RunAppend(p, sync, Times(Advance, STEPS));
  }

  /** For every update with traffic and every limit: a sync between the queueing and the write-through charges
      what the write-through charges again, with no restart, no crash and no failure. */
  lemma {:induction false} OverlapChargesTwice(p: Panel, u: Update, max: nat) returns (events: seq<Event>)
    requires Idle(p) && Quiet(p.store) && Owns(p, u.userId) && u.delta > 0
    ensures [Begin([u])] <= events && forall i :: 0 < i < |events| ==> events[i] == Advance || OfSync(events[i])
    ensures var p' := Run(p, events);
            && Idle(p') && u.userId in p'.store.used
            && p'.store.used[u.userId] == p.store.used[u.userId] + 2 * u.delta
  {
    OneUpdateQueued(p, u);
    TimesAdvance(1);
    var more := SyncThenWrite(Queued(p, [u], 1), u, max);
    events := [Begin([u])] + Times(Advance, 1) + more;
    RunAppend(p, [Begin([u])] + Times(Advance, 1), more);
  }

  lemma {:induction false} TimesAdvance(n: nat)
    ensures forall e <- Times(Advance, n) :: e == Advance
  {
    if n > 0 {
      TimesAdvance(n - 1);
    }
  }
}
