/** The scheduled user sync: a limited pop from Redis, the sums per user, commits in batches of twenty
    users in id order, and the clean-up of the counters. */
module UsageService {
  import opened Prelude
  import opened RedisLists
  import opened PendingUsage

  const MAX_RETRIES: nat := 3
  const USER_BATCH: nat := 20

  /** How one attempt at a batch ends. The limits are enforced after the commit and within the same `try`:
      an exception there finds the batch committed. */
  datatype Attempt = Committed | CommittedThenDeadlock | CommittedThenRaised | Deadlock | OtherFailure

  /** How the attempts of each batch end, by batch and attempt. */
  type Outcomes = nat -> (nat -> Attempt)

  /** How a batch ends: the call goes on, or it stops with the batch charged, or without. */
  datatype End = GoesOn | ChargedAndStops | Fails

  /** A deadlock is retried, up to three attempts; one that follows the commit ends the loop instead, since
      the batch has succeeded, unless it hits the last attempt. */
  function BatchEnd(attempts: nat -> Attempt, from: nat): End
    decreases MAX_RETRIES - from
  {
    if from >= MAX_RETRIES then Fails
    else
      match attempts(from)
      case Committed => GoesOn
      case CommittedThenDeadlock => if from < MAX_RETRIES - 1 then GoesOn else ChargedAndStops
      case CommittedThenRaised => ChargedAndStops
      case Deadlock => BatchEnd(attempts, from + 1)
      case OtherFailure => Fails
  }

  /** How a batch ends, attempt by attempt: at the first of three that is no deadlock. */
  lemma BatchEndIs(attempts: nat -> Attempt)
    ensures BatchEnd(attempts, 0) == GoesOn <==>
      exists k: nat :: k < 3 && (forall j: nat :: j < k ==> attempts(j) == Deadlock)
                       && (attempts(k) == Committed || (attempts(k) == CommittedThenDeadlock && k < 2))
    ensures BatchEnd(attempts, 0) == ChargedAndStops <==>
      exists k: nat :: k < 3 && (forall j: nat :: j < k ==> attempts(j) == Deadlock)
                       && (attempts(k) == CommittedThenRaised || (attempts(k) == CommittedThenDeadlock && k == 2))
  {
    if attempts(0) == Deadlock {
      assert BatchEnd(attempts, 0) == BatchEnd(attempts, 1);
      if attempts(1) == Deadlock {
        assert BatchEnd(attempts, 1) == BatchEnd(attempts, 2);
        assert attempts(2) == Deadlock ==> BatchEnd(attempts, 2) == BatchEnd(attempts, 3);
      }
    }
  }

  /** The users of a call in ascending order, twenty to a batch. */
  lemma BatchOfTwenty(ids: seq<nat>, keys: set<nat>, i: nat, id: nat)
    requires Ascending(ids) && keys == Elements(ids) && i < |ids| && ids[i] == id
    ensures BatchOf(keys, id) == i / 20
  {
    RankOf(ids, keys, id);
    var k :| 0 <= k < |ids| && ids[k] == id && |set j | j in keys && j < id| == k;
    assert k == i;
  }

  /** The sums per user of the popped updates. */
  function Taken(items: seq<Update>): (taken: map<nat, int>)
    ensures taken.Keys == UsersOf(items) && 0 !in taken
  {
    map id | id in UsersOf(items) :: SumBy(items, DeltaOf(id))
  }

  /** The batch of a user: users are taken in the order of their ids. */
  function BatchOf(ids: set<nat>, id: nat): nat {
    |set j | j in ids && j < id| / USER_BATCH
  }

  /** How the batch of a user ends, if it has anything to commit. */
  function EndOf(taken: map<nat, int>, outcomes: Outcomes, id: nat): End {
    BatchEnd(outcomes(BatchOf(taken.Keys, id)), 0)
  }

  /** The user has a positive sum, its batch is committed, and the call goes on after each batch before that
      has anything to commit. */
  predicate Charged(taken: map<nat, int>, outcomes: Outcomes, id: nat) {
    && id in taken && taken[id] > 0 && EndOf(taken, outcomes, id) != Fails
    && forall j <- taken :: taken[j] > 0 && BatchOf(taken.Keys, j) < BatchOf(taken.Keys, id) ==> EndOf(taken, outcomes, j) == GoesOn
  }

  /** The call goes on after every batch that has anything to commit. */
  predicate Succeeds(taken: map<nat, int>, outcomes: Outcomes) {
    forall j <- taken :: taken[j] > 0 ==> EndOf(taken, outcomes, j) == GoesOn
  }

  /** There is something to commit. */
  predicate AnyPositive(taken: map<nat, int>) {
    exists j <- taken :: taken[j] > 0
  }

  /** That is, the sum over the updates of some user is positive; an update without a user id is nobody's. */
  lemma AnyPositiveIff(items: seq<Update>)
    ensures AnyPositive(Taken(items)) <==> exists u <- items :: u.userId != 0 && SumBy(items, DeltaOf(u.userId)) > 0
  {
    if j :| j in Taken(items) && Taken(items)[j] > 0 {
      var u :| u in items && u.userId != 0 && u.userId == j;
    }
    forall u | u in items && u.userId != 0 ensures u.userId in Taken(items) {
      assert u.userId in UsersOf(items);
    }
  }

  /** The `used_traffic` column, null counting as 0, and the pending usage in Redis. */
  datatype System = System(used: map<nat, int>, cache: Cache)

  function ChargeUsers(used: map<nat, int>, taken: map<nat, int>, outcomes: Outcomes): map<nat, int> {
    map id | id in used :: used[id] + if Charged(taken, outcomes, id) then taken[id] else 0
  }

  /** One call: a batch after which it stops ends it, with the counters untouched. */
  function SyncedUsers(sys: System, scanned: seq<nat>, max: nat, outcomes: Outcomes): System {
    var taken := Taken(PopAllItems(sys.cache.lists, scanned, max, 0));
    var popped := sys.cache.(lists := PopAllRest(sys.cache.lists, scanned, max, 0));
    System(ChargeUsers(sys.used, taken, outcomes),
           if Succeeds(taken, outcomes) then ClearCounters(popped, taken.Keys) else popped)
  }

  // ---------- conservation ----------

  /** For every stored user and every way the commits can end, the call loses exactly what it popped for
      a user it does not charge: it conserves the user's traffic exactly when it pops a sum of nothing or
      charges the user: the sum is positive, its batch is committed, and none before stops the call. */
  lemma {:induction false} UserTrafficConservedIff(sys: System, scanned: seq<nat>, max: nat, outcomes: Outcomes, id: nat)
    requires OwnUpdates(sys.cache) && id in sys.used && id != 0
    ensures var items := PopAllItems(sys.cache.lists, scanned, max, 0);
            var sum := SumBy(items, DeltaOf(id));
            var charged := Charged(Taken(items), outcomes, id);
            var sys' := SyncedUsers(sys, scanned, max, outcomes);
            && id in sys'.used
            && sys'.used[id] + QueuedDelta(sys'.cache, id)
               == sys.used[id] + QueuedDelta(sys.cache, id) - (if charged then 0 else sum)
            && (sys'.used[id] + QueuedDelta(sys'.cache, id) == sys.used[id] + QueuedDelta(sys.cache, id)
                <==> sum == 0 || charged)
  {
    var items := PopAllItems(sys.cache.lists, scanned, max, 0);
    PopMovesDeltas(sys.cache.lists, scanned, max, id);
    if id !in UsersOf(items) {
      NoItemsOf(items, id);
    }
  }

  lemma {:induction false} SumOfTraffic(items: seq<Update>, id: nat)
    requires forall u <- items :: u.delta >= 0
    ensures SumBy(items, DeltaOf(id)) >= 0
  {
    if items != [] {
      assert items[0] in items;
      assert forall u <- items[1..] :: u in items;
      SumOfTraffic(items[1..], id);
    }
  }

  /** With traffic that is never negative, a call that no batch stops conserves every stored user. */
  lemma CommittedSyncConserves(sys: System, scanned: seq<nat>, max: nat, outcomes: Outcomes, id: nat)
    requires OwnUpdates(sys.cache) && id in sys.used && id != 0
    requires forall u <- PopAllItems(sys.cache.lists, scanned, max, 0) :: u.delta >= 0
    requires Succeeds(Taken(PopAllItems(sys.cache.lists, scanned, max, 0)), outcomes)
    ensures var sys' := SyncedUsers(sys, scanned, max, outcomes);
            id in sys'.used
            && sys'.used[id] + QueuedDelta(sys'.cache, id) == sys.used[id] + QueuedDelta(sys.cache, id)
  {
    var items := PopAllItems(sys.cache.lists, scanned, max, 0);
    UserTrafficConservedIff(sys, scanned, max, outcomes, id);
    SumOfTraffic(items, id);
    if id !in UsersOf(items) {
      NoItemsOf(items, id);
    }
  }

  /** What a reader shows for a user: the column plus the pending total. */
  function Shown(sys: System, id: nat, coerce: int -> int): int
    requires id in sys.used
  {
    sys.used[id] + ReadTotal(sys.cache, id, coerce)
  }

  /** After a call that stops half way, the counters still hold what was popped: a user who was charged
      is shown the popped sum twice, and one who was not is shown what is in neither store any more. */
  lemma {:induction false} FailedSyncShows(w: Watched, used: map<nat, int>, scanned: seq<nat>, max: nat, outcomes: Outcomes, id: nat,
                        coerce: int -> int)
    requires Inv(w) && id in used && id != 0
    requires !Succeeds(Taken(PopAllItems(w.cache.lists, scanned, max, 0)), outcomes)
    ensures var taken := Taken(PopAllItems(w.cache.lists, scanned, max, 0));
            var sys, sys' := System(used, w.cache), SyncedUsers(System(used, w.cache), scanned, max, outcomes);
            && id in sys'.used
            && Shown(sys', id, coerce) == Shown(sys, id, coerce) + (if Charged(taken, outcomes, id) then taken[id] else 0)
  {
    assert CounterExact(w, id);
    if id !in w.cache.totals {
      EmptyStaysEmpty(w.cache.lists, scanned, max, 0, id);
    }
  }

  /** After a call that commits, a user popped whole is shown the same as before. */
  lemma CommittedSyncShows(w: Watched, used: map<nat, int>, scanned: seq<nat>, max: nat, outcomes: Outcomes, id: nat,
                           coerce: int -> int)
    requires Inv(w) && id in used && id != 0 && Popped(w, id) == 0
    requires var taken := Taken(PopAllItems(w.cache.lists, scanned, max, 0));
             Succeeds(taken, outcomes) && id in taken && taken[id] >= 0
    requires At(PopAllRest(w.cache.lists, scanned, max, 0), id) == []
    ensures var sys, sys' := System(used, w.cache), SyncedUsers(System(used, w.cache), scanned, max, outcomes);
            id in sys'.used && Shown(sys', id, coerce) == Shown(sys, id, coerce)
  {
    assert CounterExact(w, id);
    PopMovesDeltas(w.cache.lists, scanned, max, id);
  }

  // ---------- the job ----------

  class UsageJob {
    const store: PendingStore
    var used: map<nat, int>

    constructor (store: PendingStore, used: map<nat, int>)
      ensures this.store == store && this.used == used
    {
      this.store, this.used := store, used;
    }

    function State(): System
      reads this, store
    {
      System(used, store.State())
    }

    /** The user part of `sync_usage_updates_to_db`. */
    method SyncUsers(scanned: seq<nat>, max: nat, outcomes: Outcomes) returns (ok: bool, any: bool)
      modifies this`used, store
      ensures State() == SyncedUsers(old(State()), scanned, max, outcomes)
      ensures ok == Succeeds(Taken(PopAllItems(old(store.lists), scanned, max, 0)), outcomes)
      ensures any == AnyPositive(Taken(PopAllItems(old(store.lists), scanned, max, 0)))
    {
      var items := store.GetPendingUsageUpdates(scanned, max);
      var taken := Group(items);
      var ids := Sorted(taken.Keys);
      any := AnyPositive(taken);
      ok := CommitBatches(ids, taken, outcomes);
      if ok {
        store.DropCounters(ids);
      }
    }

    /** The batches one after the other, until one stops the call. */
    method CommitBatches(ids: seq<nat>, taken: map<nat, int>, outcomes: Outcomes) returns (ok: bool)
      requires Ascending(ids) && Elements(ids) == taken.Keys
      modifies this`used
      ensures used == ChargeUsers(old(used), taken, outcomes)
      ensures ok == Succeeds(taken, outcomes)
    {
      var start, batch := 0, 0;
      NothingCharged(used, taken, outcomes);
      while start < |ids|
        invariant start <= |ids| && (start == USER_BATCH * batch || (start == |ids| && start <= USER_BATCH * batch))
        invariant GoesOnBelow(taken, outcomes, batch)
        invariant used == ChargedBelow(old(used), taken, batch)
      {
        var end := if start + USER_BATCH <= |ids| then start + USER_BATCH else |ids|;
        var members := ids[start..end];
        IsBatch(ids, taken, batch, start, end);
        ok := CommitMembers(members, taken, outcomes, batch, old(used));
        if !ok {
          return;
        }
        start, batch := end, batch + 1;
      }
      AllBatchesDone(old(used), ids, taken, outcomes, batch);
      return true;
    }

    method CommitMembers(members: seq<nat>, taken: map<nat, int>, outcomes: Outcomes, batch: nat, ghost before: map<nat, int>)
      returns (ok: bool)
      requires Members(taken, batch, members) && (forall id <- members :: id in taken)
      requires GoesOnBelow(taken, outcomes, batch) && used == ChargedBelow(before, taken, batch)
      modifies this`used
      ensures ok ==> GoesOnBelow(taken, outcomes, batch + 1) && used == ChargedBelow(before, taken, batch + 1)
      ensures !ok ==> !Succeeds(taken, outcomes) && used == ChargeUsers(before, taken, outcomes)
    {
      var result := CommitBatch(members, taken, outcomes(batch));
      BatchDecided(before, taken, outcomes, batch, members, result);
      ok := result == GoesOn;
    }

    /** One batch: nothing to do without a positive sum, else up to three attempts. */
    method CommitBatch(ids: seq<nat>, taken: map<nat, int>, attempts: nat -> Attempt) returns (result: End)
      requires forall id <- ids :: id in taken
      modifies this`used
      ensures result == EndWith(taken, ids, attempts)
      ensures used == if result != Fails then ChargedIn(old(used), taken, ids) else old(used)
    {
      var positive := set id | id in ids && taken[id] > 0;
      if positive == {} {
        assert forall id <- ids :: id !in positive;
        assert ChargedIn(used, taken, ids) == used;
        return GoesOn;
      }
      var some :| some in positive;
      assert some in ids && taken[some] > 0;
      var retries := 0;
      while true
        invariant used == old(used) && 0 <= retries < MAX_RETRIES
        invariant BatchEnd(attempts, 0) == BatchEnd(attempts, retries)
        decreases MAX_RETRIES - retries
      {
        var attempt := attempts(retries);
        if attempt.Committed? || attempt.CommittedThenDeadlock? || attempt.CommittedThenRaised? {
          used := map id | id in used :: used[id] + if id in positive then taken[id] else 0;
          var again := attempt.CommittedThenDeadlock? && retries < MAX_RETRIES - 1;
          return if attempt.Committed? || again then GoesOn else ChargedAndStops;
        }
        if !attempt.Deadlock? || retries == MAX_RETRIES - 1 {
          return Fails;
        }
        retries := retries + 1;
      }
    }
  }

  /** How a batch ends that may have nothing to commit. */
  function EndWith(taken: map<nat, int>, ids: seq<nat>, attempts: nat -> Attempt): End
    requires forall id <- ids :: id in taken
  {
    if exists id <- ids :: taken[id] > 0 then BatchEnd(attempts, 0) else GoesOn
  }

  /** The column with the positive sums of the given users added. */
  function ChargedIn(used: map<nat, int>, taken: map<nat, int>, ids: seq<nat>): map<nat, int> {
    map id | id in used :: used[id] + if id in ids && id in taken && taken[id] > 0 then taken[id] else 0
  }

  function ChargedBelow(used: map<nat, int>, taken: map<nat, int>, batch: nat): map<nat, int> {
    map id | id in used ::
      used[id] + if id in taken && taken[id] > 0 && BatchOf(taken.Keys, id) < batch then taken[id] else 0
  }

  predicate GoesOnBelow(taken: map<nat, int>, outcomes: Outcomes, batch: nat) {
    forall j <- taken :: taken[j] > 0 && BatchOf(taken.Keys, j) < batch ==> EndOf(taken, outcomes, j) == GoesOn
  }

  ghost predicate Members(taken: map<nat, int>, batch: nat, ids: seq<nat>) {
    forall id: nat :: id in ids <==> id in taken && BatchOf(taken.Keys, id) == batch
  }

  lemma IsBatch(ids: seq<nat>, taken: map<nat, int>, batch: nat, start: nat, end: nat)
    requires Ascending(ids) && Elements(ids) == taken.Keys
    requires start == USER_BATCH * batch < |ids| && end == if start + USER_BATCH <= |ids| then start + USER_BATCH else |ids|
    ensures Members(taken, batch, ids[start..end]) && forall id <- ids[start..end] :: id in taken
  {
    forall id: nat ensures id in ids[start..end] <==> id in taken && BatchOf(taken.Keys, id) == batch {
      BatchMembers(ids, taken.Keys, batch, start, end, id);
    }
  }

  lemma NothingCharged(used: map<nat, int>, taken: map<nat, int>, outcomes: Outcomes)
    ensures ChargedBelow(used, taken, 0) == used && GoesOnBelow(taken, outcomes, 0)
  {}

  /** A batch after which the call goes on extends what is charged; one that stops it is charged or not. */
  lemma {:induction false} BatchDecided(used: map<nat, int>, taken: map<nat, int>, outcomes: Outcomes, batch: nat, ids: seq<nat>, result: End)
    requires GoesOnBelow(taken, outcomes, batch)
    requires Members(taken, batch, ids) && forall id <- ids :: id in taken
    requires result == EndWith(taken, ids, outcomes(batch))
    ensures result == GoesOn ==> GoesOnBelow(taken, outcomes, batch + 1)
    ensures result != GoesOn ==> !Succeeds(taken, outcomes)
    ensures ChargedIn(ChargedBelow(used, taken, batch), taken, ids) == ChargedBelow(used, taken, batch + 1)
    ensures result == ChargedAndStops ==> ChargedBelow(used, taken, batch + 1) == ChargeUsers(used, taken, outcomes)
    ensures result == Fails ==> ChargedBelow(used, taken, batch) == ChargeUsers(used, taken, outcomes)
  {
    NextCharges(used, taken, batch, ids);
    if result == GoesOn {
      BatchGoesOn(taken, outcomes, batch, ids);
    } else {
      var j :| j in ids && taken[j] > 0;
      assert EndOf(taken, outcomes, j) == result;
      StopEndsCharging(used, taken, outcomes, batch, j);
    }
  }

  lemma BatchGoesOn(taken: map<nat, int>, outcomes: Outcomes, batch: nat, ids: seq<nat>)
    requires GoesOnBelow(taken, outcomes, batch) && Members(taken, batch, ids)
    requires forall id <- ids :: id in taken
    requires EndWith(taken, ids, outcomes(batch)) == GoesOn
    ensures GoesOnBelow(taken, outcomes, batch + 1)
  {
    forall j | j in taken && taken[j] > 0 && BatchOf(taken.Keys, j) < batch + 1 ensures EndOf(taken, outcomes, j) == GoesOn {
      assert BatchOf(taken.Keys, j) == batch ==> j in ids;
    }
  }

  lemma NextCharges(used: map<nat, int>, taken: map<nat, int>, batch: nat, ids: seq<nat>)
    requires Members(taken, batch, ids)
    ensures ChargedIn(ChargedBelow(used, taken, batch), taken, ids) == ChargedBelow(used, taken, batch + 1)
  {}

  /** The batches charged when `stopping`'s batch stops the call: those before, and that one unless it fails. */
  function ChargedBatches(taken: map<nat, int>, outcomes: Outcomes, batch: nat, stopping: nat): nat {
    if EndOf(taken, outcomes, stopping) == Fails then batch else batch + 1
  }

  lemma ChargedIffBelow(taken: map<nat, int>, outcomes: Outcomes, batch: nat, stopping: nat, id: nat)
    requires GoesOnBelow(taken, outcomes, batch)
    requires stopping in taken && taken[stopping] > 0 && BatchOf(taken.Keys, stopping) == batch
    requires EndOf(taken, outcomes, stopping) != GoesOn
    requires id in taken && taken[id] > 0
    ensures Charged(taken, outcomes, id) <==> BatchOf(taken.Keys, id) < ChargedBatches(taken, outcomes, batch, stopping)
  {}

  lemma SameCharges(used: map<nat, int>, taken: map<nat, int>, outcomes: Outcomes, batch: nat)
    requires forall id <- taken :: taken[id] > 0 ==> (Charged(taken, outcomes, id) <==> BatchOf(taken.Keys, id) < batch)
    ensures ChargedBelow(used, taken, batch) == ChargeUsers(used, taken, outcomes)
  {}

  lemma StopEndsCharging(used: map<nat, int>, taken: map<nat, int>, outcomes: Outcomes, batch: nat, stopping: nat)
    requires GoesOnBelow(taken, outcomes, batch)
    requires stopping in taken && taken[stopping] > 0 && BatchOf(taken.Keys, stopping) == batch
    requires EndOf(taken, outcomes, stopping) != GoesOn
    ensures ChargedBelow(used, taken, ChargedBatches(taken, outcomes, batch, stopping)) == ChargeUsers(used, taken, outcomes)
  {
    forall id | id in taken && taken[id] > 0
      ensures Charged(taken, outcomes, id) <==> BatchOf(taken.Keys, id) < ChargedBatches(taken, outcomes, batch, stopping)
    {
      ChargedIffBelow(taken, outcomes, batch, stopping, id);
    }
    SameCharges(used, taken, outcomes, ChargedBatches(taken, outcomes, batch, stopping));
  }

  lemma BatchBelow(ids: seq<nat>, keys: set<nat>, batch: nat, id: nat)
    requires Ascending(ids) && Elements(ids) == keys && |ids| <= USER_BATCH * batch && id in keys
    ensures BatchOf(keys, id) < batch
  {
    RankOf(ids, keys, id);
  }

  lemma AllBatchesDone(used: map<nat, int>, ids: seq<nat>, taken: map<nat, int>, outcomes: Outcomes, batch: nat)
    requires Ascending(ids) && Elements(ids) == taken.Keys && |ids| <= USER_BATCH * batch
    requires GoesOnBelow(taken, outcomes, batch)
    ensures Succeeds(taken, outcomes) && ChargedBelow(used, taken, batch) == ChargeUsers(used, taken, outcomes)
  {
    forall id | id in taken ensures BatchOf(taken.Keys, id) < batch {
      BatchBelow(ids, taken.Keys, batch, id);
    }
    SuccessChargesAll(used, taken, outcomes, batch);
  }

  lemma SuccessChargesAll(used: map<nat, int>, taken: map<nat, int>, outcomes: Outcomes, batch: nat)
    requires forall id <- taken :: BatchOf(taken.Keys, id) < batch
    requires GoesOnBelow(taken, outcomes, batch)
    ensures Succeeds(taken, outcomes) && ChargedBelow(used, taken, batch) == ChargeUsers(used, taken, outcomes)
  {
    assert Succeeds(taken, outcomes);
    forall id | id in taken && taken[id] > 0
      ensures Charged(taken, outcomes, id) <==> BatchOf(taken.Keys, id) < batch
    {
      assert EndOf(taken, outcomes, id) == GoesOn;
    }
    SameCharges(used, taken, outcomes, batch);
  }

  // ---------- sums and order ----------

  predicate Ascending(ids: seq<nat>) {
    forall i, j :: 0 <= i < j < |ids| ==> ids[i] < ids[j]
  }

  /** The place of an id in the sorted list is the number of smaller ids. */
  lemma RankOf(ids: seq<nat>, keys: set<nat>, id: nat)
    requires Ascending(ids) && Elements(ids) == keys && id in keys
    ensures exists i :: 0 <= i < |ids| && ids[i] == id && |set j | j in keys && j < id| == i
  {
    var i :| 0 <= i < |ids| && ids[i] == id;
    ElementsOf(ids[..i]);
    assert Elements(ids[..i]) == set j | j in keys && j < id by {
      forall j | j in keys && j < id ensures j in ids[..i] {
        var k :| 0 <= k < |ids| && ids[k] == j;
        assert ids[..i][k] == j;
      }
      forall j | j in ids[..i] ensures j in keys && j < id {
        var k :| 0 <= k < i && ids[..i][k] == j;
        assert ids[k] == j && ids[k] in ids;
      }
    }
  }

  lemma BatchMembers(ids: seq<nat>, keys: set<nat>, batch: nat, start: nat, end: nat, id: nat)
    requires Ascending(ids) && Elements(ids) == keys
    requires start == USER_BATCH * batch < |ids| && end == if start + USER_BATCH <= |ids| then start + USER_BATCH else |ids|
    ensures id in ids[start..end] <==> id in keys && BatchOf(keys, id) == batch
  {
    assert forall x <- ids[start..end] :: x in ids;
    if id in keys {
      RankOf(ids, keys, id);
      var i :| 0 <= i < |ids| && ids[i] == id && |set j | j in keys && j < id| == i;
      if start <= i < end {
        assert ids[start..end][i - start] == id;
      }
      if id in ids[start..end] {
        var k :| 0 <= k < end - start && ids[start..end][k] == id;
        assert ids[start + k] == id;
        assert start + k == i;
      }
    }
  }

  /** The grouping loop. */
  method Group(items: seq<Update>) returns (taken: map<nat, int>)
    ensures taken == Taken(items)
  {
    taken := map[];
    for i := 0 to |items|
      invariant taken == Taken(items[..i])
    {
      var u := items[i];
      assert items[..i + 1] == items[..i] + [u];
      TakenOfOneMore(items[..i], u);
      if u.userId != 0 {
        taken := taken[u.userId := GetDefault(taken, u.userId, 0) + u.delta];
      }
    }
    assert items[..|items|] == items;
  }

  lemma SumOfOneMore(items: seq<Update>, u: Update, id: nat)
    ensures SumBy(items + [u], DeltaOf(id)) == SumBy(items, DeltaOf(id)) + (if u.userId == id then u.delta else 0)
  {
    SumByAppend(items, [u], DeltaOf(id));
    assert [u][1..] == [];
  }

  lemma UsersOfOneMore(items: seq<Update>, u: Update)
    ensures UsersOf(items + [u]) == UsersOf(items) + (if u.userId == 0 then {} else {u.userId})
  {}

  lemma TakenAfter(items: seq<Update>, u: Update, id: nat)
    requires id in Taken(items + [u])
    ensures Taken(items + [u])[id] == GetDefault(Taken(items), id, 0) + (if u.userId == id then u.delta else 0)
  {
    SumOfOneMore(items, u, id);
    if id !in UsersOf(items) {
      NoItemsOf(items, id);
    }
  }

  /** Two maps of sums that differ by one addition. */
  lemma SumsDiffer(before: map<nat, int>, after: map<nat, int>, u: Update)
    requires after.Keys == before.Keys + (if u.userId == 0 then {} else {u.userId})
    requires forall id <- after :: after[id] == GetDefault(before, id, 0) + (if u.userId == id then u.delta else 0)
    requires 0 !in after
    ensures u.userId == 0 ==> after == before
    ensures u.userId != 0 ==> after == before[u.userId := GetDefault(before, u.userId, 0) + u.delta]
  {}

  lemma TakenOfOneMore(items: seq<Update>, u: Update)
    ensures u.userId == 0 ==> Taken(items + [u]) == Taken(items)
    ensures u.userId != 0 ==> Taken(items + [u]) == Taken(items)[u.userId := GetDefault(Taken(items), u.userId, 0) + u.delta]
  {
    UsersOfOneMore(items, u);
    forall id | id in Taken(items + [u])
      ensures Taken(items + [u])[id] == GetDefault(Taken(items), id, 0) + (if u.userId == id then u.delta else 0)
    {
      TakenAfter(items, u, id);
    }
    SumsDiffer(Taken(items), Taken(items + [u]), u);
  }

  method Insert(ids: seq<nat>, id: nat) returns (longer: seq<nat>)
    requires Ascending(ids) && id !in ids
    ensures Ascending(longer) && Elements(longer) == Elements(ids) + {id}
  {
    var i := 0;
    while i < |ids| && ids[i] < id
      invariant 0 <= i <= |ids| && forall k :: 0 <= k < i ==> ids[k] < id
    {
      i := i + 1;
    }
    assert i < |ids| ==> ids[i] in ids;
    longer := ids[..i] + [id] + ids[i..];
    assert Elements(longer) == Elements(ids) + {id} by { assert ids == ids[..i] + ids[i..]; }
  }

  /** `list.sort()` on the ids. */
  method Sorted(keys: set<nat>) returns (ids: seq<nat>)
    ensures Ascending(ids) && Elements(ids) == keys
  {
    ids := [];
    var left := keys;
    while left != {}
      invariant left <= keys && Ascending(ids) && Elements(ids) == keys - left
      decreases left
    {
      var id :| id in left;
      assert id !in ids by { assert id !in Elements(ids); }
      ids := Insert(ids, id);
      left := left - {id};
    }
  }
}
