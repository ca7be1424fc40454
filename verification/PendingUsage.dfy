/** Unsynced usage of users in Redis: a list of deltas per user, a fast counter beside it, and the
    last seen time. */
module PendingUsage {
  import opened Prelude
  import opened RedisLists

  /** One queued update; times are instants. */
  datatype Update = Update(userId: nat, delta: int, onlineAt: Option<int>)

  datatype Cache = Cache(lists: Lists<nat, Update>, totals: map<nat, int>, online: map<nat, int>)

  const EMPTY := Cache(map[], map[], map[])

  function DeltaOf(id: nat): Update -> int {
    (u: Update) => if u.userId == id then u.delta else 0
  }

  /** What is queued for one user. */
  function QueuedDelta(c: Cache, id: nat): int {
    OwnDelta(c.lists, id)
  }

  function OwnDelta(lists: Lists<nat, Update>, id: nat): int {
    SumBy(Fifo(At(lists, id)), DeltaOf(id))
  }

  /** Every list holds parsed updates of its own user, as the only writer leaves it. */
  predicate OwnUpdates(c: Cache) {
    Owned(c.lists)
  }

  predicate Owned(lists: Lists<nat, Update>) {
    forall id <- lists :: AllOwn(lists[id], id)
  }

  predicate AllOwn(list: seq<Entry<Update>>, id: nat) {
    forall e <- list :: e.Json? && e.value.userId == id
  }

  // ---------- the operations on values ----------

  function Record(c: Cache, u: Update): Cache {
    Cache(LPush(c.lists, u.userId, Json(u)),
          c.totals[u.userId := GetDefault(c.totals, u.userId, 0) + u.delta],
          if u.onlineAt.Some? then c.online[u.userId := u.onlineAt.value] else c.online)
  }

  /** The fallback sum over the raw list, head first. `coerce` is `int(float(x))`, whatever it does
      to large numbers. */
  function CoercedSum(list: seq<Entry<Update>>, coerce: int -> int): int {
    if list == [] then 0
    else CoercedSum(list[..|list| - 1], coerce)
         + (if list[|list| - 1].Json? then coerce(list[|list| - 1].value.delta) else 0)
  }

  function ReadTotal(c: Cache, id: nat, coerce: int -> int): int {
    if id in c.totals then c.totals[id] else CoercedSum(At(c.lists, id), coerce)
  }

  function FirstOnline(list: seq<Entry<Update>>): Option<int> {
    if list == [] then None
    else if list[0].Json? && list[0].value.onlineAt.Some? then list[0].value.onlineAt
    else FirstOnline(list[1..])
  }

  function ReadOnline(c: Cache, id: nat): Option<int> {
    if id in c.online then Some(c.online[id])
    else if id in c.totals then None
    else FirstOnline(At(c.lists, id))
  }

  /** A read leaves the counter behind. */
  function AfterRead(c: Cache, id: nat, coerce: int -> int): Cache {
    c.(totals := c.totals[id := ReadTotal(c, id, coerce)])
  }

  /** `clear_user_pending_usage`: list, counter and last seen time. */
  function Clear(c: Cache, ids: set<nat>): Cache {
    Cache(c.lists - ids, c.totals - ids, c.online - ids)
  }

  /** The clean-up of the user sync: counter and last seen time, but not the list. */
  function ClearCounters(c: Cache, ids: set<nat>): Cache {
    Cache(c.lists, c.totals - ids, c.online - ids)
  }

  // ---------- the counter invariant ----------

  /** A cache together with what was popped per user since that user's last clear. */
  datatype Watched = Watched(cache: Cache, popped: map<nat, int>)

  function Popped(w: Watched, id: nat): int {
    GetDefault(w.popped, id, 0)
  }

  predicate CounterExact(w: Watched, id: nat) {
    if id in w.cache.totals
    then w.cache.totals[id] == QueuedDelta(w.cache, id) + Popped(w, id)
    else At(w.cache.lists, id) == [] && Popped(w, id) == 0
  }

  ghost predicate Inv(w: Watched) {
    OwnUpdates(w.cache) && forall id: nat :: CounterExact(w, id)
  }

  datatype Op =
    | Recorded(u: Update)
    | PoppedUpTo(scanned: seq<nat>, max: nat)
    | Read(id: nat, coerce: int -> int)
    | Cleared(ids: set<nat>)

  function Step(w: Watched, op: Op): Watched {
    match op
    case Recorded(u) => w.(cache := Record(w.cache, u))
    case PoppedUpTo(scanned, max) =>
      var items := PopAllItems(w.cache.lists, scanned, max, 0);
      Watched(w.cache.(lists := PopAllRest(w.cache.lists, scanned, max, 0)),
              map id | id in w.popped.Keys + (set u <- items :: u.userId)
                :: Popped(w, id) + SumBy(items, DeltaOf(id)))
    case Read(id, coerce) => w.(cache := AfterRead(w.cache, id, coerce))
    case Cleared(ids) => Watched(Clear(w.cache, ids), w.popped - ids)
  }

  lemma {:induction false} SumOfOthers(items: seq<Update>, id: nat)
    requires forall u <- items :: u.userId != id
    ensures SumBy(items, DeltaOf(id)) == 0
  {
    if items != [] {
      assert items[0] in items;
      assert forall u <- items[1..] :: u in items;
      SumOfOthers(items[1..], id);
    }
  }

  lemma {:induction false} FifoMembers(list: seq<Entry<Update>>, u: Update)
    requires u in Fifo(list)
    ensures Json(u) in list
  {
    assert list != [];
    var shorter := list[..|list| - 1];
    assert forall e <- shorter :: e in list;
    if list[|list| - 1] != Json(u) {
      FifoMembers(shorter, u);
    }
  }

  /** A list of own updates may be replaced by what is left of it. */
  lemma OneListStaysOwned(lists: Lists<nat, Update>, k: nat, max: nat, taken: nat)
    requires Owned(lists)
    ensures Owned(Put(lists, k, PopRest(At(lists, k), max, taken)))
  {
    var list := At(lists, k);
    var rest := PopRest(list, max, taken);
    PopRestIsPrefix(list, max, taken);
    assert rest == list[..|rest|];
    assert AllOwn(list, k);
    assert AllOwn(rest, k);
  }

  lemma {:induction false} PopKeepsOwn(lists: Lists<nat, Update>, scanned: seq<nat>, max: nat, taken: nat)
    requires Owned(lists)
    ensures Owned(PopAllRest(lists, scanned, max, taken))
    decreases |scanned|
  {
    if scanned != [] && !Full(max, taken) {
      var list := At(lists, scanned[0]);
      OneListStaysOwned(lists, scanned[0], max, taken);
      PopAllStep(lists, scanned, max, taken);
      PopKeepsOwn(Put(lists, scanned[0], PopRest(list, max, taken)), scanned[1..], max,
                  taken + |PopItems(list, max, taken)|);
    }
  }

  lemma {:induction false} PopRestIsPrefix<T>(list: seq<Entry<T>>, max: nat, taken: nat)
    ensures PopRest(list, max, taken) <= list
  {
    if list != [] && !Full(max, taken) {
      PopRestIsPrefix(list[..|list| - 1], max, if list[|list| - 1].Json? then taken + 1 else taken);
    }
  }

  /** What one limited pop takes out of a list of a user's own updates: its oldest ones, as many as
      there is room for. */
  lemma {:induction false} PopOwn(list: seq<Entry<Update>>, max: nat, taken: nat, id: nat)
    requires AllOwn(list, id) && (max != 0 ==> taken <= max)
    ensures var items, rest := PopItems(list, max, taken), PopRest(list, max, taken);
            && |items| == (if max == 0 || |list| <= max - taken then |list| else max - taken)
            && rest == list[..|list| - |items|]
            && forall u <- items :: u.userId == id
  {
    if list != [] && !Full(max, taken) {
      assert list[|list| - 1] in list;
      assert forall e <- list[..|list| - 1] :: e in list;
      PopOwn(list[..|list| - 1], max, taken + 1, id);
    }
  }

  /** Over distinct keys only a user's own list carries deltas of that user. */
  lemma {:induction false} QueuedIsOwn(lists: Lists<nat, Update>, keys: seq<nat>, id: nat)
    requires Owned(lists) && Distinct(keys)
    ensures Queued(lists, keys, DeltaOf(id)) == if id in keys then OwnDelta(lists, id) else 0
  {
    if keys != [] {
      QueuedIsOwn(lists, keys[1..], id);
      var k := keys[0];
      if k != id {
        forall u <- Fifo(At(lists, k)) ensures u.userId != id {
          FifoMembers(At(lists, k), u);
        }
        SumOfOthers(Fifo(At(lists, k)), id);
      }
    }
  }

  /** A limited pop moves each user's deltas from the list to the result, however often the scan yields
      a key. */
  lemma PopMovesDeltas(lists: Lists<nat, Update>, scanned: seq<nat>, max: nat, id: nat)
    requires Owned(lists)
    ensures OwnDelta(lists, id)
         == SumBy(PopAllItems(lists, scanned, max, 0), DeltaOf(id)) + OwnDelta(PopAllRest(lists, scanned, max, 0), id)
  {
    var keys := Once(scanned + [id]);
    PopAllConserves(lists, scanned, keys, max, 0, DeltaOf(id));
    PopKeepsOwn(lists, scanned, max, 0);
    QueuedIsOwn(lists, keys, id);
    QueuedIsOwn(PopAllRest(lists, scanned, max, 0), keys, id);
  }

  lemma PushAdds(c: Cache, u: Update, id: nat)
    requires OwnUpdates(c)
    ensures OwnUpdates(Record(c, u))
    ensures QueuedDelta(Record(c, u), id) == QueuedDelta(c, id) + (if u.userId == id then u.delta else 0)
  {
    var c' := Record(c, u);
    forall k | k in c'.lists ensures AllOwn(c'.lists[k], k) {
      if k == u.userId {
        assert AllOwn(At(c.lists, k), k);
      }
    }
    if u.userId == id {
      FifoOfPush(u, At(c.lists, id));
      SumByAppend(Fifo(At(c.lists, id)), [u], DeltaOf(id));
    }
  }

  lemma {:induction false} NoItemsOf(items: seq<Update>, id: nat)
    requires id !in set u <- items :: u.userId
    ensures SumBy(items, DeltaOf(id)) == 0
  {
    forall u <- items ensures u.userId != id {
      assert u.userId in set v <- items :: v.userId;
    }
    SumOfOthers(items, id);
  }

  lemma PopStepOwn(w: Watched, scanned: seq<nat>, max: nat)
    requires OwnUpdates(w.cache)
    ensures OwnUpdates(Step(w, PoppedUpTo(scanned, max)).cache)
  {
    PopKeepsOwn(w.cache.lists, scanned, max, 0);
  }

  lemma PopStepExact(w: Watched, scanned: seq<nat>, max: nat, id: nat)
    requires Inv(w)
    ensures CounterExact(Step(w, PoppedUpTo(scanned, max)), id)
  {
    var items := PopAllItems(w.cache.lists, scanned, max, 0);
    var w' := Step(w, PoppedUpTo(scanned, max));
    PopMovesDeltas(w.cache.lists, scanned, max, id);
    assert CounterExact(w, id);
    if At(w.cache.lists, id) == [] {
      EmptyStaysEmpty(w.cache.lists, scanned, max, 0, id);
    }
    assert Popped(w', id) == Popped(w, id) + SumBy(items, DeltaOf(id)) by {
      if id !in w'.popped {
        NoItemsOf(items, id);
      }
    }
  }

  /** Recording, limited popping, reading and clearing keep every user's counter exact: it is what
      is queued plus what was popped since the last clear, and it is absent only when both are nil. */
  lemma StepKeepsInv(w: Watched, op: Op)
    requires Inv(w)
    ensures Inv(Step(w, op))
  {
    var w' := Step(w, op);
    match op
    case Recorded(u) =>
      PushAdds(w.cache, u, u.userId);
      forall id: nat ensures CounterExact(w', id) {
        assert CounterExact(w, id);
        PushAdds(w.cache, u, id);
      }
    case PoppedUpTo(scanned, max) =>
      PopStepOwn(w, scanned, max);
      forall id: nat ensures CounterExact(w', id) {
        PopStepExact(w, scanned, max, id);
      }
    case Read(i, coerce) =>
      assert CounterExact(w, i);
      forall id: nat ensures CounterExact(w', id) {
        assert CounterExact(w, id);
      }
    case Cleared(ids) =>
      forall id: nat ensures CounterExact(w', id) {
        assert CounterExact(w, id);
      }
  }

  function RunOps(w: Watched, ops: seq<Op>): Watched {
    if ops == [] then w else Step(RunOps(w, ops[..|ops| - 1]), ops[|ops| - 1])
  }

  /** Over every sequence of operations from an empty cache, a read reports exactly the queued plus
      the popped deltas of the user. It does so whatever the conversion through floats does, because
      the fallback sum is only ever taken over an empty list. */
  lemma {:induction false} ReadsAreExact(ops: seq<Op>, id: nat, coerce: int -> int)
    ensures var w := RunOps(Watched(EMPTY, map[]), ops);
            && Inv(w)
            && ReadTotal(w.cache, id, coerce) == QueuedDelta(w.cache, id) + Popped(w, id)
            && (id !in w.cache.totals ==> At(w.cache.lists, id) == [])
  {
    if ops != [] {
      ReadsAreExact(ops[..|ops| - 1], id, coerce);
      StepKeepsInv(RunOps(Watched(EMPTY, map[]), ops[..|ops| - 1]), ops[|ops| - 1]);
    }
    assert CounterExact(RunOps(Watched(EMPTY, map[]), ops), id);
  }

  /** The last time with which an update of the user was recorded since the user's last clear. */
  function LastOnline(ops: seq<Op>, id: nat): Option<int> {
    if ops == [] then None
    else
      match ops[|ops| - 1]
      case Recorded(u) => if u.userId == id && u.onlineAt.Some? then u.onlineAt else LastOnline(ops[..|ops| - 1], id)
      case Cleared(ids) => if id in ids then None else LastOnline(ops[..|ops| - 1], id)
      case _ => LastOnline(ops[..|ops| - 1], id)
  }

  /** And over every such sequence a read reports just that time. */
  lemma {:induction false} OnlineReadsAreExact(ops: seq<Op>, id: nat)
    ensures ReadOnline(RunOps(Watched(EMPTY, map[]), ops).cache, id) == LastOnline(ops, id)
  {
    OnlineIsLast(ops, id);
    ReadsAreExact(ops, id, (x: int) => x);
  }

  lemma {:induction false} OnlineIsLast(ops: seq<Op>, id: nat)
    ensures Get(RunOps(Watched(EMPTY, map[]), ops).cache.online, id) == LastOnline(ops, id)
  {
    if ops != [] {
      OnlineIsLast(ops[..|ops| - 1], id);
    }
  }

  /** As far as numbers come through the conversion unchanged, the fallback sum is what is queued. */
  lemma {:induction false} FallbackIsQueued(list: seq<Entry<Update>>, id: nat)
    requires AllOwn(list, id)
    ensures CoercedSum(list, (x: int) => x) == SumBy(Fifo(list), DeltaOf(id))
  {
    if list != [] {
      var init, e := list[..|list| - 1], list[|list| - 1];
      assert e in list && forall x <- init :: x in list;
      FallbackIsQueued(init, id);
      assert ([e.value] + Fifo(init))[1..] == Fifo(init);
    }
  }

  // ---------- the counter clean-up of the user sync ----------

  /** The users among the updates; an update without a user id is skipped. */
  function UsersOf(items: seq<Update>): set<nat> {
    set u <- items | u.userId != 0 :: u.userId
  }

  /** What a user sync that commits does to Redis: the limited pop, and at its end the counters of the users it
      popped are dropped, since their deltas are in the database now. The commits and their pauses lie in
      between, and with them whatever is recorded, read and cleared meanwhile. */
  function UserSync(w: Watched, scanned: seq<nat>, max: nat, meanwhile: seq<Op>): Watched {
    var ids := UsersOf(PopAllItems(w.cache.lists, scanned, max, 0));
    var w' := RunOps(Step(w, PoppedUpTo(scanned, max)), meanwhile);
    Watched(ClearCounters(w'.cache, ids), w'.popped - ids)
  }

  /** One sync at a time pops. */
  ghost predicate NoPops(ops: seq<Op>) {
    forall op <- ops :: !op.PoppedUpTo?
  }

  /** Taking whole lists in scan order, the key in whose list the limit falls: neither between two lists, nor
      beyond them all. */
  function CutAt(lists: Lists<nat, Update>, scanned: seq<nat>, max: nat, taken: nat): Option<nat>
    decreases |scanned|
  {
    if scanned == [] || Full(max, taken) then None
    else
      var k := scanned[0];
      if max != 0 && |At(lists, k)| > max - taken then Some(k)
      else CutAt(Put(lists, k, []), scanned[1..], max, taken + |At(lists, k)|)
  }

  /** Whether a user's list is empty after the operations: by the last one that touches it, if any does. */
  predicate Emptied(ops: seq<Op>, id: nat, before: bool) {
    if ops == [] then before
    else
      match ops[|ops| - 1]
      case Recorded(u) => u.userId != id && Emptied(ops[..|ops| - 1], id, before)
      case Cleared(ids) => id in ids || Emptied(ops[..|ops| - 1], id, before)
      case _ => Emptied(ops[..|ops| - 1], id, before)
  }

  lemma {:induction false} EmptiedIff(w: Watched, ops: seq<Op>, id: nat)
    requires NoPops(ops)
    ensures At(RunOps(w, ops).cache.lists, id) == [] <==> Emptied(ops, id, At(w.cache.lists, id) == [])
  {
    if ops != [] {
      assert ops[|ops| - 1] in ops && forall op <- ops[..|ops| - 1] :: op in ops;
      EmptiedIff(w, ops[..|ops| - 1], id);
    }
  }

  /** One list of own updates that fits is popped whole, and only its user with it. */
  lemma OneListWhole(lists: Lists<nat, Update>, k: nat, max: nat, taken: nat)
    requires Owned(lists) && (max == 0 || (taken <= max && |At(lists, k)| <= max - taken))
    ensures var items := PopItems(At(lists, k), max, taken);
            && PopRest(At(lists, k), max, taken) == [] && |items| == |At(lists, k)| && UsersOf(items) <= {k}
            && Owned(Put(lists, k, []))
  {
    assert AllOwn(At(lists, k), k);
    PopOwn(At(lists, k), max, taken, k);
    OneListStaysOwned(lists, k, max, taken);
  }

  /** The limit falls inside a list: its user is popped, but not whole, and no other user after it. */
  lemma OneListCut(lists: Lists<nat, Update>, scanned: seq<nat>, max: nat, taken: nat)
    requires Owned(lists) && scanned != [] && taken < max && |At(lists, scanned[0])| > max - taken
    ensures var k, items := scanned[0], PopAllItems(lists, scanned, max, taken);
            && UsersOf(items) == (if k == 0 then {} else {k})
            && At(PopAllRest(lists, scanned, max, taken), k) != []
  {
    var k := scanned[0];
    assert AllOwn(At(lists, k), k);
    PopOwn(At(lists, k), max, taken, k);
    var items := PopItems(At(lists, k), max, taken);
    PopAllStep(lists, scanned, max, taken);
    assert items + [] == items && items[0] in items;
  }

  lemma {:induction false} CutIsQueued(lists: Lists<nat, Update>, scanned: seq<nat>, max: nat, taken: nat, id: nat)
    requires At(lists, id) == []
    ensures CutAt(lists, scanned, max, taken) != Some(id)
    decreases |scanned|
  {
    if scanned != [] && !Full(max, taken) && (max == 0 || |At(lists, scanned[0])| <= max - taken) {
      CutIsQueued(Put(lists, scanned[0], []), scanned[1..], max, taken + |At(lists, scanned[0])|, id);
    }
  }

  lemma FirstListPopped(lists: Lists<nat, Update>, scanned: seq<nat>, max: nat, taken: nat)
    requires Owned(lists) && scanned != [] && !Full(max, taken) && (max == 0 || |At(lists, scanned[0])| <= max - taken)
    ensures var k := scanned[0];
            var items, lists', taken' := PopItems(At(lists, k), max, taken), Put(lists, k, []), taken + |At(lists, k)|;
            && PopAllItems(lists, scanned, max, taken) == items + PopAllItems(lists', scanned[1..], max, taken')
            && PopAllRest(lists, scanned, max, taken) == PopAllRest(lists', scanned[1..], max, taken')
  {
    OneListWhole(lists, scanned[0], max, taken);
    PopAllStep(lists, scanned, max, taken);
  }

  lemma CutLater(lists: Lists<nat, Update>, scanned: seq<nat>, max: nat, taken: nat)
    requires scanned != [] && !Full(max, taken) && (max == 0 || |At(lists, scanned[0])| <= max - taken)
    ensures CutAt(lists, scanned, max, taken)
         == CutAt(Put(lists, scanned[0], []), scanned[1..], max, taken + |At(lists, scanned[0])|)
  {}

  lemma UsersTogether(all: seq<Update>, items: seq<Update>, more: seq<Update>, k: nat, id: nat)
    requires all == items + more && UsersOf(items) <= {k}
    ensures id in UsersOf(more) ==> id in UsersOf(all)
    ensures id in UsersOf(all) && id != k ==> id in UsersOf(more)
  {
    if id in UsersOf(all) && id != k {
      var u :| u in all && u.userId == id && id != 0;
      assert u in items ==> id in UsersOf(items);
    }
  }

  /** The users of a scan whose first list fits: that list's, and those of the rest of the scan. */
  lemma FirstListFits(lists: Lists<nat, Update>, scanned: seq<nat>, max: nat, taken: nat, id: nat)
    requires Owned(lists) && scanned != [] && !Full(max, taken) && (max == 0 || |At(lists, scanned[0])| <= max - taken)
    ensures var k := scanned[0];
            var more := PopAllItems(Put(lists, k, []), scanned[1..], max, taken + |At(lists, k)|);
            && (id in UsersOf(more) ==> id in UsersOf(PopAllItems(lists, scanned, max, taken)))
            && (id in UsersOf(PopAllItems(lists, scanned, max, taken)) && id != k ==> id in UsersOf(more))
  {
    var k := scanned[0];
    OneListWhole(lists, k, max, taken);
    FirstListPopped(lists, scanned, max, taken);
    UsersTogether(PopAllItems(lists, scanned, max, taken), PopItems(At(lists, k), max, taken),
                  PopAllItems(Put(lists, k, []), scanned[1..], max, taken + |At(lists, k)|), k, id);
  }

  /** A popped user is popped whole exactly when the limit does not fall in the user's list. */
  lemma {:induction false} PoppedWholeIff(lists: Lists<nat, Update>, scanned: seq<nat>, max: nat, taken: nat, id: nat)
    requires Owned(lists) && (max == 0 || taken <= max)
    requires id in UsersOf(PopAllItems(lists, scanned, max, taken))
    ensures At(PopAllRest(lists, scanned, max, taken), id) == [] <==> CutAt(lists, scanned, max, taken) != Some(id)
    decreases |scanned|
  {
    var k, tail := scanned[0], scanned[1..];
    if max != 0 && |At(lists, k)| > max - taken {
      OneListCut(lists, scanned, max, taken);
    } else {
      var lists', taken' := Put(lists, k, []), taken + |At(lists, k)|;
      OneListWhole(lists, k, max, taken);
      FirstListFits(lists, scanned, max, taken, id);
      FirstListPopped(lists, scanned, max, taken);
      CutLater(lists, scanned, max, taken);
      if id == k {
        EmptyStaysEmpty(lists', tail, max, taken', k);
        CutIsQueued(lists', tail, max, taken', k);
      } else {
        PoppedWholeIff(lists', tail, max, taken', id);
      }
    }
  }

  /** The user in whose list the limit falls is popped. */
  lemma {:induction false} CutIsPopped(lists: Lists<nat, Update>, scanned: seq<nat>, max: nat, taken: nat, id: nat)
    requires Owned(lists) && (max == 0 || taken <= max) && id != 0 && CutAt(lists, scanned, max, taken) == Some(id)
    ensures id in UsersOf(PopAllItems(lists, scanned, max, taken))
    decreases |scanned|
  {
    var k, tail := scanned[0], scanned[1..];
    if max != 0 && |At(lists, k)| > max - taken {
      OneListCut(lists, scanned, max, taken);
    } else {
      OneListWhole(lists, k, max, taken);
      CutLater(lists, scanned, max, taken);
      CutIsPopped(Put(lists, k, []), tail, max, taken + |At(lists, k)|, id);
      FirstListFits(lists, scanned, max, taken, id);
    }
  }

  lemma {:induction false} RunKeepsInv(w: Watched, ops: seq<Op>)
    requires Inv(w)
    ensures Inv(RunOps(w, ops))
  {
    if ops != [] {
      RunKeepsInv(w, ops[..|ops| - 1]);
      StepKeepsInv(RunOps(w, ops[..|ops| - 1]), ops[|ops| - 1]);
    }
  }

  /** A user sync keeps every counter exact, whatever is recorded, read and cleared during it, exactly when
      each popped user's list is empty when the counters are dropped: it was popped whole, or cleared since,
      and nothing was pushed after that. */
  lemma UserSyncSafeIff(w: Watched, scanned: seq<nat>, max: nat, meanwhile: seq<Op>)
    requires Inv(w) && NoPops(meanwhile)
    ensures Inv(UserSync(w, scanned, max, meanwhile))
       <==> forall id <- UsersOf(PopAllItems(w.cache.lists, scanned, max, 0)) ::
              Emptied(meanwhile, id, CutAt(w.cache.lists, scanned, max, 0) != Some(id))
  {
    var popped := Step(w, PoppedUpTo(scanned, max));
    var ids := UsersOf(PopAllItems(w.cache.lists, scanned, max, 0));
    StepKeepsInv(w, PoppedUpTo(scanned, max));
    RunKeepsInv(popped, meanwhile);
    var w' := RunOps(popped, meanwhile);
    forall id | id in ids
      ensures At(w'.cache.lists, id) == [] <==> Emptied(meanwhile, id, CutAt(w.cache.lists, scanned, max, 0) != Some(id))
    {
      PoppedWholeIff(w.cache.lists, scanned, max, 0, id);
      EmptiedIff(popped, meanwhile, id);
    }
    ClearCountersSafeIff(w', ids);
  }

  /** With nothing in between, exactly when there is no limit, or it falls on a list boundary or in the list of
      updates without a user id. */
  lemma LoneSyncSafeIff(w: Watched, scanned: seq<nat>, max: nat)
    requires Inv(w)
    ensures Inv(UserSync(w, scanned, max, [])) <==> CutAt(w.cache.lists, scanned, max, 0) in {None, Some(0)}
    ensures CutAt(w.cache.lists, scanned, 0, 0) == None
  {
    UserSyncSafeIff(w, scanned, max, []);
    match CutAt(w.cache.lists, scanned, max, 0) {
      case None =>
      case Some(id) =>
        if id != 0 {
          CutIsPopped(w.cache.lists, scanned, max, 0, id);
        }
    }
    NoLimitNoCut(w.cache.lists, scanned, 0);
  }

  lemma {:induction false} NoLimitNoCut(lists: Lists<nat, Update>, scanned: seq<nat>, taken: nat)
    ensures CutAt(lists, scanned, 0, taken) == None
    decreases |scanned|
  {
    if scanned != [] {
      NoLimitNoCut(Put(lists, scanned[0], []), scanned[1..], taken + |At(lists, scanned[0])|);
    }
  }

  lemma ClearCountersSafeIff(w: Watched, ids: set<nat>)
    requires Inv(w)
    ensures Inv(Watched(ClearCounters(w.cache, ids), w.popped - ids)) <==> forall id <- ids :: At(w.cache.lists, id) == []
  {
    var w' := Watched(ClearCounters(w.cache, ids), w.popped - ids);
    if forall id <- ids :: At(w.cache.lists, id) == [] {
      forall id: nat ensures CounterExact(w', id) {
        assert CounterExact(w, id);
      }
    } else {
      var id :| id in ids && At(w.cache.lists, id) != [];
      assert !CounterExact(w', id);
    }
  }

  /** When a user has something queued by then, the next recorded update restarts the counter from its own delta:
      reads then understate the pending usage by everything that was still queued. */
  lemma CutOffUserUnderstated(c: Cache, ids: set<nat>, u: Update, coerce: int -> int)
    requires OwnUpdates(c) && u.userId in ids
    ensures var c' := Record(ClearCounters(c, ids), u);
            ReadTotal(c', u.userId, coerce) == QueuedDelta(c', u.userId) - QueuedDelta(c, u.userId)
  {
    PushAdds(ClearCounters(c, ids), u, u.userId);
  }

  function Recordings(n: nat): seq<Op> {
    if n == 0 then [] else Recordings(n - 1) + [Recorded(Update(1, 5, None))]
  }

  lemma {:induction false} AfterRecordings(n: nat)
    ensures var c := RunOps(Watched(EMPTY, map[]), Recordings(n)).cache;
            && c.lists.Keys <= {1} && |At(c.lists, 1)| == n
            && forall e <- At(c.lists, 1) :: e == Json(Update(1, 5, None))
  {
    if n > 0 {
      AfterRecordings(n - 1);
      var ops, op := Recordings(n - 1), Recorded(Update(1, 5, None));
      assert (ops + [op])[..|ops|] == ops;
    }
  }

  /** For every limit there is a reachable run on which this happens: one more update of 5 bytes is
      recorded than the limit lets through, the sync pops and clears, 3 more bytes are recorded; 8
      bytes are queued and the read says 3. */
  lemma UnderstatedRun(max: nat, coerce: int -> int)
    requires max > 0
    ensures var w := UserSync(RunOps(Watched(EMPTY, map[]), Recordings(max + 1)), [1], max, []);
            var c := Record(w.cache, Update(1, 3, None));
            QueuedDelta(c, 1) == 8 && ReadTotal(c, 1, coerce) == 3
  {
    var w0 := RunOps(Watched(EMPTY, map[]), Recordings(max + 1));
    AfterRecordings(max + 1);
    OneListIsCut(w0, max);
    OneLeft(UserSync(w0, [1], max, []).cache, coerce);
  }

  /** For every limit, and without one, there is another: one update of 5 bytes is recorded and popped, one of 5
      bytes more is recorded before the counters are dropped, and 3 bytes after. */
  lemma PushedMeanwhileRun(max: nat, coerce: int -> int)
    ensures var w0 := RunOps(Watched(EMPTY, map[]), Recordings(1));
            var w := UserSync(w0, [1], max, Recordings(1));
            var c := Record(w.cache, Update(1, 3, None));
            && CutAt(w0.cache.lists, [1], max, 0) == None
            && QueuedDelta(c, 1) == 8 && ReadTotal(c, 1, coerce) == 3
  {
    var w0 := RunOps(Watched(EMPTY, map[]), Recordings(1));
    AfterRecordings(1);
    var list := At(w0.cache.lists, 1);
    assert list == [Json(Update(1, 5, None))] by { assert list[0] in list; }
    OneListWhole(w0.cache.lists, 1, max, 0);
    PopAllStep(w0.cache.lists, [1], max, 0);
    var items := PopItems(list, max, 0);
    assert items[0] in items + [];
    PopOwn(list, max, 0, 1);
    var popped := Step(w0, PoppedUpTo([1], max));
    assert Recordings(1) == [Recorded(Update(1, 5, None))];
    assert RunOps(popped, Recordings(1)) == Step(popped, Recorded(Update(1, 5, None)));
    assert [Json(Update(1, 5, None))] + [] == [Json(Update(1, 5, None))];
    OneLeft(UserSync(w0, [1], max, Recordings(1)).cache, coerce);
  }

  lemma OneListIsCut(w: Watched, max: nat)
    requires max > 0 && |At(w.cache.lists, 1)| == max + 1
    requires forall e <- At(w.cache.lists, 1) :: e == Json(Update(1, 5, None))
    ensures var c := UserSync(w, [1], max, []).cache; At(c.lists, 1) == [Json(Update(1, 5, None))] && 1 !in c.totals
  {
    var list := At(w.cache.lists, 1);
    assert AllOwn(list, 1);
    PopOwn(list, max, 0, 1);
    var items := PopItems(list, max, 0);
    PopAllStep(w.cache.lists, [1], max, 0);
    assert PopAllItems(w.cache.lists, [1], max, 0) == items + [];
    assert items + [] == items && items[0] in items;
    assert 1 in UsersOf(items);
    assert list[..1] == [list[0]] && list[0] in list;
  }

  lemma OneLeft(c: Cache, coerce: int -> int)
    requires At(c.lists, 1) == [Json(Update(1, 5, None))] && 1 !in c.totals
    ensures var c' := Record(c, Update(1, 3, None)); QueuedDelta(c', 1) == 8 && ReadTotal(c', 1, coerce) == 3
  {
    var old_, new_ := Update(1, 5, None), Update(1, 3, None);
    assert [Json(old_)][..0] == [] && [] + [old_] == [old_];
    assert Fifo([Json(old_)]) == [old_];
    FifoOfPush(new_, [Json(old_)]);
    assert [old_] + [new_] == [old_, new_];
    assert [old_, new_][1..] == [new_] && [new_][1..] == [];
    assert SumBy([new_], DeltaOf(1)) == 3;
    assert SumBy([old_, new_], DeltaOf(1)) == 8;
  }

  /** The Redis side as the recording, syncing and reading code drives it. */
  class PendingStore {
    var lists: Lists<nat, Update>
    var totals: map<nat, int>
    var online: map<nat, int>

    constructor ()
      ensures State() == EMPTY
    {
      lists, totals, online := map[], map[], map[];
    }

    function State(): Cache
      reads this
    {
      Cache(lists, totals, online)
    }

    method CacheUserUsageUpdate(userId: nat, delta: int, onlineAt: Option<int>)
      modifies this
      ensures State() == Record(old(State()), Update(userId, delta, onlineAt))
    {
      lists := LPush(lists, userId, Json(Update(userId, delta, onlineAt)));
      totals := totals[userId := GetDefault(totals, userId, 0) + delta];
      if onlineAt.Some? {
        online := online[userId := onlineAt.value];
      }
    }

    method GetPendingUsageUpdates(scanned: seq<nat>, max: nat) returns (updates: seq<Update>)
      modifies this`lists
      ensures updates == PopAllItems(old(lists), scanned, max, 0)
      ensures lists == PopAllRest(old(lists), scanned, max, 0)
    {
      lists, updates := PopPending(lists, scanned, max);
    }

    method GetUserPendingUsageState(userId: nat, coerce: int -> int) returns (total: int, onlineAt: Option<int>)
      modifies this`totals
      ensures total == ReadTotal(old(State()), userId, coerce) && onlineAt == ReadOnline(old(State()), userId)
      ensures State() == AfterRead(old(State()), userId, coerce)
    {
      onlineAt := Get(online, userId);
      if userId in totals {
        total := totals[userId];
        assert totals == totals[userId := total];
        return;
      }
      var entries := At(lists, userId);
      total := 0;
      for i := 0 to |entries|
        invariant total == CoercedSum(entries[..i], coerce)
        invariant ReadOnline(State(), userId) == if onlineAt.Some? then onlineAt else FirstOnline(entries[i..])
      {
        assert entries[..i + 1][..i] == entries[..i];
        assert entries[i..][1..] == entries[i + 1..];
        if entries[i].Json? {
          total := total + coerce(entries[i].value.delta);
          if onlineAt.None? {
            onlineAt := entries[i].value.onlineAt;
          }
        }
      }
      assert entries[..|entries|] == entries;
      totals := totals[userId := total];
    }

    method ClearUserPendingUsage(userIds: seq<nat>)
      modifies this
      ensures State() == Clear(old(State()), set id <- userIds)
    {
      for i := 0 to |userIds|
        invariant lists == old(lists) - Elements(userIds[..i])
        invariant totals == old(totals) - Elements(userIds[..i])
        invariant online == old(online) - Elements(userIds[..i])
      {
        assert Elements(userIds[..i + 1]) == Elements(userIds[..i]) + {userIds[i]};
        lists, totals, online := lists - {userIds[i]}, totals - {userIds[i]}, online - {userIds[i]};
      }
      assert userIds[..|userIds|] == userIds;
    }

    /** The clean-up loop of the user sync. */
    method DropCounters(ids: seq<nat>)
      modifies this`totals, this`online
      ensures State() == ClearCounters(old(State()), set id <- ids)
    {
      for i := 0 to |ids|
        invariant State() == ClearCounters(old(State()), set id <- ids[..i])
      {
        totals, online := totals - {ids[i]}, online - {ids[i]};
        assert ids[..i + 1] == ids[..i] + [ids[i]];
      }
      assert ids[..|ids|] == ids;
    }
  }
}
