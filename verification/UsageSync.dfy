/** The admin and service halves of the write-behind usage sync: pending deltas are popped from
    Redis lists, summed per owner and committed. There are two copies: one with up to three attempts
    and a put-back, and the one that the scheduled job runs, with neither. */
module UsageSync {
  import opened Prelude
  import opened RedisLists

  /** Admins carry both counters; services only `users_usage`. */
  datatype Owner = AdminOwner | ServiceOwner

  /** Counters are nullable columns. */
  datatype Row = Row(usersUsage: Option<int>, lifetimeUsage: Option<int>)

  /** How one commit attempt ends. The first two failures are retried. */
  datatype Attempt = Committed | Deadlock | PoolTimeout | OtherFailure {
    predicate Transient() { Deadlock? || PoolTimeout? }
  }

  /** The database rows and the Redis lists. A list's head is index 0; an empty list has no key. */
  datatype Ledger = Ledger(rows: map<nat, Row>, queues: Lists<nat, int>)

  const MAX_RETRIES: nat := 3

  /** What a reader of one list would add up: text that is not JSON counts for nothing. */
  function Sum(q: seq<Entry<int>>): int {
    if q == [] then 0
    else Sum(q[..|q| - 1]) + (match q[|q| - 1] case Json(v) => v case Garbled => 0)
  }

  function Pending(l: Ledger, id: nat): int {
    Sum(At(l.queues, id))
  }

  function Used(l: Ledger, id: nat): int
    requires id in l.rows
  {
    l.rows[id].usersUsage.GetOr(0)
  }

  /** `lifetime_usage - users_usage`, the traffic from before the last reset. */
  function Settled(l: Ledger, id: nat): int
    requires id in l.rows
  {
    l.rows[id].lifetimeUsage.GetOr(0) - Used(l, id)
  }

  predicate HasValue(q: seq<Entry<int>>) {
    exists e <- q :: e.Json?
  }

  /** The per-owner sums gathered by draining every list. */
  function Totals(queues: Lists<nat, int>): map<nat, int> {
    map id | id in queues && HasValue(queues[id]) :: Sum(queues[id])
  }

  function Charge(owner: Owner, row: Row, value: int): Row {
    Row(Some(row.usersUsage.GetOr(0) + value),
        if owner.AdminOwner? then Some(row.lifetimeUsage.GetOr(0) + value) else row.lifetimeUsage)
  }

  function ChargeAll(owner: Owner, rows: map<nat, Row>, totals: map<nat, int>): map<nat, Row> {
    map id | id in rows :: if id in totals then Charge(owner, rows[id], totals[id]) else rows[id]
  }

  /** The lists after a put-back: one entry per owner that had any. */
  function Restored(totals: map<nat, int>): Lists<nat, int> {
    map id | id in totals :: [Json(totals[id])]
  }

  /** Some attempt commits, and every earlier one failed in a way that is retried. */
  predicate Commits(attempts: nat -> Attempt, from: nat)
    decreases MAX_RETRIES - from
  {
    from < MAX_RETRIES &&
    (attempts(from).Committed? || (attempts(from).Transient() && Commits(attempts, from + 1)))
  }

  /** That is, one of the first three attempts commits, and each before it ends in a deadlock or for want of a
      connection. */
  lemma CommitsIff(attempts: nat -> Attempt)
    ensures Commits(attempts, 0) <==>
      exists k: nat :: k < 3 && attempts(k) == Committed
                       && forall j: nat :: j < k ==> attempts(j) == Deadlock || attempts(j) == PoolTimeout
  {
    assert Commits(attempts, 2) == (attempts(2) == Committed || (attempts(2).Transient() && Commits(attempts, 3)));
    assert Commits(attempts, 1) == (attempts(1) == Committed || (attempts(1).Transient() && Commits(attempts, 2)));
    assert Commits(attempts, 0) == (attempts(0) == Committed || (attempts(0).Transient() && Commits(attempts, 1)));
  }

  /** The ledger after one call, and the call's result. */
  function Synced(owner: Owner, l: Ledger, attempts: nat -> Attempt): (Ledger, bool) {
    var totals := Totals(l.queues);
    if totals == map[] then (Ledger(l.rows, map[]), false)
    else if Commits(attempts, 0) then (Ledger(ChargeAll(owner, l.rows, totals), map[]), true)
    else (Ledger(l.rows, Restored(totals)), false)
  }

  lemma {:induction false} SumOfPush(e: Entry<int>, q: seq<Entry<int>>)
    ensures Sum([e] + q) == Sum([e]) + Sum(q)
  {
    if q != [] {
      SumOfPush(e, q[..|q| - 1]);
      assert ([e] + q)[..|q|] == [e] + q[..|q| - 1];
    }
  }

  lemma {:induction false} SumWithoutValue(q: seq<Entry<int>>)
    requires !HasValue(q)
    ensures Sum(q) == 0
  {
    if q != [] {
      assert q[|q| - 1] in q;
      assert forall e <- q[..|q| - 1] :: e in q;
      SumWithoutValue(q[..|q| - 1]);
    }
  }

  /** One call moves traffic between Redis and the database and never makes or loses any,
      for every stored owner and every way its commit attempts can end. */
  lemma SyncConserves(owner: Owner, l: Ledger, attempts: nat -> Attempt, id: nat)
    requires id in l.rows
    ensures var (l', _) := Synced(owner, l, attempts);
            && l'.rows.Keys == l.rows.Keys
            && Used(l', id) + Pending(l', id) == Used(l, id) + Pending(l, id)
            && (owner.AdminOwner? ==> Settled(l', id) == Settled(l, id))
            && (owner.ServiceOwner? ==> l'.rows[id].lifetimeUsage == l.rows[id].lifetimeUsage)
  {
    var q := At(l.queues, id);
    if id in l.queues && HasValue(q) {
      assert id in Totals(l.queues);
      assert Sum([Json(Sum(q))]) == Sum(q) by { assert [Json(Sum(q))][..0] == []; }
    } else {
      SumWithoutValue(q);
      assert id !in Totals(l.queues);
    }
  }

  /** The call reports success exactly when it committed something, and then the lists are empty;
      on failure no row changed and every owner, stored or not, still has its whole backlog. */
  lemma SyncIsAllOrNothing(owner: Owner, l: Ledger, attempts: nat -> Attempt)
    ensures var (l', ok) := Synced(owner, l, attempts);
            && (ok <==> Commits(attempts, 0) && exists id <- l.queues :: HasValue(l.queues[id]))
            && (ok ==> l'.queues == map[])
            && (!ok ==> l'.rows == l.rows && forall id: nat :: Pending(l', id) == Pending(l, id))
  {
    var (l', ok) := Synced(owner, l, attempts);
    var totals := Totals(l.queues);
    assert totals != map[] <==> exists id <- l.queues :: HasValue(l.queues[id]) by {
      if totals.Keys != {} {
        var id :| id in totals.Keys;
        assert id in l.queues && HasValue(l.queues[id]);
      }
      if id :| id in l.queues && HasValue(l.queues[id]) {
        assert id in totals;
      }
    }
    if !ok {
      forall id: nat ensures Pending(l', id) == Pending(l, id) {
        if id in l.queues {
          PutBackKeepsSum(l, id);
        }
      }
    }
  }

  lemma PutBackKeepsSum(l: Ledger, id: nat)
    requires id in l.queues
    ensures var totals := Totals(l.queues);
            if id in totals then Sum([Json(totals[id])]) == Sum(l.queues[id]) else Sum(l.queues[id]) == 0
  {
    if HasValue(l.queues[id]) {
      assert [Json(Sum(l.queues[id]))][..0] == [];
    } else {
      SumWithoutValue(l.queues[id]);
    }
  }

  // ---------- the copy in the usage service ----------

  /** One attempt, and no put-back: the copy that the scheduled job calls. */
  function SyncedOnce(owner: Owner, l: Ledger, commits: bool): (Ledger, bool) {
    var totals := Totals(l.queues);
    if totals == map[] then (Ledger(l.rows, map[]), false)
    else if commits then (Ledger(ChargeAll(owner, l.rows, totals), map[]), true)
    else (Ledger(l.rows, map[]), false)
  }

  /** Both copies answer true exactly when they drained something and commit. */
  lemma SyncsReturn(owner: Owner, l: Ledger, commits: bool, attempts: nat -> Attempt)
    ensures var some := exists k <- l.queues :: exists e <- l.queues[k] :: e.Json?;
            && (SyncedOnce(owner, l, commits).1 <==> commits && some)
            && (Synced(owner, l, attempts).1 <==> Commits(attempts, 0) && some)
  {
    if k :| k in l.queues && HasValue(l.queues[k]) {
      assert k in Totals(l.queues);
    }
    if k :| k in Totals(l.queues) {
      assert HasValue(l.queues[k]);
    }
  }

  /** It conserves a stored owner's traffic exactly when the commit succeeds or nothing was drained for
      the owner; otherwise all that was drained is lost. */
  lemma SyncOnceConservesIff(owner: Owner, l: Ledger, commits: bool, id: nat)
    requires id in l.rows
    ensures var (l', _) := SyncedOnce(owner, l, commits);
            && l'.rows.Keys == l.rows.Keys
            && (Used(l', id) + Pending(l', id) == Used(l, id) + Pending(l, id) <==> commits || Pending(l, id) == 0)
            && (!commits ==> Used(l', id) + Pending(l', id) == Used(l, id))
            && (owner.AdminOwner? ==> Settled(l', id) == Settled(l, id))
  {
    var q := At(l.queues, id);
    if id in l.queues && HasValue(q) {
      assert id in Totals(l.queues);
    } else {
      SumWithoutValue(q);
      assert id !in Totals(l.queues);
    }
  }

  /** When they commit, the two copies do the same. */
  lemma CopiesAgreeOnCommit(owner: Owner, l: Ledger, attempts: nat -> Attempt)
    requires Commits(attempts, 0)
    ensures SyncedOnce(owner, l, true) == Synced(owner, l, attempts)
  {}

  // ---------- histories ----------

  /** What can happen to a ledger between two looks at it. */
  datatype Event = Push(id: nat, value: int) | Sync(attempts: nat -> Attempt) | SyncOnce(commits: bool)

  function Step(owner: Owner, l: Ledger, e: Event): Ledger {
    match e
    case Push(id, v) => l.(queues := LPush(l.queues, id, Json(v)))
    case Sync(attempts) => Synced(owner, l, attempts).0
    case SyncOnce(commits) => SyncedOnce(owner, l, commits).0
  }

  function Run(owner: Owner, l: Ledger, events: seq<Event>): Ledger {
    if events == [] then l
    else Step(owner, Run(owner, l, events[..|events| - 1]), events[|events| - 1])
  }

  function Pushed(events: seq<Event>, id: nat): int {
    if events == [] then 0
    else Pushed(events[..|events| - 1], id) +
         (match events[|events| - 1] case Push(i, v) => (if i == id then v else 0) case _ => 0)
  }

  /** What an owner loses to commits that fail without a put-back. */
  function Lost(owner: Owner, l: Ledger, events: seq<Event>, id: nat): int {
    if events == [] then 0
    else
      var init := events[..|events| - 1];
      Lost(owner, l, init, id) + (if events[|events| - 1] == SyncOnce(false) then Pending(Run(owner, l, init), id) else 0)
  }

  /** Over a whole history of recordings and syncs of either copy, whatever fails along the way, a
      stored owner's committed plus pending traffic is what it started with plus what was recorded,
      less exactly what was pending when a commit without a put-back failed. */
  lemma {:induction false} HistoryConserves(owner: Owner, l: Ledger, events: seq<Event>, id: nat)
    requires id in l.rows
    ensures var l' := Run(owner, l, events);
            && id in l'.rows
            && Used(l', id) + Pending(l', id) == Used(l, id) + Pending(l, id) + Pushed(events, id) - Lost(owner, l, events, id)
            && (owner.AdminOwner? ==> Settled(l', id) == Settled(l, id))
  {
    if events != [] {
      HistoryConserves(owner, l, events[..|events| - 1], id);
      var mid := Run(owner, l, events[..|events| - 1]);
      match events[|events| - 1]
      case Push(i, v) =>
        SumOfPush(Json(v), At(mid.queues, i));
        assert Sum([Json(v)]) == v by { assert [Json(v)][..0] == []; }
      case Sync(attempts) =>
        SyncConserves(owner, mid, attempts, id);
      case SyncOnce(commits) =>
        SyncOnceConservesIff(owner, mid, commits, id);
    }
  }

  /** Draining one more list extends the sums by that list alone. */
  lemma TotalsOfOneMore(all: Lists<nat, int>, done: Lists<nat, int>, done': Lists<nat, int>, key: nat)
    requires done == all - (all.Keys - done.Keys)
    requires done' == if key in all then done[key := all[key]] else done
    ensures Totals(done') == if key !in done && HasValue(At(all, key))
                             then Totals(done)[key := Sum(all[key])] else Totals(done)
  {
    assert !HasValue([]);
  }

  /** The accumulator after popping one list tail first. */
  function Gathered(q: seq<Entry<int>>, updates: map<nat, int>, id: nat): map<nat, int> {
    if q == [] then updates
    else
      match q[|q| - 1]
      case Json(v) => Gathered(q[..|q| - 1], updates[id := GetDefault(updates, id, 0) + v], id)
      case Garbled => Gathered(q[..|q| - 1], updates, id)
  }

  lemma {:induction false} GatheredIsSum(q: seq<Entry<int>>, updates: map<nat, int>, id: nat)
    ensures Gathered(q, updates, id)
         == if HasValue(q) then updates[id := GetDefault(updates, id, 0) + Sum(q)] else updates
  {
    if q != [] {
      var shorter, e := q[..|q| - 1], q[|q| - 1];
      assert forall x :: x in q <==> x == e || x in shorter by { assert q == shorter + [e]; }
      if e.Json? {
        GatheredIsSum(shorter, updates[id := GetDefault(updates, id, 0) + e.value], id);
        if !HasValue(shorter) {
          SumWithoutValue(shorter);
        }
      } else {
        GatheredIsSum(shorter, updates, id);
      }
    }
  }

  /** The job against its database rows and Redis lists. */
  class UsageStore {
    const owner: Owner
    var rows: map<nat, Row>
    var queues: Lists<nat, int>

    constructor (owner: Owner, rows: map<nat, Row>, queues: Lists<nat, int>)
      ensures this.owner == owner && this.rows == rows && this.queues == queues
    {
      this.owner, this.rows, this.queues := owner, rows, queues;
    }

    function State(): Ledger
      reads this
    {
      Ledger(rows, queues)
    }

    /** `lpush` of one entry, as the restore and the put-back do it. */
    method Push(id: nat, value: int)
      modifies this`queues
      ensures State() == Step(owner, old(State()), Event.Push(id, value))
    {
      queues := LPush(queues, id, Json(value));
    }

    /** `rpop`: the tail of the list, whose key disappears with its last element. */
    method Pop(id: nat) returns (e: Option<Entry<int>>)
      modifies this`queues
      ensures var q := At(old(queues), id);
              if q == [] then e == None && queues == old(queues) - {id}
              else e == Some(q[|q| - 1]) && queues == old(queues)[id := q[..|q| - 1]]
    {
      var q := At(queues, id);
      if q == [] {
        queues := queues - {id};
        return None;
      }
      queues := queues[id := q[..|q| - 1]];
      return Some(q[|q| - 1]);
    }

    /** Pop one list until it is empty, adding what parses. */
    method DrainOne(id: nat, updates: map<nat, int>) returns (updates': map<nat, int>)
      modifies this`queues
      ensures queues == old(queues) - {id}
      ensures var q := At(old(queues), id);
              updates' == if HasValue(q) then updates[id := GetDefault(updates, id, 0) + Sum(q)] else updates
    {
      updates' := updates;
      GatheredIsSum(At(queues, id), updates, id);
      while true
        invariant queues - {id} == old(queues) - {id}
        invariant Gathered(At(queues, id), updates', id) == Gathered(At(old(queues), id), updates, id)
        decreases |At(queues, id)|
      {
        var e := Pop(id);
        if e.None? {
          break;
        }
        if e.value.Json? {
          updates' := updates'[id := GetDefault(updates', id, 0) + e.value.value];
        }
      }
    }

    /** Pop every list. `scanned` is what the key scan yields: every key, in any order, perhaps
        more than once. */
    method Drain(scanned: seq<nat>) returns (updates: map<nat, int>)
      requires forall id <- queues :: id in scanned
      modifies this`queues
      ensures queues == map[] && updates == Totals(old(queues))
    {
      updates := map[];
      for i := 0 to |scanned|
        invariant forall id: nat :: id in queues <==> id in old(queues) && id !in scanned[..i]
        invariant forall id <- queues :: queues[id] == old(queues)[id]
        invariant updates == Totals(old(queues) - queues.Keys)
      {
        var key := scanned[i];
        ghost var done := old(queues) - queues.Keys;
        updates := DrainOne(key, updates);
        TotalsOfOneMore(old(queues), done, old(queues) - queues.Keys, key);
        assert scanned[..i + 1] == scanned[..i] + [key];
      }
      assert scanned[..|scanned|] == scanned;
      assert queues == map[];
      assert old(queues) - queues.Keys == old(queues);
    }

    /** The retry loop: each attempt stages the new rows, and only a commit publishes them. */
    method CommitOrPutBack(updates: map<nat, int>, attempts: nat -> Attempt) returns (ok: bool)
      requires queues == map[]
      modifies this
      ensures ok == Commits(attempts, 0)
      ensures ok ==> rows == ChargeAll(owner, old(rows), updates) && queues == map[]
      ensures !ok ==> rows == old(rows) && queues == Restored(updates)
    {
      var retries := 0;
      while true
        invariant rows == old(rows) && queues == map[] && 0 <= retries < MAX_RETRIES
        invariant Commits(attempts, 0) == Commits(attempts, retries)
        decreases MAX_RETRIES - retries
      {
        var attempt := attempts(retries);
        if attempt.Committed? {
          rows := ChargeAll(owner, rows, updates);
          return true;
        }
        if attempt.Transient() && retries < MAX_RETRIES - 1 {
          retries := retries + 1;
        } else {
          assert !Commits(attempts, retries);
          PutBack(updates);
          return false;
        }
      }
    }

    /** One sync call. */
    method Sync(scanned: seq<nat>, attempts: nat -> Attempt) returns (ok: bool)
      requires forall id <- queues :: id in scanned
      modifies this
      ensures (State(), ok) == Synced(owner, old(State()), attempts)
    {
      var updates := Drain(scanned);
      if updates == map[] {
        return false;
      }
      ok := CommitOrPutBack(updates, attempts);
    }

    /** One call of the copy in the usage service. */
    method SyncOnce(scanned: seq<nat>, commits: bool) returns (ok: bool)
      requires forall id <- queues :: id in scanned
      modifies this
      ensures (State(), ok) == SyncedOnce(owner, old(State()), commits)
    {
      var updates := Drain(scanned);
      if updates == map[] || !commits {
        return false;
      }
      rows := ChargeAll(owner, rows, updates);
      return true;
    }

    /** Return the drained sums to Redis, one entry per owner. */
    method PutBack(updates: map<nat, int>)
      requires queues == map[]
      modifies this`queues
      ensures queues == Restored(updates)
    {
      var left := updates.Keys;
      while left != {}
        invariant left <= updates.Keys
        invariant queues.Keys == updates.Keys - left
        invariant forall id <- queues :: queues[id] == [Json(updates[id])]
        decreases left
      {
        var id :| id in left;
        Push(id, updates[id]);
        left := left - {id};
      }
    }
  }
}
