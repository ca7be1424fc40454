/** The user review job: a scan in id order, in batches, with a cursor kept between runs and a time
    budget that may end a run after any user. */
module Review {
  import opened Prelude

  datatype Status = Active | OnHold | Limited | Expired | Disabled

  datatype Plan = Plan(dataLimit: int, expire: Option<int>, addRemaining: bool, increaseLimit: bool,
                       fireOnEither: bool, startOnFirstConnect: bool)

  /** The columns the job reads or writes. Times are seconds. */
  datatype User = User(status: Status, dataLimit: Option<int>, usedTraffic: int, expire: Option<int>,
                       plans: seq<Plan>, onlineAt: Option<int>, editAt: Option<int>, createdAt: int,
                       onHoldTimeout: Option<int>, onHoldDuration: Option<int>)

  /** Everything a run depends on besides the table and the cursors: the clock, the pending usage and
      the override key in Redis, which status writes fail, and where the time budget runs out. */
  datatype Env = Env(now: int, pending: nat -> int, usageOverride: nat -> Option<int>,
                     pendingOnline: nat -> Option<int>, writeFails: nat -> bool,
                     cut: nat -> bool, cutBetween: bool, cutHold: nat -> bool)

  /** A nullable number that is neither missing nor 0. */
  predicate Truthy(n: Option<int>) {
    n.Some? && n.value != 0
  }

  function UsedTraffic(u: User, id: nat, env: Env): int {
    env.usageOverride(id).GetOr(u.usedTraffic + env.pending(id))
  }

  predicate OverLimit(u: User, id: nat, env: Env) {
    Truthy(u.dataLimit) && UsedTraffic(u, id, env) >= u.dataLimit.value
  }

  predicate Overdue(u: User, env: Env) {
    Truthy(u.expire) && u.expire.value <= env.now
  }

  /** The next plan fires: on either condition, or only on both. */
  predicate PlanFires(u: User, id: nat, env: Env) {
    && u.plans != []
    && (OverLimit(u, id, env) || Overdue(u, env))
    && (u.plans[0].fireOnEither || (OverLimit(u, id, env) && Overdue(u, env)))
  }

  /** `reset_user_by_next` waits for a first connection that has not happened yet. */
  predicate Delayed(u: User) {
    u.plans != [] && u.plans[0].startOnFirstConnect && u.onlineAt.None? && u.usedTraffic == 0
  }

  function Max(a: int, b: int): int {
    if a >= b then a else b
  }

  function ApplyNextPlan(u: User): User
    requires u.plans != []
  {
    var plan, limit := u.plans[0], u.dataLimit.GetOr(0);
    u.(status := Active,
       dataLimit := Some(if plan.increaseLimit then limit + plan.dataLimit
                         else plan.dataLimit + (if plan.addRemaining then 0 else Max(limit - u.usedTraffic, 0))),
       expire := if Truthy(plan.expire) then plan.expire else u.expire,
       usedTraffic := 0,
       plans := u.plans[1..])
  }

  /** What handling one user leaves in its row, and whether an exception leaves the loop. */
  datatype Handled = Handled(row: User, raises: bool)

  /** The body of the loop over active users. A delayed plan makes the reset return nothing, and the
      report that follows it raises. */
  function ReviewOne(id: nat, u: User, env: Env): Handled {
    if PlanFires(u, id, env) then
      if Delayed(u) then Handled(u, true) else Handled(ApplyNextPlan(u), false)
    else if env.writeFails(id) then Handled(u, false)
    else if OverLimit(u, id, env) then Handled(u.(status := Limited), false)
    else if Overdue(u, env) then Handled(u.(status := Expired), false)
    else Handled(u, false)
  }

  predicate StartsNow(id: nat, u: User, env: Env) {
    var online := Later(u.onlineAt, env.pendingOnline(id));
    || (online.Some? && u.editAt.GetOr(u.createdAt) <= online.value)
    || (u.onHoldTimeout.Some? && u.onHoldTimeout.value <= env.now)
  }

  /** The body of the loop over on-hold users. The status is committed before the expiry is computed,
      which raises when no duration is set. */
  function HoldOne(id: nat, u: User, env: Env): Handled {
    if !StartsNow(id, u, env) then Handled(u, false)
    else if u.onHoldDuration.None? then Handled(u.(status := Active), true)
    else Handled(u.(status := Active, expire := Some(env.now + u.onHoldDuration.value),
                    onHoldDuration := None, onHoldTimeout := None), false)
  }

  /** The table and the two cursors in Redis. */
  datatype State = State(rows: map<nat, User>, activeCursor: Option<nat>, holdCursor: Option<nat>)

  /** The primary key index: every id of the table in ascending order; ids start at 1. */
  ghost predicate IsIndex(index: seq<nat>, rows: map<nat, User>) {
    && (forall i, j :: 0 <= i < j < |index| ==> index[i] < index[j])
    && (forall id: nat :: id in index <==> id in rows)
    && 0 !in rows
  }

  predicate Above(id: nat, cursor: Option<nat>) {
    cursor.None? || id > cursor.value
  }

  /** The ids a query by status above a cursor yields, in order, before the limit. */
  function Matching(index: seq<nat>, rows: map<nat, User>, status: Status, after: Option<nat>): seq<nat> {
    if index == [] then []
    else
      var id := index[0];
      (if id in rows && rows[id].status == status && Above(id, after) then [id] else [])
      + Matching(index[1..], rows, status, after)
  }

  function Take<T>(s: seq<T>, n: nat): seq<T> {
    if |s| <= n then s else s[..n]
  }

  /** A pass over a batch: the table after it, the users handled, and whether it raised. */
  datatype Pass = Pass(rows: map<nat, User>, done: seq<nat>, raised: bool)

  function Process(rows: map<nat, User>, batch: seq<nat>, handle: (nat, User) -> Handled, cut: nat -> bool): Pass
    requires forall id <- batch :: id in rows
  {
    if batch == [] then Pass(rows, [], false)
    else
      var id := batch[0];
      var h := handle(id, rows[id]);
      var rows' := rows[id := h.row];
      if h.raises then Pass(rows', [], true)
      else if cut(id) then Pass(rows', [id], false)
      else
        var rest := Process(rows', batch[1..], handle, cut);
        rest.(done := [id] + rest.done)
  }

  lemma {:induction false} MatchingIsQuery(index: seq<nat>, rows: map<nat, User>, status: Status, after: Option<nat>)
    requires forall i, j :: 0 <= i < j < |index| ==> index[i] < index[j]
    ensures var m := Matching(index, rows, status, after);
            && (forall i, j :: 0 <= i < j < |m| ==> m[i] < m[j])
            && (forall id: nat :: id in m <==> id in index && id in rows && rows[id].status == status && Above(id, after))
  {
    if index != [] {
      var rest := Matching(index[1..], rows, status, after);
      MatchingIsQuery(index[1..], rows, status, after);
      assert forall id :: id in index <==> id == index[0] || id in index[1..];
      forall id | id in rest ensures index[0] < id {
        var j :| 0 <= j < |index[1..]| && index[1..][j] == id;
      }
      assert forall j :: 0 <= j < |rest| ==> rest[j] in rest;
    }
  }

  /** One run: its end state, the active users it reviewed, and whether an exception left it. */
  datatype Outcome = Outcome(state: State, reviewed: seq<nat>, raised: bool)

  function Batch(index: seq<nat>, rows: map<nat, User>, status: Status, after: Option<nat>, size: nat): (b: seq<nat>)
    ensures forall id <- b :: id in rows
  {
    InTable(index, rows, status, after);
    Take(Matching(index, rows, status, after), size)
  }

  lemma {:induction false} InTable(index: seq<nat>, rows: map<nat, User>, status: Status, after: Option<nat>)
    ensures forall id <- Matching(index, rows, status, after) :: id in rows
  {
    if index != [] {
      InTable(index[1..], rows, status, after);
    }
  }

  function HoldPhase(index: seq<nat>, size: nat, s: State, env: Env): (State, bool) {
    var batch := Batch(index, s.rows, OnHold, s.holdCursor, size);
    if batch == [] then (s.(holdCursor := Some(0)), false)
    else
      var pass := Process(s.rows, batch, (id: nat, u: User) => HoldOne(id, u, env), env.cutHold);
      if pass.raised then (s.(rows := pass.rows), true)
      else if pass.done == [] then (s.(rows := pass.rows), false)
      else (s.(rows := pass.rows, holdCursor := Some(pass.done[|pass.done| - 1])), false)
  }

  function ActivePhase(index: seq<nat>, size: nat, s: State, env: Env): Outcome {
    var batch := Batch(index, s.rows, Active, s.activeCursor, size);
    if batch == [] then Outcome(s.(activeCursor := Some(0)), [], false)
    else
      var pass := Process(s.rows, batch, (id: nat, u: User) => ReviewOne(id, u, env), env.cut);
      if pass.raised || pass.done == [] then Outcome(s.(rows := pass.rows), pass.done, pass.raised)
      else Outcome(s.(rows := pass.rows, activeCursor := Some(pass.done[|pass.done| - 1])), pass.done, false)
  }

  function Run(index: seq<nat>, size: nat, s: State, env: Env): Outcome {
    var active := ActivePhase(index, size, s, env);
    if active.raised || env.cutBetween then active
    else
      var (s', raised) := HoldPhase(index, size, active.state, env);
      Outcome(s', active.reviewed, raised)
  }

  // ---------- what a pass does ----------

  /** A pass handles a non-empty prefix of its batch, each user from the row it started with, and
      touches nobody else but a user whose handling raised. */
  lemma {:induction false} ProcessFacts(rows: map<nat, User>, batch: seq<nat>, handle: (nat, User) -> Handled, cut: nat -> bool)
    requires Distinct(batch) && forall id <- batch :: id in rows
    ensures var p := Process(rows, batch, handle, cut);
            && p.rows.Keys == rows.Keys
            && |p.done| <= |batch| && p.done == batch[..|p.done|]
            && (!p.raised && batch != [] ==> p.done != [])
            && (forall id <- p.done :: id in rows && !handle(id, rows[id]).raises && p.rows[id] == handle(id, rows[id]).row)
            && (p.raised ==> |p.done| < |batch| && handle(batch[|p.done|], rows[batch[|p.done|]]).raises)
            && (forall id <- rows :: id !in p.done ==>
                  p.rows[id] == if p.raised && id == batch[|p.done|] then handle(id, rows[id]).row else rows[id])
  {
    if batch != [] {
      var id0 := batch[0];
      var h := handle(id0, rows[id0]);
      var rows' := rows[id0 := h.row];
      if !h.raises && !cut(id0) {
        TailIsApart(batch);
        ProcessFacts(rows', batch[1..], handle, cut);
        var rest := Process(rows', batch[1..], handle, cut);
        assert [id0] + rest.done == batch[..1 + |rest.done|];
      }
    }
  }

  lemma TailIsApart(batch: seq<nat>)
    requires Distinct(batch) && batch != []
    ensures Distinct(batch[1..]) && forall id <- batch[1..] :: id in batch && id != batch[0]
  {}

  // ---------- progress ----------

  /** The ids that are or can become active: a run only ever shrinks this set. */
  predicate Live(rows: map<nat, User>, id: nat) {
    id in rows && (rows[id].status == Active || rows[id].status == OnHold)
  }

  function LiveBetween(rows: map<nat, User>, lo: nat, hi: Option<nat>): set<nat> {
    set id | id in rows && Live(rows, id) && lo < id && (hi.None? || id <= hi.value)
  }

  /** How many runs an active user can still be waiting: the live ids ahead of the cursor up to the
      user, or up to the end, the wrap-around, and then up to the user. */
  function Waiting(s: State, id: nat): nat {
    var c := s.activeCursor.GetOr(0);
    if id > c then |LiveBetween(s.rows, c, Some(id))|
    else |LiveBetween(s.rows, c, None)| + 1 + |LiveBetween(s.rows, 0, Some(id))|
  }

  lemma Fewer(a: set<nat>, b: set<nat>, x: nat)
    requires a <= b && x in b && x !in a
    ensures |a| < |b|
  {
    assert |b| == |a| + |b - a| by { assert b == a + (b - a); }
    assert x in b - a;
  }

  lemma NoMore(a: set<nat>, b: set<nat>)
    requires a <= b
    ensures |a| <= |b|
  {
    assert |b| == |a| + |b - a| by { assert b == a + (b - a); }
  }

  lemma BatchFacts(index: seq<nat>, rows: map<nat, User>, status: Status, after: Option<nat>, size: nat)
    requires IsIndex(index, rows) && size > 0
    ensures var b := Batch(index, rows, status, after, size);
            && Distinct(b)
            && (forall id <- b :: id in rows && rows[id].status == status && Above(id, after))
            && (forall id: nat :: id in rows && rows[id].status == status && Above(id, after) ==>
                  b != [] && (id in b || id > b[|b| - 1]))
            && (forall i, j :: 0 <= i < j < |b| ==> b[i] < b[j])
  {
    var m := Matching(index, rows, status, after);
    MatchingIsQuery(index, rows, status, after);
    var b := Batch(index, rows, status, after, size);
    assert b <= m;
    forall id: nat | id in rows && rows[id].status == status && Above(id, after)
      ensures b != [] && (id in b || id > b[|b| - 1])
    {
      assert id in m;
      var k :| 0 <= k < |m| && m[k] == id;
      if k < |b| {
        assert b[k] == id;
      }
    }
  }

  /** Either nobody is active above the cursor, and it returns to 0; or it stops at the last user
      reviewed, with every active user on the way reviewed. */
  predicate CursorMoved(s: State, o: Outcome) {
    if o.reviewed == [] then
      && o.state.activeCursor == Some(0)
      && forall id <- s.rows :: s.rows[id].status == Active ==> !Above(id, s.activeCursor)
    else
      var last := o.reviewed[|o.reviewed| - 1];
      && o.state.activeCursor == Some(last)
      && forall id <- s.rows :: s.rows[id].status == Active && Above(id, s.activeCursor) && id <= last ==> id in o.reviewed
  }

  /** What the active phase of a run that raises nothing leaves behind. */
  predicate ActiveDone(s: State, o: Outcome) {
    && o.state.rows.Keys == s.rows.Keys
    && (forall id <- s.rows :: id !in o.reviewed ==> o.state.rows[id] == s.rows[id])
    && (forall id <- o.reviewed :: id in s.rows && s.rows[id].status == Active && Above(id, s.activeCursor))
    && CursorMoved(s, o)
  }

  lemma ActivePhaseFacts(index: seq<nat>, size: nat, s: State, env: Env)
    requires IsIndex(index, s.rows) && size > 0
    requires !ActivePhase(index, size, s, env).raised
    ensures ActiveDone(s, ActivePhase(index, size, s, env))
  {
    BatchFacts(index, s.rows, Active, s.activeCursor, size);
    var batch := Batch(index, s.rows, Active, s.activeCursor, size);
    if batch != [] {
      ProcessFacts(s.rows, batch, (id: nat, u: User) => ReviewOne(id, u, env), env.cut);
      var o := ActivePhase(index, size, s, env);
      var last := o.reviewed[|o.reviewed| - 1];
      assert batch[|o.reviewed| - 1] == last;
      forall id | id in s.rows && s.rows[id].status == Active && Above(id, s.activeCursor) && id <= last
        ensures id in o.reviewed
      {
        assert id in batch;
        var k :| 0 <= k < |batch| && batch[k] == id;
        assert k < |o.reviewed|;
        assert o.reviewed[k] == id;
      }
    }
  }

  lemma HoldPhaseFacts(index: seq<nat>, size: nat, s: State, env: Env)
    requires IsIndex(index, s.rows) && size > 0
    ensures var s' := HoldPhase(index, size, s, env).0;
            && s'.activeCursor == s.activeCursor && s'.rows.Keys == s.rows.Keys
            && (forall id <- s.rows :: s.rows[id].status != OnHold ==> s'.rows[id] == s.rows[id])
            && (forall id <- s.rows :: Live(s'.rows, id) ==> Live(s.rows, id))
  {
    BatchFacts(index, s.rows, OnHold, s.holdCursor, size);
    var batch := Batch(index, s.rows, OnHold, s.holdCursor, size);
    if batch != [] {
      ProcessFacts(s.rows, batch, (id: nat, u: User) => HoldOne(id, u, env), env.cutHold);
    }
  }

  // ---------- when the active phase raises ----------

  /** An active user above the cursor whose next plan fires but waits for a first connection. */
  predicate Blocks(s: State, id: nat, env: Env) {
    && id in s.rows && s.rows[id].status == Active && Above(id, s.activeCursor)
    && PlanFires(s.rows[id], id, env) && Delayed(s.rows[id])
  }

  /** The active users between the cursor and an id. */
  function Before(s: State, id: nat): set<nat> {
    set i | i in s.rows && s.rows[i].status == Active && Above(i, s.activeCursor) && i < id
  }

  /** The run gets to a blocking user: the user is within the batch, and neither the time budget nor
      another blocking user ends the scan before. */
  predicate Reached(size: nat, s: State, env: Env, id: nat) {
    && Blocks(s, id, env) && |Before(s, id)| < size
    && forall i <- Before(s, id) :: !Blocks(s, i, env) && !env.cut(i)
  }

  predicate Stuck(size: nat, s: State, env: Env) {
    exists id <- s.rows :: Reached(size, s, env, id)
  }

  /** A pass raises exactly at an element that raises with no cut and no raise before it. */
  predicate RaisesAt(rows: map<nat, User>, batch: seq<nat>, handle: (nat, User) -> Handled, cut: nat -> bool, k: nat)
    requires forall id <- batch :: id in rows
  {
    && k < |batch| && handle(batch[k], rows[batch[k]]).raises
    && forall j :: 0 <= j < k ==> !handle(batch[j], rows[batch[j]]).raises && !cut(batch[j])
  }

  lemma {:induction false} ProcessRaisesIff(rows: map<nat, User>, batch: seq<nat>, handle: (nat, User) -> Handled, cut: nat -> bool)
    requires Distinct(batch) && forall id <- batch :: id in rows
    ensures Process(rows, batch, handle, cut).raised <==> exists k: nat :: RaisesAt(rows, batch, handle, cut, k)
  {
    if batch != [] {
      var id0 := batch[0];
      var h := handle(id0, rows[id0]);
      if h.raises {
        assert RaisesAt(rows, batch, handle, cut, 0);
      } else if !cut(id0) {
        var rows' := rows[id0 := h.row];
        assert forall id <- batch[1..] :: id in batch && id != id0;
        ProcessRaisesIff(rows', batch[1..], handle, cut);
        forall k: nat ensures RaisesAt(rows, batch, handle, cut, k + 1) <==> RaisesAt(rows', batch[1..], handle, cut, k) {
          RaisesLater(rows, batch, handle, cut, k);
        }
        if k: nat :| RaisesAt(rows, batch, handle, cut, k) {
          assert k > 0;
          RaisesLater(rows, batch, handle, cut, k - 1);
          assert RaisesAt(rows', batch[1..], handle, cut, k - 1);
        }
      }
    }
  }

  lemma RaisesLater(rows: map<nat, User>, batch: seq<nat>, handle: (nat, User) -> Handled, cut: nat -> bool, k: nat)
    requires Distinct(batch) && batch != [] && forall id <- batch :: id in rows
    requires !handle(batch[0], rows[batch[0]]).raises && !cut(batch[0])
    ensures var rows' := rows[batch[0] := handle(batch[0], rows[batch[0]]).row];
            RaisesAt(rows, batch, handle, cut, k + 1) <==> RaisesAt(rows', batch[1..], handle, cut, k)
  {
    var rows' := rows[batch[0] := handle(batch[0], rows[batch[0]]).row];
    var tail := batch[1..];
    assert forall j :: 0 <= j < |tail| ==> tail[j] == batch[j + 1] && rows'[tail[j]] == rows[batch[j + 1]];
    if RaisesAt(rows', tail, handle, cut, k) {
      forall j | 0 <= j < k + 1 ensures !handle(batch[j], rows[batch[j]]).raises && !cut(batch[j]) {
        if j > 0 {
          assert tail[j - 1] == batch[j];
        }
      }
    }
  }

  /** The place of an active user in the scan order is the number of active users before it. */
  lemma PlaceInBatch(index: seq<nat>, size: nat, s: State, k: nat)
    requires IsIndex(index, s.rows) && size > 0
    requires k < |Batch(index, s.rows, Active, s.activeCursor, size)|
    ensures var b := Batch(index, s.rows, Active, s.activeCursor, size);
            Before(s, b[k]) == Elements(b[..k]) && |Before(s, b[k])| == k < size
  {
    var b := Batch(index, s.rows, Active, s.activeCursor, size);
    BatchFacts(index, s.rows, Active, s.activeCursor, size);
    forall x | x in Before(s, b[k]) ensures x in b[..k] {
      assert x in b;
      var j :| 0 <= j < |b| && b[j] == x;
      assert j < k;
      assert b[..k][j] == x;
    }
    forall x | x in b[..k] ensures x in Before(s, b[k]) {
      var j :| 0 <= j < k && b[..k][j] == x;
      assert b[j] == x && b[j] in b;
    }
    ElementsOf(b[..k]);
    assert b <= Matching(index, s.rows, Active, s.activeCursor);
  }

  lemma InBatch(index: seq<nat>, size: nat, s: State, id: nat)
    requires IsIndex(index, s.rows) && size > 0
    requires id in s.rows && s.rows[id].status == Active && Above(id, s.activeCursor) && |Before(s, id)| < size
    ensures id in Batch(index, s.rows, Active, s.activeCursor, size)
  {
    var b := Batch(index, s.rows, Active, s.activeCursor, size);
    var m := Matching(index, s.rows, Active, s.activeCursor);
    BatchFacts(index, s.rows, Active, s.activeCursor, size);
    MatchingIsQuery(index, s.rows, Active, s.activeCursor);
    if id !in b {
      assert id in m && b <= m;
      var k :| 0 <= k < |m| && m[k] == id;
      assert |b| == size;
      forall x | x in b ensures x in Before(s, id) {}
      ElementsOf(b);
      NoMore(Elements(b), Before(s, id));
    }
  }

  lemma ReviewRaisesIff(s: State, id: nat, env: Env)
    requires id in s.rows && s.rows[id].status == Active && Above(id, s.activeCursor)
    ensures ReviewOne(id, s.rows[id], env).raises <==> Blocks(s, id, env)
  {}

  lemma RaisesAtIsReached(index: seq<nat>, size: nat, s: State, env: Env, b: seq<nat>, k: nat)
    requires IsIndex(index, s.rows) && size > 0 && b == Batch(index, s.rows, Active, s.activeCursor, size) && k < |b|
    ensures RaisesAt(s.rows, b, (id: nat, u: User) => ReviewOne(id, u, env), env.cut, k) <==> Reached(size, s, env, b[k])
  {
    BatchFacts(index, s.rows, Active, s.activeCursor, size);
    PlaceInBatch(index, size, s, k);
    forall j | 0 <= j < |b| ensures ReviewOne(b[j], s.rows[b[j]], env).raises <==> Blocks(s, b[j], env) {
      assert b[j] in b;
      ReviewRaisesIff(s, b[j], env);
    }
    ElementsAre(b, k, Before(s, b[k]));
  }

  lemma ElementsAre(b: seq<nat>, k: nat, before: set<nat>)
    requires k < |b| && before == Elements(b[..k])
    ensures forall j :: 0 <= j < k ==> b[j] in before
    ensures forall i <- before :: exists j :: 0 <= j < k && b[j] == i
  {
    forall j | 0 <= j < k ensures b[j] in before {
      assert b[..k][j] == b[j];
    }
  }

  /** The active phase raises exactly when it reaches a blocking user. */
  lemma ActivePhaseRaisesIff(index: seq<nat>, size: nat, s: State, env: Env)
    requires IsIndex(index, s.rows) && size > 0
    ensures ActivePhase(index, size, s, env).raised <==> Stuck(size, s, env)
  {
    var b := Batch(index, s.rows, Active, s.activeCursor, size);
    var handle := (id: nat, u: User) => ReviewOne(id, u, env);
    BatchFacts(index, s.rows, Active, s.activeCursor, size);
    ProcessRaisesIff(s.rows, b, handle, env.cut);
    forall k: nat | k < |b| ensures RaisesAt(s.rows, b, handle, env.cut, k) <==> Reached(size, s, env, b[k]) {
      RaisesAtIsReached(index, size, s, env, b, k);
    }
    forall id | id in s.rows && Reached(size, s, env, id)
      ensures exists k: nat :: RaisesAt(s.rows, b, handle, env.cut, k)
    {
      InBatch(index, size, s, id);
      var k: nat :| k < |b| && b[k] == id;
      assert RaisesAt(s.rows, b, handle, env.cut, k);
    }
  }

  /** What a whole run leaves behind when its active phase raises nothing. */
  predicate RunDone(s: State, o: Outcome) {
    && o.state.rows.Keys == s.rows.Keys
    && (forall id <- s.rows :: s.rows[id].status == Active && id !in o.reviewed ==> o.state.rows[id] == s.rows[id])
    && (forall id <- o.state.rows :: Live(o.state.rows, id) ==> Live(s.rows, id))
    && (forall id <- o.reviewed :: id in s.rows && s.rows[id].status == Active && Above(id, s.activeCursor))
    && CursorMoved(s, o)
  }

  lemma RunFacts(index: seq<nat>, size: nat, s: State, env: Env)
    requires IsIndex(index, s.rows) && size > 0
    requires !Stuck(size, s, env)
    ensures RunDone(s, Run(index, size, s, env))
  {
    var a := ActivePhase(index, size, s, env);
    ActivePhaseRaisesIff(index, size, s, env);
    ActivePhaseFacts(index, size, s, env);
    if !env.cutBetween {
      HoldAfterActive(index, size, s, a, env);
    }
  }

  lemma HoldAfterActive(index: seq<nat>, size: nat, s: State, a: Outcome, env: Env)
    requires IsIndex(index, s.rows) && size > 0 && ActiveDone(s, a)
    ensures RunDone(s, Outcome(HoldPhase(index, size, a.state, env).0, a.reviewed, false))
  {
    HoldPhaseFacts(index, size, a.state, env);
    var s' := HoldPhase(index, size, a.state, env).0;
    forall id | id in s'.rows && Live(s'.rows, id) ensures Live(s.rows, id) {
      assert Live(a.state.rows, id);
    }
  }

  /** Each run either reviews an active user or brings its turn nearer, whatever the time budget cuts
      off and whatever the on-hold phase activates. */
  lemma RunAdvances(s: State, o: Outcome, id: nat)
    requires 0 !in s.rows && RunDone(s, o)
    requires id in s.rows && s.rows[id].status == Active && id !in o.reviewed
    ensures o.state.rows[id].status == Active && Waiting(o.state, id) < Waiting(s, id)
  {
    if o.reviewed != [] {
      assert o.reviewed[|o.reviewed| - 1] in o.reviewed;
    }
    WaitingShrinks(s, o, id);
  }

  lemma WaitingShrinks(s: State, o: Outcome, id: nat)
    requires 0 !in s.rows && id in s.rows && s.rows[id].status == Active && id !in o.reviewed
    requires o.state.rows.Keys == s.rows.Keys
    requires forall i <- o.state.rows :: Live(o.state.rows, i) ==> Live(s.rows, i)
    requires o.reviewed == [] ==> o.state.activeCursor == Some(0) && !Above(id, s.activeCursor)
    requires o.reviewed != [] ==>
               && var last := o.reviewed[|o.reviewed| - 1];
               && o.state.activeCursor == Some(last) && last in s.rows && s.rows[last].status == Active
               && Above(last, s.activeCursor) && (Above(id, s.activeCursor) ==> id > last)
    ensures Waiting(o.state, id) < Waiting(s, id)
  {
    var c, c' := s.activeCursor.GetOr(0), o.state.activeCursor.value;
    var rows, rows' := s.rows, o.state.rows;
    if o.reviewed == [] {
      NoMore(LiveBetween(rows', 0, Some(id)), LiveBetween(rows, 0, Some(id)));
    } else if id > c {
      Fewer(LiveBetween(rows', c', Some(id)), LiveBetween(rows, c, Some(id)), c');
    } else {
      Fewer(LiveBetween(rows', c', None), LiveBetween(rows, c, None), c');
      NoMore(LiveBetween(rows', 0, Some(id)), LiveBetween(rows, 0, Some(id)));
    }
  }

  datatype Event = Event(before: State, env: Env, outcome: Outcome)

  /** A history of runs, each starting in the state the previous one left. */
  predicate History(index: seq<nat>, size: nat, events: seq<Event>) {
    events == [] ||
    (&& events[0].outcome == Run(index, size, events[0].before, events[0].env)
     && (|events| > 1 ==> events[1].before == events[0].outcome.state)
     && History(index, size, events[1..]))
  }

  lemma WaitingPositive(s: State, id: nat)
    requires id in s.rows && s.rows[id].status == Active
    ensures Waiting(s, id) > 0
  {
    if id > s.activeCursor.GetOr(0) {
      Fewer({}, LiveBetween(s.rows, s.activeCursor.GetOr(0), Some(id)), id);
    }
  }

  lemma OneRunDone(index: seq<nat>, size: nat, e: Event)
    requires e.outcome == Run(index, size, e.before, e.env) && !Stuck(size, e.before, e.env)
    requires IsIndex(index, e.before.rows) && size > 0
    ensures RunDone(e.before, e.outcome) && IsIndex(index, e.outcome.state.rows)
  {
    RunFacts(index, size, e.before, e.env);
  }

  lemma {:induction false} ReviewedInTime(index: seq<nat>, size: nat, events: seq<Event>, id: nat)
    requires History(index, size, events) && forall e <- events :: !Stuck(size, e.before, e.env)
    requires size > 0
    requires |events| > 0 ==>
               && IsIndex(index, events[0].before.rows)
               && id in events[0].before.rows && events[0].before.rows[id].status == Active
               && Waiting(events[0].before, id) <= |events|
    ensures |events| > 0 ==> exists e <- events :: id in e.outcome.reviewed
  {
    if events != [] {
      var e := events[0];
      assert e in events;
      OneRunDone(index, size, e);
      if id !in e.outcome.reviewed {
        RunAdvances(e.before, e.outcome, id);
        WaitingPositive(e.outcome.state, id);
        assert forall x <- events[1..] :: x in events;
        ReviewedInTime(index, size, events[1..], id);
      }
    }
  }

  /** Progress: from any cursor, with n users active or on hold, 2n runs that are not stuck review every
      active user, for every batch size, every pattern of time-budget cuts and whatever happens to
      the on-hold phases. */
  lemma EveryActiveUserIsReviewed(index: seq<nat>, size: nat, events: seq<Event>, id: nat)
    requires History(index, size, events) && forall e <- events :: !Stuck(size, e.before, e.env)
    requires events != [] && IsIndex(index, events[0].before.rows) && size > 0
    requires id in events[0].before.rows && events[0].before.rows[id].status == Active
    requires |events| >= 2 * |LiveBetween(events[0].before.rows, 0, None)|
    ensures exists e <- events :: id in e.outcome.reviewed
  {
    WaitingBound(events[0].before, id);
    ReviewedInTime(index, size, events, id);
  }

  lemma WaitingBound(s: State, id: nat)
    requires id in s.rows && s.rows[id].status == Active && 0 !in s.rows
    ensures Waiting(s, id) <= 2 * |LiveBetween(s.rows, 0, None)|
  {
    var c, all := s.activeCursor.GetOr(0), LiveBetween(s.rows, 0, None);
    NoMore(LiveBetween(s.rows, 0, Some(id)), all);
    if id > c {
      NoMore(LiveBetween(s.rows, c, Some(id)), all);
    } else {
      Fewer(LiveBetween(s.rows, c, None), all, id);
    }
  }

  // ---------- what a review means for the user ----------

  /** What a run may do to an active user it reviews. */
  predicate Settled(id: nat, u: User, u': User, env: Env) {
    if u'.status == Active then
      || (!OverLimit(u, id, env) && !Overdue(u, env) && u' == u)
      || (PlanFires(u, id, env) && u'.usedTraffic == 0 && u'.plans == u.plans[1..])
      || (env.writeFails(id) && u' == u)
    else
      && u' == u.(status := u'.status)
      && (u'.status == Limited <==> OverLimit(u, id, env))
      && (u'.status == Expired <==> !OverLimit(u, id, env) && Overdue(u, env))
  }

  /** After any run, cut or raising or not, every user it reviewed has been settled: one who is still
      active is within its limits, has moved on to its next plan, or kept the old status because the
      status write failed; one who is not was over the limit or overdue. Every other user that was
      active is as before. */
  lemma ReviewedUsersAreSettled(index: seq<nat>, size: nat, s: State, env: Env, id: nat)
    requires IsIndex(index, s.rows) && size > 0
    requires id in s.rows && s.rows[id].status == Active
    ensures var o := Run(index, size, s, env);
            && id in o.state.rows
            && (id in o.reviewed ==> Settled(id, s.rows[id], o.state.rows[id], env))
            && (id !in o.reviewed ==> o.state.rows[id] == s.rows[id])
  {
    ActivePhaseRows(index, size, s, env, id);
    HoldPhaseFacts(index, size, ActivePhase(index, size, s, env).state, env);
    if id in ActivePhase(index, size, s, env).reviewed {
      ReviewSettles(id, s.rows[id], env);
    }
  }

  lemma ReviewSettles(id: nat, u: User, env: Env)
    requires u.status == Active && !ReviewOne(id, u, env).raises
    ensures Settled(id, u, ReviewOne(id, u, env).row, env) && ReviewOne(id, u, env).row.status != OnHold
  {}

  lemma ActivePhaseRows(index: seq<nat>, size: nat, s: State, env: Env, id: nat)
    requires IsIndex(index, s.rows) && size > 0
    requires id in s.rows && s.rows[id].status == Active
    ensures var a := ActivePhase(index, size, s, env);
            && a.state.rows.Keys == s.rows.Keys
            && (id in a.reviewed ==> !ReviewOne(id, s.rows[id], env).raises && a.state.rows[id] == ReviewOne(id, s.rows[id], env).row)
            && (id !in a.reviewed ==> a.state.rows[id] == s.rows[id])
  {
    BatchFacts(index, s.rows, Active, s.activeCursor, size);
    var batch := Batch(index, s.rows, Active, s.activeCursor, size);
    if batch != [] {
      ProcessFacts(s.rows, batch, (i: nat, u: User) => ReviewOne(i, u, env), env.cut);
    }
  }

  /** What the handling of one active user leaves in its row, in the columns. `used` is the override in Redis if
      there is one, else the column and what is pending. A next plan fires on the limit or the expiry, or
      only on both: the limit becomes the old one, null as 0, plus the plan's if it increases; else the
      plan's alone if it adds remaining traffic; else the plan's and what was left of the old one. The
      expiry is the plan's unless that is null or 0. Without a plan that fires, the status follows the
      limit, then the expiry, unless its write fails. */
  lemma ReviewOneColumns(id: nat, u: User, env: Env)
    requires u.status == Active && !ReviewOne(id, u, env).raises
    ensures
      var used := if env.usageOverride(id).Some? then env.usageOverride(id).value else u.usedTraffic + env.pending(id);
      var limited := u.dataLimit.Some? && u.dataLimit.value != 0 && used >= u.dataLimit.value;
      var expired := u.expire.Some? && u.expire.value != 0 && u.expire.value <= env.now;
      ReviewOne(id, u, env).row ==
        if u.plans != [] && (limited || expired) && (u.plans[0].fireOnEither || (limited && expired)) then
          var plan, old_ := u.plans[0], if u.dataLimit.Some? then u.dataLimit.value else 0;
          User(Active,
               Some(if plan.increaseLimit then old_ + plan.dataLimit
                    else if plan.addRemaining || old_ <= u.usedTraffic then plan.dataLimit
                    else plan.dataLimit + (old_ - u.usedTraffic)),
               0,
               if plan.expire.Some? && plan.expire.value != 0 then plan.expire else u.expire,
               u.plans[1..], u.onlineAt, u.editAt, u.createdAt, u.onHoldTimeout, u.onHoldDuration)
        else if env.writeFails(id) then u
        else if limited then u.(status := Limited)
        else if expired then u.(status := Expired)
        else u
  {}

  /** A run leaves that in the row of every user it reviewed. */
  lemma ReviewedUserColumns(index: seq<nat>, size: nat, s: State, env: Env, id: nat)
    requires IsIndex(index, s.rows) && size > 0 && id in s.rows && s.rows[id].status == Active
    requires id in Run(index, size, s, env).reviewed
    ensures var u, rows := s.rows[id], Run(index, size, s, env).state.rows;
      var used := if env.usageOverride(id).Some? then env.usageOverride(id).value else u.usedTraffic + env.pending(id);
      var limited := u.dataLimit.Some? && u.dataLimit.value != 0 && used >= u.dataLimit.value;
      var expired := u.expire.Some? && u.expire.value != 0 && u.expire.value <= env.now;
      id in rows && rows[id] ==
        if u.plans != [] && (limited || expired) && (u.plans[0].fireOnEither || (limited && expired)) then
          var plan, old_ := u.plans[0], if u.dataLimit.Some? then u.dataLimit.value else 0;
          User(Active,
               Some(if plan.increaseLimit then old_ + plan.dataLimit
                    else if plan.addRemaining || old_ <= u.usedTraffic then plan.dataLimit
                    else plan.dataLimit + (old_ - u.usedTraffic)),
               0,
               if plan.expire.Some? && plan.expire.value != 0 then plan.expire else u.expire,
               u.plans[1..], u.onlineAt, u.editAt, u.createdAt, u.onHoldTimeout, u.onHoldDuration)
        else if env.writeFails(id) then u
        else if limited then u.(status := Limited)
        else if expired then u.(status := Expired)
        else u
  {
    ReviewedRow(index, size, s, env, id);
    ReviewOneColumns(id, s.rows[id], env);
  }

  lemma ReviewedRow(index: seq<nat>, size: nat, s: State, env: Env, id: nat)
    requires IsIndex(index, s.rows) && size > 0 && id in s.rows && s.rows[id].status == Active
    requires id in Run(index, size, s, env).reviewed
    ensures var rows := Run(index, size, s, env).state.rows;
            && !ReviewOne(id, s.rows[id], env).raises && id in rows && rows[id] == ReviewOne(id, s.rows[id], env).row
  {
    ActivePhaseRows(index, size, s, env, id);
    HoldPhaseFacts(index, size, ActivePhase(index, size, s, env).state, env);
    ReviewSettles(id, s.rows[id], env);
  }

  /** Who blocks, in the columns: the plan fires, waits for a first connection, and nothing has been used. */
  lemma BlocksColumns(s: State, id: nat, env: Env)
    requires id in s.rows
    ensures var u := s.rows[id];
      var used := if env.usageOverride(id).Some? then env.usageOverride(id).value else u.usedTraffic + env.pending(id);
      var limited := u.dataLimit.Some? && u.dataLimit.value != 0 && used >= u.dataLimit.value;
      var expired := u.expire.Some? && u.expire.value != 0 && u.expire.value <= env.now;
      Blocks(s, id, env) <==>
        && u.status == Active && (s.activeCursor.None? || id > s.activeCursor.value)
        && u.plans != [] && (limited || expired) && (u.plans[0].fireOnEither || (limited && expired))
        && u.plans[0].startOnFirstConnect && u.onlineAt.None? && u.usedTraffic == 0
  {}

  /** An on-hold user who starts now, in the columns. The last time online is the later of the column and the
      one in Redis; the user starts when it is not before the last edit, or the creation, or when the
      timeout has come. A user without a duration becomes active, and that raises. */
  lemma HeldUserColumns(id: nat, u: User, env: Env)
    ensures var redis := env.pendingOnline(id);
      var online := if redis.Some? && (u.onlineAt.None? || redis.value > u.onlineAt.value) then redis else u.onlineAt;
      var since := if u.editAt.Some? then u.editAt.value else u.createdAt;
      HoldOne(id, u, env) ==
        if (online.Some? && since <= online.value) || (u.onHoldTimeout.Some? && u.onHoldTimeout.value <= env.now) then
          if u.onHoldDuration.Some? then
            Handled(User(Active, u.dataLimit, u.usedTraffic, Some(env.now + u.onHoldDuration.value), u.plans, u.onlineAt,
                         u.editAt, u.createdAt, None, None), false)
          else Handled(u.(status := Active), true)
        else Handled(u, false)
  {}

  /** What the on-hold phase leaves: when it raises nothing, every on-hold user between its old cursor and its new
      one has been handled, and no other row is touched; when it raises, it has handled some of them. */
  lemma HoldPhaseHandles(index: seq<nat>, size: nat, s: State, env: Env, id: nat)
    requires IsIndex(index, s.rows) && size > 0 && id in s.rows
    ensures var (s', raised) := HoldPhase(index, size, s, env);
      && id in s'.rows
      && (s.rows[id].status != OnHold ==> s'.rows[id] == s.rows[id])
      && (s'.rows[id] == s.rows[id] || s'.rows[id] == HoldOne(id, s.rows[id], env).row)
      && (raised ==> s'.holdCursor == s.holdCursor)
      && (!raised && s.rows[id].status == OnHold && (s.holdCursor.None? || id > s.holdCursor.value) ==>
            s'.holdCursor.Some? && s'.holdCursor != Some(0)
            && s'.rows[id] == if id <= s'.holdCursor.value then HoldOne(id, s.rows[id], env).row else s.rows[id])
    ensures (forall i <- s.rows :: s.rows[i].status == OnHold ==> s.holdCursor.Some? && i <= s.holdCursor.value) ==>
      HoldPhase(index, size, s, env) == (State(s.rows, s.activeCursor, Some(0)), false)
  {
    BatchFacts(index, s.rows, OnHold, s.holdCursor, size);
    var batch := Batch(index, s.rows, OnHold, s.holdCursor, size);
    if batch != [] {
      assert batch[0] in batch;
      var handle := (i: nat, u: User) => HoldOne(i, u, env);
      ProcessFacts(s.rows, batch, handle, env.cutHold);
      var pass := Process(s.rows, batch, handle, env.cutHold);
      if !pass.raised {
        DoneUpTo(batch, pass.done, id);
      }
    }
  }

  /** A prefix of an ascending batch holds exactly the elements up to its last. */
  lemma DoneUpTo(batch: seq<nat>, done: seq<nat>, id: nat)
    requires forall j, k :: 0 <= j < k < |batch| ==> batch[j] < batch[k]
    requires done <= batch && done != []
    ensures done[|done| - 1] in batch
    ensures id in done <==> id in batch && id <= done[|done| - 1]
  {
    if id in batch {
      var k :| 0 <= k < |batch| && batch[k] == id;
      if id <= done[|done| - 1] {
        assert k < |done|;
        assert done[k] == id;
      }
    }
    if id in done {
      var k :| 0 <= k < |done| && done[k] == id;
      assert batch[k] == id;
    }
    assert batch[|done| - 1] == done[|done| - 1];
  }

  // ---------- tables that never block ----------

  /** No plan of a live user waits for a first connection, or the user has connected. */
  predicate NeverDelays(rows: map<nat, User>) {
    forall id <- rows :: Live(rows, id) ==> Undelayed(rows[id])
  }

  predicate Undelayed(u: User) {
    u.onlineAt.Some? || forall p <- u.plans :: !p.startOnFirstConnect
  }

  lemma UndelayedIsNotDelayed(u: User)
    requires Undelayed(u)
    ensures !Delayed(u)
  {
    if u.plans != [] {
      assert u.plans[0] in u.plans;
    }
  }

  lemma HandledStaysUndelayed(id: nat, u: User, env: Env)
    requires Undelayed(u)
    ensures Undelayed(ReviewOne(id, u, env).row) && Undelayed(HoldOne(id, u, env).row)
  {
    if u.plans != [] {
      assert forall p <- u.plans[1..] :: p in u.plans;
    }
  }

  lemma {:induction false} ProcessStaysUndelayed(rows: map<nat, User>, batch: seq<nat>, handle: (nat, User) -> Handled, cut: nat -> bool)
    requires forall id <- batch :: id in rows && Undelayed(rows[id])
    requires forall id: nat, u: User :: Undelayed(u) ==> Undelayed(handle(id, u).row)
    ensures var p := Process(rows, batch, handle, cut);
            && p.rows.Keys == rows.Keys
            && forall id <- rows :: p.rows[id] == rows[id] || Undelayed(p.rows[id])
  {
    if batch != [] {
      var id0 := batch[0];
      var h := handle(id0, rows[id0]);
      if !h.raises && !cut(id0) {
        assert forall id <- batch[1..] :: id in batch;
        ProcessStaysUndelayed(rows[id0 := h.row], batch[1..], handle, cut);
      }
    }
  }

  lemma ActiveStaysUndelayed(index: seq<nat>, size: nat, s: State, env: Env)
    requires IsIndex(index, s.rows) && size > 0 && NeverDelays(s.rows)
    ensures var rows' := ActivePhase(index, size, s, env).state.rows; NeverDelays(rows') && rows'.Keys == s.rows.Keys
  {
    var batch := Batch(index, s.rows, Active, s.activeCursor, size);
    BatchFacts(index, s.rows, Active, s.activeCursor, size);
    forall id: nat, u: User | Undelayed(u) ensures Undelayed(ReviewOne(id, u, env).row) {
      HandledStaysUndelayed(id, u, env);
    }
    ProcessStaysUndelayed(s.rows, batch, (id: nat, u: User) => ReviewOne(id, u, env), env.cut);
    LiveStaysLive(index, size, s, env);
  }

  lemma HoldStaysUndelayed(index: seq<nat>, size: nat, s: State, env: Env)
    requires IsIndex(index, s.rows) && size > 0 && NeverDelays(s.rows)
    ensures NeverDelays(HoldPhase(index, size, s, env).0.rows)
  {
    var batch := Batch(index, s.rows, OnHold, s.holdCursor, size);
    BatchFacts(index, s.rows, OnHold, s.holdCursor, size);
    forall id: nat, u: User | Undelayed(u) ensures Undelayed(HoldOne(id, u, env).row) {
      HandledStaysUndelayed(id, u, env);
    }
    ProcessStaysUndelayed(s.rows, batch, (id: nat, u: User) => HoldOne(id, u, env), env.cutHold);
    LiveStaysLive(index, size, s, env);
  }

  /** Neither phase makes a user live that was not. */
  lemma LiveStaysLive(index: seq<nat>, size: nat, s: State, env: Env)
    requires IsIndex(index, s.rows) && size > 0
    ensures var rows' := ActivePhase(index, size, s, env).state.rows;
            rows'.Keys == s.rows.Keys && forall id <- s.rows :: Live(rows', id) ==> Live(s.rows, id)
    ensures var rows' := HoldPhase(index, size, s, env).0.rows;
            rows'.Keys == s.rows.Keys && forall id <- s.rows :: Live(rows', id) ==> Live(s.rows, id)
  {
    BatchFacts(index, s.rows, Active, s.activeCursor, size);
    var batch := Batch(index, s.rows, Active, s.activeCursor, size);
    ProcessFacts(s.rows, batch, (id: nat, u: User) => ReviewOne(id, u, env), env.cut);
    HoldPhaseFacts(index, size, s, env);
  }

  lemma RunStaysUndelayed(index: seq<nat>, size: nat, s: State, env: Env)
    requires IsIndex(index, s.rows) && size > 0 && NeverDelays(s.rows)
    ensures !Stuck(size, s, env)
    ensures var o := Run(index, size, s, env); NeverDelays(o.state.rows) && IsIndex(index, o.state.rows)
  {
    ActiveStaysUndelayed(index, size, s, env);
    var a := ActivePhase(index, size, s, env);
    HoldStaysUndelayed(index, size, a.state, env);
    HoldPhaseFacts(index, size, a.state, env);
    forall id | id in s.rows && Live(s.rows, id) ensures !Delayed(s.rows[id]) {
      UndelayedIsNotDelayed(s.rows[id]);
    }
  }

  lemma {:induction false} HistoryStaysUndelayed(index: seq<nat>, size: nat, events: seq<Event>)
    requires History(index, size, events) && size > 0
    requires events != [] ==> IsIndex(index, events[0].before.rows) && NeverDelays(events[0].before.rows)
    ensures forall e <- events :: !Stuck(size, e.before, e.env)
  {
    if events != [] {
      RunStaysUndelayed(index, size, events[0].before, events[0].env);
      HistoryStaysUndelayed(index, size, events[1..]);
      assert forall e <- events :: e == events[0] || e in events[1..];
    }
  }

  /** Progress from the first table alone: if no live user's plan waits for a first connection that has
      not happened, every active user is reviewed within 2n runs. */
  lemma EveryActiveUserIsReviewedWithoutDelays(index: seq<nat>, size: nat, events: seq<Event>, id: nat)
    requires History(index, size, events) && events != [] && size > 0
    requires IsIndex(index, events[0].before.rows) && NeverDelays(events[0].before.rows)
    requires id in events[0].before.rows && events[0].before.rows[id].status == Active
    requires |events| >= 2 * |LiveBetween(events[0].before.rows, 0, None)|
    ensures exists e <- events :: id in e.outcome.reviewed
  {
    HistoryStaysUndelayed(index, size, events);
    EveryActiveUserIsReviewed(index, size, events, id);
  }

  // ---------- the users who starve ----------

  /** While a user blocks, no run, however it is cut, moves the cursor to the user or back, or reviews
      anybody outside the ids between the cursor and the user. */
  lemma BlockedRun(index: seq<nat>, size: nat, s: State, env: Env, id: nat)
    requires IsIndex(index, s.rows) && size > 0 && Blocks(s, id, env)
    ensures var o := Run(index, size, s, env);
            && IsIndex(index, o.state.rows)
            && o.state.rows[id] == s.rows[id] && Above(id, o.state.activeCursor)
            && s.activeCursor.GetOr(0) <= o.state.activeCursor.GetOr(0)
            && forall i <- o.reviewed :: s.activeCursor.GetOr(0) < i < id
  {
    BlockedPhase(index, size, s, env, id);
    HoldPhaseFacts(index, size, ActivePhase(index, size, s, env).state, env);
  }

  lemma BlockedPhase(index: seq<nat>, size: nat, s: State, env: Env, id: nat)
    requires IsIndex(index, s.rows) && size > 0 && Blocks(s, id, env)
    ensures var a := ActivePhase(index, size, s, env);
            && IsIndex(index, a.state.rows)
            && a.state.rows[id] == s.rows[id] && Above(id, a.state.activeCursor)
            && s.activeCursor.GetOr(0) <= a.state.activeCursor.GetOr(0)
            && forall i <- a.reviewed :: s.activeCursor.GetOr(0) < i < id
  {
    var batch := Batch(index, s.rows, Active, s.activeCursor, size);
    BlockedPass(index, size, s, env, id, batch);
    var done := ActivePhase(index, size, s, env).reviewed;
    if done != [] {
      assert done[|done| - 1] in done;
    }
  }

  lemma BlockedPass(index: seq<nat>, size: nat, s: State, env: Env, id: nat, batch: seq<nat>)
    requires IsIndex(index, s.rows) && size > 0 && Blocks(s, id, env)
    requires batch == Batch(index, s.rows, Active, s.activeCursor, size)
    ensures var pass := Process(s.rows, batch, (i: nat, u: User) => ReviewOne(i, u, env), env.cut);
            && batch != [] && pass.rows.Keys == s.rows.Keys && pass.rows[id] == s.rows[id]
            && forall i <- pass.done :: s.activeCursor.GetOr(0) < i < id
  {
    BatchFacts(index, s.rows, Active, s.activeCursor, size);
    assert ReviewOne(id, s.rows[id], env) == Handled(s.rows[id], true);
    var handle := (i: nat, u: User) => ReviewOne(i, u, env);
    var pass := Process(s.rows, batch, handle, env.cut);
    assert id !in pass.done && pass.done <= batch && pass.rows.Keys == s.rows.Keys && pass.rows[id] == s.rows[id] by {
      ProcessFacts(s.rows, batch, handle, env.cut);
    }
    DoneInRange(s.activeCursor, batch, pass.done, id);
  }

  /** In an ascending batch, what was handled lies between the cursor and what was not. */
  lemma DoneInRange(cursor: Option<nat>, batch: seq<nat>, done: seq<nat>, id: nat)
    requires forall j, k :: 0 <= j < k < |batch| ==> batch[j] < batch[k]
    requires forall x <- batch :: Above(x, cursor)
    requires batch != [] && done <= batch && id !in done && (id in batch || id > batch[|batch| - 1])
    requires 0 !in batch
    ensures forall i <- done :: cursor.GetOr(0) < i < id
  {
    forall i | i in done ensures cursor.GetOr(0) < i < id {
      var k :| 0 <= k < |done| && done[k] == i;
      assert batch[k] == i && i in batch;
      if id in batch {
        var j :| 0 <= j < |batch| && batch[j] == id;
        assert j >= |done|;
      } else {
        assert i <= batch[|batch| - 1];
      }
    }
  }

  /** As long as the plan keeps firing, nobody at or below the first cursor and nobody from the blocking
      user on is reviewed again. */
  lemma {:induction false} BlockedForever(index: seq<nat>, size: nat, events: seq<Event>, id: nat, u: User)
    requires History(index, size, events) && size > 0
    requires events != [] ==> IsIndex(index, events[0].before.rows) && Above(id, events[0].before.activeCursor)
    requires events != [] ==> id in events[0].before.rows && events[0].before.rows[id] == u
    requires u.status == Active && Delayed(u) && forall e <- events :: PlanFires(u, id, e.env)
    ensures forall e <- events :: forall i <- e.outcome.reviewed :: events[0].before.activeCursor.GetOr(0) < i < id
  {
    if events != [] {
      var e := events[0];
      assert e in events;
      BlockedRun(index, size, e.before, e.env, id);
      assert forall x <- events[1..] :: x in events;
      BlockedForever(index, size, events[1..], id, u);
      assert forall x <- events :: x == e || x in events[1..];
    }
  }

  /** A table on which the job is blocked: user 1 is overdue and behind the cursor, user 2 is overdue
      with a plan that waits for a first connection, user 3 is overdue. */
  function BlockedTable(): State {
    var overdue := User(Active, None, 0, Some(1), [], None, None, 0, None, None);
    State(map[1 := overdue, 2 := overdue.(plans := [Plan(0, None, false, false, true, true)]), 3 := overdue],
          Some(1), None)
  }

  function Repeated(index: seq<nat>, size: nat, s: State, envs: seq<Env>): State
    decreases |envs|
  {
    if envs == [] then s else Repeated(index, size, Run(index, size, s, envs[0]).state, envs[1..])
  }

  /** From the expiry on, no number of runs changes anything there: all three stay active and overdue. */
  lemma {:induction false} BlockedTableNeverChanges(size: nat, envs: seq<Env>)
    requires size > 0 && forall env <- envs :: env.now >= 1
    ensures Repeated([1, 2, 3], size, BlockedTable(), envs) == BlockedTable()
    ensures forall env <- envs :: Run([1, 2, 3], size, BlockedTable(), env) == Outcome(BlockedTable(), [], true)
  {
    if envs != [] {
      assert envs[0] in envs;
      BlockedTableRun(size, envs[0]);
      assert forall env <- envs[1..] :: env in envs;
      BlockedTableNeverChanges(size, envs[1..]);
      assert forall env <- envs :: env == envs[0] || env in envs[1..];
    }
  }

  lemma BlockedTableRun(size: nat, env: Env)
    requires size > 0 && env.now >= 1
    ensures Run([1, 2, 3], size, BlockedTable(), env) == Outcome(BlockedTable(), [], true)
  {
    var s := BlockedTable();
    assert [1, 2, 3][1..] == [2, 3] && [2, 3][1..] == [3] && [3][1..] == [];
    assert Matching([3], s.rows, Active, Some(1)) == [3];
    assert Matching([2, 3], s.rows, Active, Some(1)) == [2, 3];
    assert Matching([1, 2, 3], s.rows, Active, Some(1)) == [2, 3];
    var batch := Batch([1, 2, 3], s.rows, Active, Some(1), size);
    assert batch != [] && batch[0] == 2;
    assert ReviewOne(2, s.rows[2], env) == Handled(s.rows[2], true);
    assert s.rows[2 := s.rows[2]] == s.rows;
  }

  // ---------- the job ----------

  class ReviewJob {
    const index: seq<nat>
    const batchSize: nat
    var rows: map<nat, User>
    var activeCursor: Option<nat>
    var holdCursor: Option<nat>

    constructor (index: seq<nat>, batchSize: nat, s: State)
      ensures this.index == index && this.batchSize == batchSize && Current() == s
    {
      this.index, this.batchSize := index, batchSize;
      rows, activeCursor, holdCursor := s.rows, s.activeCursor, s.holdCursor;
    }

    function Current(): State
      reads this
    {
      State(rows, activeCursor, holdCursor)
    }

    /** `review()`: the active phase, and if the time budget allows the on-hold phase. */
    method Review(env: Env) returns (reviewed: seq<nat>, raised: bool)
      modifies this
      ensures Outcome(Current(), reviewed, raised) == Run(index, batchSize, old(Current()), env)
    {
      reviewed, raised := ReviewActive(env);
      if raised || env.cutBetween {
        return;
      }
      raised := ReviewHold(env);
    }

    method ReviewActive(env: Env) returns (reviewed: seq<nat>, raised: bool)
      modifies this
      ensures Outcome(Current(), reviewed, raised) == ActivePhase(index, batchSize, old(Current()), env)
    {
      var batch := Batch(index, rows, Active, activeCursor, batchSize);
      if batch == [] {
        activeCursor := Some(0);
        return [], false;
      }
      reviewed, raised := Scan(batch, (id: nat, u: User) => ReviewOne(id, u, env), env.cut);
      if !raised && reviewed != [] {
        activeCursor := Some(reviewed[|reviewed| - 1]);
      }
    }

    method ReviewHold(env: Env) returns (raised: bool)
      modifies this
      ensures (Current(), raised) == HoldPhase(index, batchSize, old(Current()), env)
    {
      var batch := Batch(index, rows, OnHold, holdCursor, batchSize);
      if batch == [] {
        holdCursor := Some(0);
        return false;
      }
      var done;
      done, raised := Scan(batch, (id: nat, u: User) => HoldOne(id, u, env), env.cutHold);
      if !raised && done != [] {
        holdCursor := Some(done[|done| - 1]);
      }
    }

    /** The loop of either phase: handle one user after the other until the batch ends, the time
        budget is used up, or an exception leaves the loop. */
    method Scan(batch: seq<nat>, handle: (nat, User) -> Handled, cut: nat -> bool) returns (done: seq<nat>, raised: bool)
      requires forall id <- batch :: id in rows
      modifies this`rows
      ensures Pass(rows, done, raised) == Process(old(rows), batch, handle, cut)
    {
      done, raised := [], false;
      var i := 0;
      while i < |batch|
        invariant 0 <= i <= |batch| && rows.Keys == old(rows.Keys)
        invariant Process(old(rows), batch, handle, cut) == Extend(done, Process(rows, batch[i..], handle, cut))
      {
        var id := batch[i];
        assert batch[i..][1..] == batch[i + 1..];
        var h := handle(id, rows[id]);
        rows := rows[id := h.row];
        if h.raises {
          return done, true;
        }
        done, i := done + [id], i + 1;
        if cut(id) {
          break;
        }
      }
    }
  }

  /** A pass seen from before the users already handled. */
  function Extend(done: seq<nat>, p: Pass): Pass {
    p.(done := done + p.done)
  }
}
