/** The webhook queue: draining it, sending one batch, and retrying a failed batch a bounded number of
    times. */
module Notifications {
  import opened Prelude

  /** A queued notification. `sendAt` is the earliest time to send it, in clock ticks. */
  datatype Notification = Notification(id: string, tries: nat, sendAt: int)

  // ---------- the books ----------

  /** Every notification ever enqueued: the queued ones with their tries, how often each was sent, and
      which were delivered or given up. */
  datatype Books = Books(queued: map<string, nat>, attempts: map<string, nat>, delivered: set<string>, givenUp: set<string>)

  const NO_BOOKS := Books(map[], map[], {}, {})

  /** Nothing is lost: each known notification is queued, delivered or given up, and only one of these;
      a queued one was sent as often as it counts tries, at most `limit` times; a delivered one at
      most `limit + 1` times; and one is given up only after `limit + 1` failures. */
  predicate Inv(b: Books, limit: nat) {
    && b.attempts.Keys == b.queued.Keys + b.delivered + b.givenUp
    && b.queued.Keys !! b.delivered !! b.givenUp
    && (forall id <- b.queued :: b.attempts[id] == b.queued[id] <= limit)
    && (forall id <- b.delivered :: 1 <= b.attempts[id] <= limit + 1)
    && (forall id <- b.givenUp :: b.attempts[id] == limit + 1)
  }

  /** A new notification enters with no tries. */
  function AfterNotify(b: Books, id: string): Books {
    b.(queued := b.queued[id := 0], attempts := b.attempts[id := 0])
  }

  function Retried(batch: map<string, nat>, limit: nat): map<string, nat> {
    map id | id in batch && batch[id] + 1 <= limit :: batch[id] + 1
  }

  /** One run: everything queued is sent as one batch, which succeeds or fails as a whole. */
  function AfterRun(b: Books, ok: bool, limit: nat): Books {
    var attempts := map id | id in b.attempts :: b.attempts[id] + (if id in b.queued then 1 else 0);
    if ok then Books(map[], attempts, b.delivered + b.queued.Keys, b.givenUp)
    else Books(Retried(b.queued, limit), attempts, b.delivered,
               b.givenUp + set id <- b.queued | b.queued[id] + 1 > limit)
  }

  datatype Event = Notified(id: string) | RunWith(ok: bool)

  function Next(b: Books, e: Event, limit: nat): Books {
    match e
    case Notified(id) => if id in b.attempts then b else AfterNotify(b, id)
    case RunWith(ok) => AfterRun(b, ok, limit)
  }

  function After(events: seq<Event>, limit: nat): Books {
    if events == [] then NO_BOOKS else Next(After(events[..|events| - 1], limit), events[|events| - 1], limit)
  }

  lemma RunKeepsBooks(b: Books, ok: bool, limit: nat)
    requires Inv(b, limit)
    ensures Inv(AfterRun(b, ok, limit), limit)
  {}

  lemma EmptyRunChangesNothing(b: Books, ok: bool, limit: nat)
    ensures b.queued == map[] ==> AfterRun(b, ok, limit) == b
  {
    if b.queued != map[] {
      return;
    }
    assert Retried(b.queued, limit) == map[];
    assert AfterRun(b, ok, limit).attempts == b.attempts;
  }

  /** Over every history of new notifications and runs: each notification is sent at most `limit + 1`
      times, and one that is no longer queued was delivered, or failed exactly `limit + 1` times. */
  lemma {:induction false} NoneLostOrOversent(events: seq<Event>, limit: nat)
    ensures var b := After(events, limit);
            && Inv(b, limit)
            && (forall id :: id in b.attempts <==> id in b.queued || id in b.delivered || id in b.givenUp)
            && (forall id <- b.queued :: id !in b.delivered && id !in b.givenUp && b.attempts[id] == b.queued[id] <= limit)
            && (forall id <- b.delivered :: id !in b.givenUp && b.attempts[id] >= 1)
            && (forall id <- b.attempts :: b.attempts[id] <= limit + 1)
            && (forall id <- b.attempts :: id !in b.queued && id !in b.delivered ==> b.attempts[id] == limit + 1)
  {
    if events != [] {
      NoneLostOrOversent(events[..|events| - 1], limit);
      var before := After(events[..|events| - 1], limit);
      match events[|events| - 1]
      case Notified(id) =>
      case RunWith(ok) => RunKeepsBooks(before, ok, limit);
    }
  }

  /** A notification whose every sending fails is gone after `limit + 1` runs, not earlier. */
  lemma {:induction false} FailingRuns(b: Books, id: string, limit: nat, k: nat)
    requires Inv(b, limit) && id in b.queued && b.queued[id] == 0
    ensures var b' := Failed(b, limit, k);
            && Inv(b', limit)
            && (k <= limit ==> id in b'.queued && b'.queued[id] == k)
            && (k > limit ==> id in b'.givenUp)
  {
    if k > 0 {
      FailingRuns(b, id, limit, k - 1);
      RunKeepsBooks(Failed(b, limit, k - 1), false, limit);
    }
  }

  function Failed(b: Books, limit: nat, k: nat): Books {
    if k == 0 then b else AfterRun(Failed(b, limit, k - 1), false, limit)
  }

  // ---------- the queue ----------

  /** The list holds exactly the notifications of the map, each once, with its tries. */
  predicate Represents(s: seq<Notification>, m: map<string, nat>) {
    if s == [] then m == map[]
    else s[0].id in m && m[s[0].id] == s[0].tries && Represents(s[1..], m - {s[0].id})
  }

  lemma {:induction false} RepresentsAppend(s: seq<Notification>, m: map<string, nat>, n: Notification)
    requires Represents(s, m) && n.id !in m
    ensures Represents(s + [n], m[n.id := n.tries])
  {
    if s == [] {
      assert [n][1..] == [] && map[n.id := n.tries] - {n.id} == map[];
      assert s + [n] == [n];
    } else {
      RepresentsAppend(s[1..], m - {s[0].id}, n);
      assert (s + [n])[1..] == s[1..] + [n];
      assert m[n.id := n.tries] - {s[0].id} == (m - {s[0].id})[n.id := n.tries];
    }
  }

  /** What a failed batch puts back: each entry that may be tried again, one try up and due `timeout`
      after the clock's reading for it. */
  function Retries(s: seq<Notification>, limit: nat, timeout: int, clock: nat -> int, reading: nat): seq<Notification> {
    if s == [] then []
    else if s[0].tries + 1 > limit then Retries(s[1..], limit, timeout, clock, reading)
    else [Notification(s[0].id, s[0].tries + 1, clock(reading) + timeout)]
         + Retries(s[1..], limit, timeout, clock, reading + 1)
  }

  lemma {:induction false} RetriesRepresentRetried(
      s: seq<Notification>, m: map<string, nat>, limit: nat, timeout: int, clock: nat -> int, reading: nat)
    requires Represents(s, m)
    ensures Represents(Retries(s, limit, timeout, clock, reading), Retried(m, limit))
  {
    if s != [] {
      var id := s[0].id;
      var rest := m - {id};
      if s[0].tries + 1 > limit {
        RetriesRepresentRetried(s[1..], rest, limit, timeout, clock, reading);
        assert Retried(m, limit) == Retried(rest, limit);
      } else {
        RetriesRepresentRetried(s[1..], rest, limit, timeout, clock, reading + 1);
        assert Retried(m, limit) - {id} == Retried(rest, limit);
      }
    }
  }

  /** Each entry put back is one of the batch, one try up, and due the timeout after some reading of the clock. */
  lemma {:induction false} RetriesAreDue(s: seq<Notification>, limit: nat, timeout: int, clock: nat -> int, reading: nat)
    ensures forall n <- Retries(s, limit, timeout, clock, reading) ::
      && 0 < n.tries <= limit
      && (exists m <- s :: m.id == n.id && m.tries == n.tries - 1)
      && exists r: nat :: r >= reading && n.sendAt == clock(r) + timeout
  {
    if s != [] {
      assert forall m <- s[1..] :: m in s;
      RetriesAreDue(s[1..], limit, timeout, clock, reading);
      RetriesAreDue(s[1..], limit, timeout, clock, reading + 1);
      assert s[0] in s;
    }
  }

  /** The latest `sendAt` in the queue. */
  function Latest(s: seq<Notification>): int {
    if s == [] then 0
    else if |s| == 1 || s[0].sendAt >= Latest(s[1..]) then s[0].sendAt
    else Latest(s[1..])
  }

  lemma {:induction false} LatestFacts(s: seq<Notification>)
    requires s != []
    ensures forall n <- s :: n.sendAt <= Latest(s)
    ensures exists n <- s :: n.sendAt == Latest(s)
  {
    assert s[0] in s;
    if |s| > 1 {
      LatestFacts(s[1..]);
      assert forall n :: n in s <==> n == s[0] || n in s[1..];
    }
  }

  lemma RotationKeepsLatest(s: seq<Notification>)
    requires s != []
    ensures Latest(s[1..] + [s[0]]) == Latest(s)
  {
    var t := s[1..] + [s[0]];
    assert forall n :: n in s <==> n in t by {
      assert s == [s[0]] + s[1..];
    }
    LatestFacts(s);
    LatestFacts(t);
  }

  /** Every reading of the clock is later than the one before. */
  ghost predicate Advances(clock: nat -> int) {
    forall i: nat, j: nat :: i < j ==> clock(i) < clock(j)
  }

  /** An entry that is not due goes to the end. */
  lemma RotateStep(s: seq<Notification>, left: map<string, nat>)
    requires s != [] && Represents(s, left)
    ensures Represents(s[1..] + [s[0]], left) && Latest(s[1..] + [s[0]]) == Latest(s)
  {
    var n := s[0];
    RepresentsAppend(s[1..], left - {n.id}, n);
    RotationKeepsLatest(s);
    assert (left - {n.id})[n.id := n.tries] == left;
  }

  /** And the wait for the last one is shorter by the next reading. */
  lemma WaitShrinks(s: seq<Notification>, now: int, now': int)
    requires s != [] && s[0].sendAt > now && now < now'
    ensures Wait(s[1..] + [s[0]], now') < Wait(s, now)
  {
    LatestFacts(s);
    assert s[0] in s;
    RotationKeepsLatest(s);
  }

  /** In the middle of draining: what is left in the queue, and what the batch has taken. */
  ghost predicate Draining(b: Books, limit: nat, queue: seq<Notification>, left: map<string, nat>,
                           batch: seq<Notification>, taken: map<string, nat>) {
    && Inv(b, limit) && Represents(queue, left) && Represents(batch, taken)
    && left.Keys !! taken.Keys && left + taken == b.queued
  }

  /** No queued entry has more tries than the limit. */
  lemma TriesWithin(b: Books, limit: nat, s: seq<Notification>, left: map<string, nat>, taken: map<string, nat>)
    requires Inv(b, limit) && s != [] && Represents(s, left) && left.Keys !! taken.Keys && left + taken == b.queued
    ensures s[0].tries <= limit
  {
    assert s[0].id in left && (left + taken)[s[0].id] == left[s[0].id];
  }

  /** One that is due goes to the batch. */
  lemma TakeStep(s: seq<Notification>, left: map<string, nat>, batch: seq<Notification>, taken: map<string, nat>)
    requires s != [] && Represents(s, left) && Represents(batch, taken) && left.Keys !! taken.Keys
    ensures var n := s[0];
            var left', taken' := left - {n.id}, taken[n.id := n.tries];
            && Represents(s[1..], left') && Represents(batch + [n], taken')
            && left'.Keys !! taken'.Keys && left' + taken' == left + taken
  {
    RepresentsAppend(batch, taken, s[0]);
  }

  /** All of them are due. */
  ghost predicate DueBy(s: seq<Notification>, now: int) {
    forall n <- s :: n.sendAt <= now
  }

  lemma DueLater(s: seq<Notification>, clock: nat -> int, reading: nat)
    requires Advances(clock) && (s != [] ==> reading > 0 && DueBy(s, clock(reading - 1)))
    ensures DueBy(s, clock(reading))
  {}

  function Wait(s: seq<Notification>, now: int): nat {
    if s == [] || Latest(s) < now then 0 else Latest(s) - now
  }

  class NotificationQueue {
    const limit: nat
    const timeout: int
    const clock: nat -> int
    var queue: seq<Notification>
    var readings: nat
    ghost var books: Books

    ghost predicate Valid()
      reads this
    {
      Inv(books, limit) && Represents(queue, books.queued)
    }

    constructor (limit: nat, timeout: int, clock: nat -> int)
      ensures Valid() && books == NO_BOOKS
      ensures this.limit == limit && this.timeout == timeout && this.clock == clock
    {
      this.limit, this.timeout, this.clock := limit, timeout, clock;
      queue, readings, books := [], 0, NO_BOOKS;
    }

    method Notify(id: string, sendAt: int)
      requires Valid() && id !in books.attempts
      modifies this
      ensures Valid() && books == AfterNotify(old(books), id)
      ensures queue == old(queue) + [Notification(id, 0, sendAt)]
    {
      RepresentsAppend(queue, books.queued, Notification(id, 0, sendAt));
      queue := queue + [Notification(id, 0, sendAt)];
      books := AfterNotify(books, id);
    }

    /** The draining loop. Entries that are not due go back into the queue the loop is reading, so the
        loop goes on until each of them is due; it ends because the clock moves on, and it leaves the
        queue empty with every entry in the batch. */
    method Drain() returns (batch: seq<Notification>)
      requires Valid() && Advances(clock)
      modifies this`queue, this`readings
      ensures queue == [] && Represents(batch, books.queued)
      ensures batch != [] ==> readings > 0 && forall n <- batch :: n.sendAt <= clock(readings - 1)
    {
      batch := [];
      ghost var left: map<string, nat>, taken: map<string, nat> := books.queued, map[];
      assert left + taken == books.queued;
      while queue != []
        invariant Draining(books, limit, queue, left, batch, taken)
        invariant batch != [] ==> readings > 0 && DueBy(batch, clock(readings - 1))
        decreases |queue|, Wait(queue, clock(readings))
      {
        batch, left, taken := TakeNext(batch, left, taken);
      }
      assert taken == books.queued;
    }

    /** The entry at the head: dropped, put at the end, or taken into the batch. */
    method TakeNext(batch0: seq<Notification>, ghost left0: map<string, nat>, ghost taken0: map<string, nat>)
      returns (batch: seq<Notification>, ghost left: map<string, nat>, ghost taken: map<string, nat>)
      requires Draining(books, limit, queue, left0, batch0, taken0) && queue != [] && Advances(clock)
      requires batch0 != [] ==> readings > 0 && DueBy(batch0, clock(readings - 1))
      modifies this`queue, this`readings
      ensures Draining(books, limit, queue, left, batch, taken)
      ensures batch != [] ==> readings > 0 && DueBy(batch, clock(readings - 1))
      ensures || |queue| < |old(queue)|
              || (|queue| == |old(queue)| && Wait(queue, clock(readings)) < Wait(old(queue), clock(old(readings))))
    {
      batch, left, taken := batch0, left0, taken0;
      var n := queue[0];
      TriesWithin(books, limit, queue, left, taken);
      DueLater(batch, clock, readings);
      RotateStep(queue, left);
      TakeStep(queue, left, batch, taken);
      queue := queue[1..];
      if n.tries > limit {
        return;
      }
      var now := clock(readings);
      readings := readings + 1;
      if n.sendAt > now {
        WaitShrinks(old(queue), now, clock(readings));
        queue := queue + [n];
        return;
      }
      batch := batch + [n];
      left, taken := left - {n.id}, taken[n.id := n.tries];
    }

    /** One run of the job, with the verdict of the webhooks. */
    method SendNotifications(ok: bool)
      requires Valid() && Advances(clock)
      modifies this
      ensures Valid() && books == AfterRun(old(books), ok, limit)
    {
      var batch := Drain();
      RunKeepsBooks(books, ok, limit);
      EmptyRunChangesNothing(books, ok, limit);
      if batch != [] {
        Settle(batch, ok);
      }
    }

    method Settle(batch: seq<Notification>, ok: bool)
      requires Represents(batch, books.queued) && queue == []
      modifies this
      ensures Represents(queue, books.queued) && books == AfterRun(old(books), ok, limit)
    {
      if !ok {
        RetriesRepresentRetried(batch, books.queued, limit, timeout, clock, readings);
        ghost var again := Retries(batch, limit, timeout, clock, readings);
        PutBack(batch);
        assert queue == again;
      }
      books := AfterRun(books, ok, limit);
    }

    /** The retry loop over a failed batch. */
    method PutBack(batch: seq<Notification>)
      modifies this`queue, this`readings
      ensures queue == old(queue) + Retries(batch, limit, timeout, clock, old(readings))
    {
      for i := 0 to |batch|
        invariant queue + Retries(batch[i..], limit, timeout, clock, readings)
                  == old(queue) + Retries(batch, limit, timeout, clock, old(readings))
      {
        var n := batch[i];
        assert batch[i..][0] == n && batch[i..][1..] == batch[i + 1..];
        if n.tries + 1 > limit {
          continue;
        }
        queue := queue + [n.(tries := n.tries + 1, sendAt := clock(readings) + timeout)];
        readings := readings + 1;
      }
      assert batch[|batch|..] == [];
    }
  }
}
