/** The service host map: every enabled host grouped by service and inbound tag, sorted, and cached
    until it is invalidated or too old. */
module HostMap {
  import opened Prelude

  /** A host row with the ids of its linked services. `name` stands for the columns copied as they are. */
  datatype Host = Host(id: nat, inboundTag: string, sort: Option<int>, isDisabled: bool, links: seq<nat>, name: string)

  /** Key `None` is the map for users without a service. */
  type HostCache = map<Option<nat>, map<string, seq<Host>>>

  const HOSTS_CACHE_TTL := 900
  const MAX_RETRIES: nat := 3

  /** A snapshot of the host table: ids are unique, and so are the links of a host. */
  predicate TableRows(rows: seq<Host>) {
    && (forall i, j :: 0 <= i < j < |rows| ==> rows[i].id != rows[j].id)
    && (forall h <- rows :: Distinct(h.links))
  }

  // ---------- the direct query ----------

  predicate Serves(h: Host, service: Option<nat>, tag: string) {
    !h.isDisabled && h.inboundTag == tag && (service.None? || service.value in h.links)
  }

  function SortKey(h: Host): int {
    h.sort.GetOr(0)
  }

  /** Order by (sort, id). */
  predicate Precedes(a: Host, b: Host) {
    SortKey(a) < SortKey(b) || (SortKey(a) == SortKey(b) && a.id < b.id)
  }

  predicate StrictlyOrdered(s: seq<Host>) {
    forall i, j :: 0 <= i < j < |s| ==> Precedes(s[i], s[j])
  }

  /** What the query `enabled hosts of this tag linked to this service, by (sort, id)` returns. */
  ghost predicate IsQueryResult(rows: seq<Host>, service: Option<nat>, tag: string, result: seq<Host>) {
    && StrictlyOrdered(result)
    && (forall h :: h in result <==> h in rows && Serves(h, service, tag))
  }

  /** The query has one answer: an ordered list without repetition is determined by its members. */
  lemma {:induction false} OrderedListIsUnique(a: seq<Host>, b: seq<Host>)
    requires StrictlyOrdered(a) && StrictlyOrdered(b)
    requires forall h :: h in a <==> h in b
    ensures a == b
  {
    assert a != [] ==> a[0] in b;
    assert b != [] ==> b[0] in a;
    if a != [] {
      var i :| 0 <= i < |b| && b[i] == a[0];
      var j :| 0 <= j < |a| && a[j] == b[0];
      assert a[0] == b[0];
      forall h ensures h in a[1..] <==> h in b[1..] {
        TailMembers(a, h);
        TailMembers(b, h);
      }
      OrderedListIsUnique(a[1..], b[1..]);
      assert a == [a[0]] + a[1..] && b == [b[0]] + b[1..];
    }
  }

  lemma TailMembers(s: seq<Host>, h: Host)
    requires s != [] && StrictlyOrdered(s)
    ensures h in s[1..] <==> h in s && h != s[0]
  {
    if h in s && h != s[0] {
      var i :| 0 <= i < |s| && s[i] == h;
      assert s[1..][i - 1] == h;
    }
    if h in s[1..] {
      var i :| 0 <= i < |s[1..]| && s[1..][i] == h;
      assert s[i + 1] == h;
    }
  }

  // ---------- grouping and sorting ----------

  /** The rows that end up in one list, in row order. */
  function Grouped(rows: seq<Host>, service: Option<nat>, tag: string): seq<Host> {
    if rows == [] then []
    else
      var init, h := Grouped(rows[..|rows| - 1], service, tag), rows[|rows| - 1];
      if Serves(h, service, tag) then init + [h] else init
  }

  /** Stable insertion: after everything that does not come later. */
  function Insert(h: Host, s: seq<Host>): seq<Host> {
    if s == [] || Precedes(h, s[0]) then [h] + s else [s[0]] + Insert(h, s[1..])
  }

  function Sorted(s: seq<Host>): seq<Host> {
    if s == [] then [] else Insert(s[|s| - 1], Sorted(s[..|s| - 1]))
  }

  lemma {:induction false} InsertFacts(h: Host, s: seq<Host>)
    requires StrictlyOrdered(s) && forall x <- s :: x.id != h.id
    ensures StrictlyOrdered(Insert(h, s))
    ensures forall x :: x in Insert(h, s) <==> x == h || x in s
  {
    if s != [] && !Precedes(h, s[0]) {
      assert s[0] in s;
      assert forall x <- s[1..] :: x in s;
      InsertFacts(h, s[1..]);
      var rest := Insert(h, s[1..]);
      forall j | 0 <= j < |rest| ensures Precedes(s[0], rest[j]) {
        assert rest[j] in rest;
        if rest[j] != h {
          var k :| 0 <= k < |s[1..]| && s[1..][k] == rest[j];
          assert s[k + 1] == rest[j];
        }
      }
      assert forall x :: x in s <==> x == s[0] || x in s[1..];
    }
  }

  lemma {:induction false} SortedFacts(s: seq<Host>)
    requires forall i, j :: 0 <= i < j < |s| ==> s[i].id != s[j].id
    ensures StrictlyOrdered(Sorted(s))
    ensures forall x :: x in Sorted(s) <==> x in s
  {
    if s != [] {
      var init, h := s[..|s| - 1], s[|s| - 1];
      SortedFacts(init);
      forall x | x in Sorted(init) ensures x.id != h.id {
        var k :| 0 <= k < |init| && init[k] == x;
        assert s[k] == x;
      }
      InsertFacts(h, Sorted(init));
      assert s == init + [h];
    }
  }

  lemma {:induction false} GroupedFacts(rows: seq<Host>, service: Option<nat>, tag: string)
    requires TableRows(rows)
    ensures var g := Grouped(rows, service, tag);
            && (forall h :: h in g <==> h in rows && Serves(h, service, tag))
            && (forall i, j :: 0 <= i < j < |g| ==> g[i].id != g[j].id)
  {
    if rows != [] {
      var init, h := rows[..|rows| - 1], rows[|rows| - 1];
      assert rows == init + [h];
      assert forall x <- init :: x in rows;
      GroupedFacts(init, service, tag);
      var g := Grouped(init, service, tag);
      forall i | 0 <= i < |g| ensures g[i].id != h.id {
        assert g[i] in g;
        var k :| 0 <= k < |init| && init[k] == g[i];
        assert rows[k] == g[i];
      }
    }
  }

  /** The list the cache holds for a service and a tag. */
  function HostList(rows: seq<Host>, service: Option<nat>, tag: string): seq<Host> {
    Sorted(Grouped(rows, service, tag))
  }

  /** Grouping while scanning and sorting afterwards answers the direct query. */
  lemma HostListIsQueryResult(rows: seq<Host>, service: Option<nat>, tag: string)
    requires TableRows(rows)
    ensures IsQueryResult(rows, service, tag, HostList(rows, service, tag))
  {
    GroupedFacts(rows, service, tag);
    SortedFacts(Grouped(rows, service, tag));
  }

  /** The same in the columns: the enabled hosts of the tag that are linked to the service, or all of them without
      one, in the order of `sort`, null as 0, and then of their ids. */
  lemma HostListColumns(rows: seq<Host>, service: Option<nat>, tag: string)
    requires TableRows(rows)
    ensures var list := HostList(rows, service, tag);
      && (forall h :: h in list <==>
            h in rows && !h.isDisabled && h.inboundTag == tag && (service.Some? ==> service.value in h.links))
      && forall i, j :: 0 <= i < j < |list| ==>
           var a, b := if list[i].sort.Some? then list[i].sort.value else 0, if list[j].sort.Some? then list[j].sort.value else 0;
           a < b || (a == b && list[i].id < list[j].id)
  {
    HostListIsQueryResult(rows, service, tag);
  }

  /** The order in which the rows come in does not matter. */
  lemma RowOrderDoesNotMatter(rows: seq<Host>, rows': seq<Host>, service: Option<nat>, tag: string)
    requires TableRows(rows) && multiset(rows) == multiset(rows')
    ensures HostList(rows, service, tag) == HostList(rows', service, tag)
  {
    assert TableRows(rows') by {
      forall h | h in rows' ensures Distinct(h.links) {
        assert h in multiset(rows');
        assert h in rows;
      }
      PermutedIds(rows, rows');
    }
    HostListIsQueryResult(rows, service, tag);
    HostListIsQueryResult(rows', service, tag);
    forall h ensures h in HostList(rows, service, tag) <==> h in HostList(rows', service, tag) {
      assert h in rows <==> h in multiset(rows);
      assert h in rows' <==> h in multiset(rows');
    }
    OrderedListIsUnique(HostList(rows, service, tag), HostList(rows', service, tag));
  }

  lemma {:induction false} CountedOnce(rows: seq<Host>, h: Host)
    requires forall i, j :: 0 <= i < j < |rows| ==> rows[i] != rows[j]
    ensures multiset(rows)[h] <= 1
  {
    if rows != [] {
      var init, last := rows[..|rows| - 1], rows[|rows| - 1];
      CountedOnce(init, h);
      assert rows == init + [last];
      assert last !in init;
    }
  }

  lemma CountedTwice(rows: seq<Host>, i: nat, j: nat)
    requires i < j < |rows| && rows[i] == rows[j]
    ensures multiset(rows)[rows[i]] >= 2
  {
    assert rows == rows[..j] + [rows[j]] + rows[j + 1..];
    assert rows[..j][i] == rows[i];
    assert rows[i] in multiset(rows[..j]);
  }

  lemma PermutedIds(rows: seq<Host>, rows': seq<Host>)
    requires TableRows(rows) && multiset(rows) == multiset(rows')
    ensures forall i, j :: 0 <= i < j < |rows'| ==> rows'[i].id != rows'[j].id
  {
    forall i, j | 0 <= i < j < |rows'| ensures rows'[i].id != rows'[j].id {
      if rows'[i] == rows'[j] {
        CountedTwice(rows', i, j);
        CountedOnce(rows, rows'[i]);
      } else {
        assert rows'[i] in multiset(rows') && rows'[j] in multiset(rows');
        assert rows'[i] in rows && rows'[j] in rows;
      }
    }
  }

  // ---------- the cache ----------

  function Lookup(cache: HostCache, service: Option<nat>, tag: string): seq<Host> {
    if service in cache && tag in cache[service] then cache[service][tag] else []
  }

  /** The cache holds exactly what a direct query of these rows would answer. */
  ghost predicate Agrees(cache: HostCache, rows: seq<Host>, tags: set<string>) {
    && None in cache
    && forall service: Option<nat>, tag: string :: tag in tags ==>
         Lookup(cache, service, tag) == HostList(rows, service, tag)
  }

  datatype Fault = NoFault | LockTimeout | OtherFault

  /** The query behind a rebuild succeeds within its three attempts. */
  predicate Answers(faults: nat -> Fault, from: nat)
    decreases MAX_RETRIES - from
  {
    from < MAX_RETRIES && (faults(from).NoFault? || (faults(from).LockTimeout? && Answers(faults, from + 1)))
  }

  /** That is, one of the first three attempts is answered, and each before it fails for a lock. */
  lemma AnswersIff(faults: nat -> Fault)
    ensures Answers(faults, 0) <==>
      || faults(0) == NoFault
      || (faults(0) == LockTimeout && faults(1) == NoFault)
      || (faults(0) == LockTimeout && faults(1) == LockTimeout && faults(2) == NoFault)
  {
    assert Answers(faults, 2) == (faults(2).NoFault? || (faults(2).LockTimeout? && Answers(faults, 3)));
  }

  /** `h` has been appended to its list of each of the given services. */
  ghost predicate Extended(before: HostCache, after: HostCache, tags: set<string>, h: Host, done: seq<Option<nat>>) {
    forall s: Option<nat>, t: string :: t in tags ==>
      Lookup(after, s, t) == Lookup(before, s, t) + (if t == h.inboundTag && s in done then [h] else [])
  }

  lemma ExtendedByOne(start: HostCache, before: HostCache, after: HostCache, tags: set<string>, h: Host,
                      done: seq<Option<nat>>, target: Option<nat>)
    requires Extended(start, before, tags, h, done) && Extended(before, after, tags, h, [target]) && target !in done
    ensures Extended(start, after, tags, h, done + [target])
  {
    forall s: Option<nat>, t: string | t in tags
      ensures Lookup(after, s, t) == Lookup(start, s, t) + (if t == h.inboundTag && s in done + [target] then [h] else [])
    {
      assert Lookup(before, s, t) == Lookup(start, s, t) + (if t == h.inboundTag && s in done then [h] else []);
      assert Lookup(after, s, t) == Lookup(before, s, t) + (if t == h.inboundTag && s == target then [h] else []);
    }
  }

  class HostMapCache {
    var tags: set<string>
    var cache: HostCache
    var builtAt: Option<int>

    constructor (tags: set<string>)
      ensures this.tags == tags && cache == map[] && builtAt == None
    {
      this.tags, cache, builtAt := tags, map[], None;
    }

    /** `rebuild_service_hosts_cache`. `reloaded` is what a config reload would yield when no tag is
        configured. On failure the old cache stays. */
    method Rebuild(rows: seq<Host>, faults: nat -> Fault, reloaded: Option<set<string>>, now: int) returns (ok: bool)
      requires TableRows(rows)
      modifies this
      ensures ok == Answers(faults, 0)
      ensures ok ==> Agrees(cache, rows, tags) && builtAt == Some(now)
      ensures !ok ==> cache == old(cache) && builtAt == old(builtAt)
      ensures tags == if old(tags) == {} then reloaded.GetOr({}) else old(tags)
    {
      if tags == {} && reloaded.Some? {
        tags := reloaded.value;
      }
      var attempt := 0;
      while true
        invariant cache == old(cache) && builtAt == old(builtAt) && 0 <= attempt < MAX_RETRIES
        invariant tags == if old(tags) == {} then reloaded.GetOr({}) else old(tags)
        invariant Answers(faults, 0) == Answers(faults, attempt)
        decreases MAX_RETRIES - attempt
      {
        var fault := faults(attempt);
        if fault.NoFault? {
          break;
        }
        if fault.OtherFault? || attempt == MAX_RETRIES - 1 {
          assert !Answers(faults, attempt);
          return false;
        }
        attempt := attempt + 1;
      }
      var built := Fill(rows);
      cache := SortLists(built);
      builtAt := Some(now);
      return true;
    }

    /** The grouping loops: every enabled host goes to each linked service and to `None`. */
    method Fill(rows: seq<Host>) returns (built: HostCache)
      requires TableRows(rows)
      ensures WellKeyed(built, tags) && None in built
      ensures forall s: Option<nat>, t: string :: t in tags ==> Lookup(built, s, t) == Grouped(rows, s, t)
    {
      built := map[None := EmptyHostMap(tags)];
      for i := 0 to |rows|
        invariant WellKeyed(built, tags) && None in built
        invariant forall s: Option<nat>, t: string :: t in tags ==> Lookup(built, s, t) == Grouped(rows[..i], s, t)
      {
        var h := rows[i];
        assert h in rows && rows[..i + 1][..i] == rows[..i];
        if !h.isDisabled && h.inboundTag in tags {
          built := AddHost(built, h);
        }
      }
      assert rows[..|rows|] == rows;
    }

    method AddHost(built0: HostCache, h: Host) returns (built: HostCache)
      requires WellKeyed(built0, tags) && None in built0
      requires !h.isDisabled && h.inboundTag in tags && Distinct(h.links)
      ensures WellKeyed(built, tags) && None in built
      ensures forall s: Option<nat>, t: string :: t in tags ==>
                Lookup(built, s, t) == Lookup(built0, s, t) + (if Serves(h, s, t) then [h] else [])
    {
      built := built0;
      var targets := Targets(h);
      for j := 0 to |targets|
        invariant WellKeyed(built, tags) && None in built
        invariant Extended(built0, built, tags, h, targets[..j])
      {
        assert targets[..j + 1] == targets[..j] + [targets[j]];
        ghost var before := built;
        built := Append(built, targets[j], h);
        ExtendedByOne(built0, before, built, tags, h, targets[..j], targets[j]);
      }
      assert targets[..|targets|] == targets;
    }

    /** The host at the end of one service's list for its tag. */
    method Append(built0: HostCache, target: Option<nat>, h: Host) returns (built: HostCache)
      requires WellKeyed(built0, tags) && None in built0 && h.inboundTag in tags
      ensures WellKeyed(built, tags) && None in built && Extended(built0, built, tags, h, [target])
    {
      var hostMap := GetDefault(built0, target, EmptyHostMap(tags));
      built := built0[target := hostMap[h.inboundTag := hostMap[h.inboundTag] + [h]]];
    }

    /** The sorting loops, one list at a time. */
    method SortLists(built: HostCache) returns (sorted: HostCache)
      requires WellKeyed(built, tags) && None in built
      ensures None in sorted
      ensures forall s: Option<nat>, t: string :: t in tags ==> Lookup(sorted, s, t) == Sorted(Lookup(built, s, t))
    {
      sorted := built;
      var services := built.Keys;
      while services != {}
        invariant services <= built.Keys && sorted.Keys == built.Keys && WellKeyed(sorted, tags)
        invariant SortedBut(built, sorted, tags, services)
        decreases services
      {
        var service :| service in services;
        var hostMap := SortHostMap(sorted[service]);
        SortedButOne(built, sorted, tags, services, service, hostMap);
        sorted := sorted[service := hostMap];
        services := services - {service};
      }
    }

    method SortHostMap(hostMap: map<string, seq<Host>>) returns (sorted: map<string, seq<Host>>)
      requires hostMap.Keys == tags
      ensures sorted.Keys == tags && forall t <- tags :: sorted[t] == Sorted(hostMap[t])
    {
      sorted := hostMap;
      var left := tags;
      while left != {}
        invariant left <= tags && sorted.Keys == tags
        invariant forall t <- tags :: sorted[t] == if t in left then hostMap[t] else Sorted(hostMap[t])
        decreases left
      {
        var t :| t in left;
        sorted := sorted[t := Sorted(sorted[t])];
        left := left - {t};
      }
    }

    /** `get_service_host_map`: rebuild when asked to, when nothing is cached or when the cache is too
        old, then hand out the lists of every configured tag. */
    method GetServiceHostMap(service: Option<nat>, force: bool, rows: seq<Host>, faults: nat -> Fault,
                             reloaded: Option<set<string>>, now: int)
      returns (result: Option<map<string, seq<Host>>>)
      requires TableRows(rows)
      modifies this
      ensures var rebuilds := force || old(cache) == map[] || old(builtAt).None?
                              || now - old(builtAt).value > 900;
              && (result.None? <==> rebuilds && !Answers(faults, 0))
              && (rebuilds && result.Some? ==> Agrees(cache, rows, tags) && builtAt == Some(now))
              && (!rebuilds ==> builtAt == old(builtAt) && tags == old(tags)
                                && forall s: Option<nat>, t: string :: Lookup(cache, s, t) == Lookup(old(cache), s, t))
      ensures result.Some? ==>
                result.value.Keys == tags && forall t <- tags :: result.value[t] == Lookup(cache, service, t)
    {
      if force || cache == map[] || builtAt.None? || now - builtAt.value > HOSTS_CACHE_TTL {
        var ok := Rebuild(rows, faults, reloaded, now);
        if !ok {
          return None;
        }
      }
      PaddedLooksTheSame(cache, service, tags);
      cache := Padded(cache, service, tags);
      return Some(map t | t in tags :: Lookup(cache, service, t));
    }

    method Invalidate()
      modifies this`cache, this`builtAt
      ensures cache == map[] && builtAt == None
    {
      cache, builtAt := map[], None;
    }

    /** After an invalidation the next read answers the direct query on the table as it is then, for
        every service and every configured tag, linked or not. */
    method ReadAfterInvalidate(service: Option<nat>, rows: seq<Host>, faults: nat -> Fault,
                               reloaded: Option<set<string>>, now: int)
      returns (result: Option<map<string, seq<Host>>>)
      requires TableRows(rows)
      modifies this
      ensures result.Some? <==> Answers(faults, 0)
      ensures result.Some? ==>
                result.value.Keys == tags && forall t <- tags :: IsQueryResult(rows, service, t, result.value[t])
    {
      Invalidate();
      result := GetServiceHostMap(service, false, rows, faults, reloaded, now);
      if result.Some? {
        forall t | t in tags ensures IsQueryResult(rows, service, t, result.value[t]) {
          HostListIsQueryResult(rows, service, t);
        }
      }
    }
  }

  /** `setdefault(tag, [])` for every configured tag of one service. */
  function Padded(cache: HostCache, service: Option<nat>, tags: set<string>): HostCache {
    if service !in cache then cache
    else cache[service := (map t | t in tags + cache[service].Keys :: GetDefault(cache[service], t, []))]
  }

  lemma PaddedLooksTheSame(cache: HostCache, service: Option<nat>, tags: set<string>)
    ensures forall s: Option<nat>, t: string :: Lookup(Padded(cache, service, tags), s, t) == Lookup(cache, s, t)
  {}

  /** The lists of all services but the given ones are sorted; theirs are as they were. */
  ghost predicate SortedBut(built: HostCache, sorted: HostCache, tags: set<string>, services: set<Option<nat>>) {
    forall s: Option<nat>, t: string :: t in tags ==>
      Lookup(sorted, s, t) == if s in services then Lookup(built, s, t) else Sorted(Lookup(built, s, t))
  }

  lemma SortedButOne(built: HostCache, sorted: HostCache, tags: set<string>, services: set<Option<nat>>,
                     service: Option<nat>, hostMap: map<string, seq<Host>>)
    requires SortedBut(built, sorted, tags, services) && service in services && service in sorted
    requires sorted[service].Keys == tags && hostMap.Keys == tags
    requires forall t <- tags :: hostMap[t] == Sorted(sorted[service][t])
    ensures SortedBut(built, sorted[service := hostMap], tags, services - {service})
  {
    forall s: Option<nat>, t: string | t in tags
      ensures Lookup(sorted[service := hostMap], s, t)
           == if s in services - {service} then Lookup(built, s, t) else Sorted(Lookup(built, s, t))
    {
      assert Lookup(sorted, s, t) == if s in services then Lookup(built, s, t) else Sorted(Lookup(built, s, t));
    }
  }

  function EmptyHostMap(tags: set<string>): map<string, seq<Host>> {
    map t | t in tags :: []
  }

  predicate WellKeyed(cache: HostCache, tags: set<string>) {
    forall s <- cache :: cache[s].Keys == tags
  }

  /** The services a host is listed under. */
  function Targets(h: Host): (targets: seq<Option<nat>>)
    requires Distinct(h.links)
    ensures Distinct(targets)
    ensures forall s :: s in targets <==> s.None? || s.value in h.links
  {
    var targets := seq(|h.links|, i requires 0 <= i < |h.links| => Some(h.links[i])) + [None];
    assert forall i :: 0 <= i < |h.links| ==> targets[i] == Some(h.links[i]);
    assert targets[|h.links|] == None && |targets| == |h.links| + 1;
    assert forall s :: s in targets ==> exists i :: 0 <= i < |targets| && targets[i] == s;
    assert forall l :: l in h.links ==> exists i :: 0 <= i < |h.links| && h.links[i] == l && targets[i] == Some(l);
    targets
  }
}
