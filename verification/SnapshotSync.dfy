/** Hourly usage: popped snapshots are grouped by row key, summed, and written with one update or
    insert per group. The reference is the plain upsert of one snapshot at a time. */
module SnapshotSync {
  import opened Prelude
  import opened RedisLists

  /** The counters of a row: uplink and downlink of a node, or a user's `used_traffic` and 0. */
  datatype Traffic = Traffic(first: int, second: int) {
    function Plus(t: Traffic): Traffic {
      Traffic(first + t.first, second + t.second)
    }
  }

  /** One table row, or one keyed amount on its way into the table. */
  datatype Row<K> = Row(key: K, traffic: Traffic)

  /** Index of the first row with this key, as `query.filter(...).first()` finds it, or the length. */
  function Find<K(==)>(t: seq<Row<K>>, k: K): (i: nat)
    ensures i <= |t|
    ensures i < |t| ==> t[i].key == k
    ensures forall j :: 0 <= j < i ==> t[j].key != k
  {
    if t == [] || t[0].key == k then 0 else 1 + Find(t[1..], k)
  }

  predicate HasKey<K(==)>(t: seq<Row<K>>, k: K) {
    Find(t, k) < |t|
  }

  function Amount<K(==)>(t: seq<Row<K>>, k: K): Traffic {
    if HasKey(t, k) then t[Find(t, k)].traffic else Traffic(0, 0)
  }

  predicate Unique<K(==)>(t: seq<Row<K>>) {
    forall i, j :: 0 <= i < j < |t| ==> t[i].key != t[j].key
  }

  /** The reference: add one amount to its row, or insert the row. */
  function Upsert<K(==)>(t: seq<Row<K>>, r: Row<K>): seq<Row<K>> {
    var i := Find(t, r.key);
    if i < |t| then t[i := Row(r.key, t[i].traffic.Plus(r.traffic))] else t + [r]
  }

  function UpsertAll<K(==)>(t: seq<Row<K>>, items: seq<Row<K>>): seq<Row<K>> {
    if items == [] then t
    else Upsert(UpsertAll(t, items[..|items| - 1]), items[|items| - 1])
  }

  /** What one item adds to a key. */
  function Share<K(==)>(r: Row<K>, k: K): Traffic {
    if r.key == k then r.traffic else Traffic(0, 0)
  }

  function FirstShare<K(==)>(k: K): Row<K> -> int {
    (r: Row<K>) => Share(r, k).first
  }

  function SecondShare<K(==)>(k: K): Row<K> -> int {
    (r: Row<K>) => Share(r, k).second
  }

  function SumFirst<K(==)>(items: seq<Row<K>>, k: K): int {
    SumBy(items, FirstShare(k))
  }

  function SumSecond<K(==)>(items: seq<Row<K>>, k: K): int {
    SumBy(items, SecondShare(k))
  }

  /** Everything the items add to one key. */
  function SumFor<K(==)>(items: seq<Row<K>>, k: K): Traffic {
    Traffic(SumFirst(items, k), SumSecond(items, k))
  }

  lemma SumsAppend<K>(a: seq<Row<K>>, b: seq<Row<K>>, k: K)
    ensures SumFirst(a + b, k) == SumFirst(a, k) + SumFirst(b, k)
    ensures SumSecond(a + b, k) == SumSecond(a, k) + SumSecond(b, k)
  {
    SumByAppend(a, b, FirstShare(k));
    SumByAppend(a, b, SecondShare(k));
  }

  lemma SumsOfOne<K>(r: Row<K>, k: K)
    ensures SumFirst([r], k) == Share(r, k).first && SumSecond([r], k) == Share(r, k).second
  {
    assert [r][1..] == [];
    assert SumBy([r], FirstShare(k)) == FirstShare(k)(r) + SumBy([r][1..], FirstShare(k));
    assert SumBy([r], SecondShare(k)) == SecondShare(k)(r) + SumBy([r][1..], SecondShare(k));
  }

  lemma SumsOneMore<K>(items: seq<Row<K>>, k: K)
    requires items != []
    ensures var init, last := items[..|items| - 1], items[|items| - 1];
            && SumFirst(items, k) == SumFirst(init, k) + Share(last, k).first
            && SumSecond(items, k) == SumSecond(init, k) + Share(last, k).second
  {
    var init, last := items[..|items| - 1], items[|items| - 1];
    SumsAppend(init, [last], k);
    SumsOfOne(last, k);
    assert items == init + [last];
  }

  lemma FindIsFirst<K>(t: seq<Row<K>>, k: K, i: nat)
    requires i <= |t|
    requires i < |t| ==> t[i].key == k
    requires forall j :: 0 <= j < i ==> t[j].key != k
    ensures Find(t, k) == i
  {}

  lemma UpsertSameKey<K>(t: seq<Row<K>>, k: K, a: Traffic, b: Traffic)
    ensures Upsert(Upsert(t, Row(k, a)), Row(k, b)) == Upsert(t, Row(k, a.Plus(b)))
  {
    var i := Find(t, k);
    FindIsFirst(Upsert(t, Row(k, a)), k, i);
  }

  /** Once its row exists, an amount may be added before or after the amounts of other keys. */
  lemma UpsertsCommute<K>(t: seq<Row<K>>, r: Row<K>, s: Row<K>)
    requires HasKey(t, r.key) && r.key != s.key
    ensures Upsert(Upsert(t, s), r) == Upsert(Upsert(t, r), s)
  {
    FindIsFirst(Upsert(t, s), r.key, Find(t, r.key));
    FindIsFirst(Upsert(t, r), s.key, Find(t, s.key));
  }

  lemma UpsertKeeps<K>(t: seq<Row<K>>, r: Row<K>, k: K)
    ensures HasKey(Upsert(t, r), k) <==> HasKey(t, k) || k == r.key
    ensures Amount(Upsert(t, r), k) == if k == r.key then Amount(t, k).Plus(r.traffic) else Amount(t, k)
  {
    var t' := Upsert(t, r);
    if k == r.key {
      FindIsFirst(t', k, Find(t, k));
    } else if HasKey(t, k) {
      FindIsFirst(t', k, Find(t, k));
    } else {
      FindIsFirst(t', k, |t'|);
    }
  }

  lemma {:induction false} UpsertAllAppend<K>(t: seq<Row<K>>, a: seq<Row<K>>, b: seq<Row<K>>)
    ensures UpsertAll(t, a + b) == UpsertAll(UpsertAll(t, a), b)
  {
    if b == [] {
      assert a + b == a;
    } else {
      UpsertAllAppend(t, a, b[..|b| - 1]);
      assert (a + b)[..|a + b| - 1] == a + b[..|b| - 1];
    }
  }

  lemma {:induction false} UpsertPastOthers<K>(t: seq<Row<K>>, others: seq<Row<K>>, r: Row<K>)
    requires HasKey(t, r.key)
    requires forall i :: 0 <= i < |others| ==> others[i].key != r.key
    ensures Upsert(UpsertAll(t, others), r) == UpsertAll(Upsert(t, r), others)
    ensures HasKey(UpsertAll(t, others), r.key)
  {
    if others != [] {
      var init, last := others[..|others| - 1], others[|others| - 1];
      UpsertPastOthers(t, init, r);
      UpsertsCommute(UpsertAll(t, init), r, last);
      UpsertKeeps(UpsertAll(t, init), last, r.key);
    }
  }

  lemma {:induction false} UpsertAllUnique<K>(t: seq<Row<K>>, items: seq<Row<K>>)
    requires Unique(t)
    ensures Unique(UpsertAll(t, items))
  {
    if items != [] {
      UpsertAllUnique(t, items[..|items| - 1]);
    }
  }

  /** Adding to a group and then writing the groups is writing the groups and then adding. */
  lemma GroupThenWrite<K>(t: seq<Row<K>>, groups: seq<Row<K>>, r: Row<K>)
    requires Unique(groups)
    ensures UpsertAll(t, Upsert(groups, r)) == Upsert(UpsertAll(t, groups), r)
  {
    var i := Find(groups, r.key);
    if i == |groups| {
      assert (groups + [r])[..|groups|] == groups;
    } else {
      var before, g, after := groups[..i], groups[i], groups[i + 1..];
      assert groups == before + [g] + after;
      assert Upsert(groups, r) == before + [Row(r.key, g.traffic.Plus(r.traffic))] + after;
      GrownGroup(t, before, g, after, r.traffic);
    }
  }

  /** A group grown before it is written, against one grown after all have been written. */
  lemma GrownGroup<K>(t: seq<Row<K>>, before: seq<Row<K>>, g: Row<K>, after: seq<Row<K>>, more: Traffic)
    requires Unique(before + [g] + after)
    ensures UpsertAll(t, before + [Row(g.key, g.traffic.Plus(more))] + after)
         == Upsert(UpsertAll(t, before + [g] + after), Row(g.key, more))
  {
    var mid, r := UpsertAll(t, before), Row(g.key, more);
    var all := before + [g] + after;
    assert all[|before|] == g && forall j :: 0 <= j < |after| ==> all[|before| + 1 + j] == after[j];
    WriteThreeParts(t, before, g, after);
    WriteThreeParts(t, before, Row(g.key, g.traffic.Plus(more)), after);
    UpsertKeeps(mid, g, g.key);
    UpsertPastOthers(Upsert(mid, g), after, r);
    UpsertSameKey(mid, g.key, g.traffic, more);
  }

  lemma WriteThreeParts<K>(t: seq<Row<K>>, before: seq<Row<K>>, g: Row<K>, after: seq<Row<K>>)
    ensures UpsertAll(t, before + [g] + after) == UpsertAll(Upsert(UpsertAll(t, before), g), after)
  {
    UpsertAllAppend(t, before + [g], after);
    assert (before + [g])[..|before|] == before;
  }

  /** Summing per key first and writing each sum once gives exactly the table of one upsert per
      snapshot: same rows, same order. */
  lemma {:induction false} BatchedEqualsOneByOne<K>(t: seq<Row<K>>, items: seq<Row<K>>)
    ensures UpsertAll(t, UpsertAll([], items)) == UpsertAll(t, items)
  {
    if items != [] {
      var init := items[..|items| - 1];
      BatchedEqualsOneByOne(t, init);
      UpsertAllUnique([], init);
      GroupThenWrite(t, UpsertAll([], init), items[|items| - 1]);
    }
  }

  predicate Mentions<K(==)>(items: seq<Row<K>>, k: K) {
    exists r <- items :: r.key == k
  }

  lemma IsSum(sum: Traffic, a: Traffic, b: Traffic)
    requires sum.first == a.first + b.first && sum.second == a.second + b.second
    ensures sum == a.Plus(b)
  {}

  lemma UpsertAdds<K>(t: seq<Row<K>>, r: Row<K>, k: K)
    ensures Amount(Upsert(t, r), k).first == Amount(t, k).first + Share(r, k).first
    ensures Amount(Upsert(t, r), k).second == Amount(t, k).second + Share(r, k).second
  {
    UpsertKeeps(t, r, k);
  }

  lemma {:induction false} UpsertAllAddsParts<K>(t: seq<Row<K>>, items: seq<Row<K>>, k: K)
    ensures Amount(UpsertAll(t, items), k).first == Amount(t, k).first + SumFirst(items, k)
    ensures Amount(UpsertAll(t, items), k).second == Amount(t, k).second + SumSecond(items, k)
  {
    if items != [] {
      var init, last := items[..|items| - 1], items[|items| - 1];
      UpsertAdds(UpsertAll(t, init), last, k);
      UpsertAllAddsParts(t, init, k);
      SumsOneMore(items, k);
    }
  }

  /** What a key holds afterwards. */
  lemma UpsertAllAdds<K>(t: seq<Row<K>>, items: seq<Row<K>>, k: K)
    ensures Amount(UpsertAll(t, items), k) == Amount(t, k).Plus(SumFor(items, k))
  {
    UpsertAllAddsParts(t, items, k);
    IsSum(Amount(UpsertAll(t, items), k), Amount(t, k), SumFor(items, k));
  }

  /** Which keys have a row afterwards. */
  lemma {:induction false} UpsertAllRows<K>(t: seq<Row<K>>, items: seq<Row<K>>, k: K)
    ensures HasKey(UpsertAll(t, items), k) <==> HasKey(t, k) || Mentions(items, k)
  {
    if items != [] {
      var init, last := items[..|items| - 1], items[|items| - 1];
      UpsertAllRows(t, init, k);
      UpsertKeeps(UpsertAll(t, init), last, k);
      assert Mentions(items, k) <==> Mentions(init, k) || last.key == k by {
        assert items == init + [last];
      }
    }
  }

  lemma SumsWithout<K>(items: seq<Row<K>>, i: nat, k: K)
    requires i < |items|
    ensures var rest := items[..i] + items[i + 1..];
            && SumFirst(items, k) == SumFirst(rest, k) + Share(items[i], k).first
            && SumSecond(items, k) == SumSecond(rest, k) + Share(items[i], k).second
  {
    var before, r, after := items[..i], items[i], items[i + 1..];
    SumsAppend(before + [r], after, k);
    SumsAppend(before, [r], k);
    SumsOfOne(r, k);
    SumsAppend(before, after, k);
    assert items == before + [r] + after;
  }

  lemma FindAndRemove<T>(init: seq<T>, x: T, b: seq<T>) returns (i: nat)
    requires multiset(init + [x]) == multiset(b)
    ensures i < |b| && b[i] == x && multiset(b[..i] + b[i + 1..]) == multiset(init)
  {
    assert x in multiset(b);
    i :| i < |b| && b[i] == x;
    assert b == b[..i] + [x] + b[i + 1..];
    assert multiset(b[..i] + b[i + 1..]) == multiset(b) - multiset{x};
  }

  lemma {:induction false} SumForPermutation<K>(a: seq<Row<K>>, b: seq<Row<K>>, k: K)
    requires multiset(a) == multiset(b)
    ensures SumFor(a, k) == SumFor(b, k)
  {
    if a == [] {
      assert |multiset(b)| == 0;
    } else {
      var init, r := a[..|a| - 1], a[|a| - 1];
      assert a == init + [r];
      var i := FindAndRemove(init, r, b);
      SumForPermutation(init, b[..i] + b[i + 1..], k);
      SumsWithout(b, i, k);
      SumsOneMore(a, k);
    }
  }

  lemma MentionsPermutation<K>(a: seq<Row<K>>, b: seq<Row<K>>, k: K)
    requires multiset(a) == multiset(b) && Mentions(a, k)
    ensures Mentions(b, k)
  {
    var r :| r in a && r.key == k;
    assert r in multiset(b);
  }

  /** The order in which the key scan yields snapshots does not show in what the table says. */
  lemma OrderDoesNotMatter<K>(t: seq<Row<K>>, a: seq<Row<K>>, b: seq<Row<K>>, k: K)
    requires multiset(a) == multiset(b)
    ensures Amount(UpsertAll(t, a), k) == Amount(UpsertAll(t, b), k)
  {
    SumForPermutation(a, b, k);
    var sum := SumFor(a, k);
    assert Amount(UpsertAll(t, a), k) == Amount(t, k).Plus(sum) by { UpsertAllAdds(t, a, k); }
    assert Amount(UpsertAll(t, b), k) == Amount(t, k).Plus(sum) by { UpsertAllAdds(t, b, k); }
  }

  lemma OrderDoesNotMatterForRows<K>(t: seq<Row<K>>, a: seq<Row<K>>, b: seq<Row<K>>, k: K)
    requires multiset(a) == multiset(b)
    ensures HasKey(UpsertAll(t, a), k) <==> HasKey(UpsertAll(t, b), k)
  {
    var has, in_a, in_b := HasKey(t, k), Mentions(a, k), Mentions(b, k);
    assert in_a <==> in_b by {
      if in_a { MentionsPermutation(a, b, k); }
      if in_b { MentionsPermutation(b, a, k); }
    }
    assert HasKey(UpsertAll(t, a), k) <==> has || in_a by { UpsertAllRows(t, a, k); }
    assert HasKey(UpsertAll(t, b), k) <==> has || in_b by { UpsertAllRows(t, b, k); }
  }

  /** The grouping loop: an insertion-ordered dictionary of sums. */
  method GroupByKey<K(==)>(items: seq<Row<K>>) returns (groups: seq<Row<K>>)
    ensures groups == UpsertAll([], items) && Unique(groups)
  {
    groups := [];
    for i := 0 to |items|
      invariant groups == UpsertAll([], items[..i])
    {
      groups := Upsert(groups, items[i]);
      assert items[..i + 1][..i] == items[..i];
    }
    assert items[..|items|] == items;
    UpsertAllUnique([], items);
  }

  /** The row that each group's key already has, fetched before anything is written. */
  method FetchExisting<K(==)>(table: seq<Row<K>>, groups: seq<Row<K>>) returns (existing: map<K, nat>)
    ensures forall k :: k in existing <==> HasKey(table, k) && Mentions(groups, k)
    ensures forall k <- existing :: existing[k] == Find(table, k)
  {
    existing := map[];
    for i := 0 to |groups|
      invariant forall k :: k in existing <==> HasKey(table, k) && Mentions(groups[..i], k)
      invariant forall k <- existing :: existing[k] == Find(table, k)
    {
      var at := Find(table, groups[i].key);
      if at < |table| {
        existing := existing[groups[i].key := at];
      }
      assert groups[..i + 1] == groups[..i] + [groups[i]];
    }
    assert groups[..|groups|] == groups;
  }

  /** Update the fetched rows in place and insert the others. */
  method WriteGroups<K(==)>(table: seq<Row<K>>, groups: seq<Row<K>>, existing: map<K, nat>)
    returns (table': seq<Row<K>>)
    requires Unique(groups)
    requires forall k :: k in existing <==> HasKey(table, k) && Mentions(groups, k)
    requires forall k <- existing :: existing[k] == Find(table, k)
    ensures table' == UpsertAll(table, groups)
  {
    table' := table;
    for i := 0 to |groups|
      invariant table' == UpsertAll(table, groups[..i])
      invariant forall k <- existing :: Find(table', k) == existing[k] < |table'|
    {
      var g := groups[i];
      assert Find(table', g.key) == GetDefault(existing, g.key, |table'|) by {
        assert g in groups;
        UpsertAllRows(table, groups[..i], g.key);
      }
      ghost var next := Upsert(table', g);
      forall k | k in existing ensures Find(next, k) == existing[k] < |next| {
        FindIsFirst(next, k, existing[k]);
      }
      assert groups[..i + 1][..i] == groups[..i];
      if g.key in existing {
        var at := existing[g.key];
        table' := table'[at := Row(g.key, table'[at].traffic.Plus(g.traffic))];
      } else {
        table' := table' + [g];
      }
      assert table' == next;
    }
    assert groups[..|groups|] == groups;
  }

  /** The whole batch for one table. */
  method WriteBatch<K(==)>(table: seq<Row<K>>, items: seq<Row<K>>) returns (table': seq<Row<K>>)
    ensures table' == UpsertAll(table, items)
  {
    var groups := GroupByKey(items);
    var existing := FetchExisting(table, groups);
    table' := WriteGroups(table, groups, existing);
    BatchedEqualsOneByOne(table, items);
  }

  /** A popped user snapshot. A user id of 0 or a missing or empty `created_at` is falsy. */
  datatype UserSnapshot = UserSnapshot(userId: nat, nodeId: Option<nat>, createdAt: Option<string>, usedTraffic: int)
  datatype NodeSnapshot = NodeSnapshot(nodeId: Option<nat>, createdAt: Option<string>, uplink: int, downlink: int)

  datatype UserKey = UserKey(userId: nat, nodeId: Option<nat>, hour: int)
  datatype NodeKey = NodeKey(nodeId: Option<nat>, hour: int)

  /** ISO parsing as an arbitrary partial function; `None` stands for a `ValueError`. */
  type Parser = string -> Option<int>

  function Hour(parse: Parser, createdAt: Option<string>): Option<int> {
    if createdAt == None || createdAt.value == "" then None else parse(createdAt.value)
  }

  /** The row a snapshot asks for; snapshots without a usable key ask for none. */
  function UserRow(parse: Parser, s: UserSnapshot): seq<Row<UserKey>> {
    match Hour(parse, s.createdAt)
    case Some(hour) =>
      if s.userId == 0 then [] else [Row(UserKey(s.userId, s.nodeId, hour), Traffic(s.usedTraffic, 0))]
    case None => []
  }

  function NodeRow(parse: Parser, s: NodeSnapshot): seq<Row<NodeKey>> {
    match Hour(parse, s.createdAt)
    case Some(hour) => [Row(NodeKey(s.nodeId, hour), Traffic(s.uplink, s.downlink))]
    case None => []
  }

  function UserRows(parse: Parser, snapshots: seq<UserSnapshot>): seq<Row<UserKey>> {
    if snapshots == [] then [] else UserRow(parse, snapshots[0]) + UserRows(parse, snapshots[1..])
  }

  function NodeRows(parse: Parser, snapshots: seq<NodeSnapshot>): seq<Row<NodeKey>> {
    if snapshots == [] then [] else NodeRow(parse, snapshots[0]) + NodeRows(parse, snapshots[1..])
  }

  /** What one snapshot contributes to a key, read straight off the snapshot. */
  function UserWeight(parse: Parser, k: UserKey): UserSnapshot -> int {
    (s: UserSnapshot) =>
      if s.userId != 0 && s.userId == k.userId && s.nodeId == k.nodeId
         && s.createdAt.Some? && s.createdAt.value != "" && parse(s.createdAt.value) == Some(k.hour)
      then s.usedTraffic else 0
  }

  function UplinkWeight(parse: Parser, k: NodeKey): NodeSnapshot -> int {
    (s: NodeSnapshot) =>
      if s.nodeId == k.nodeId && s.createdAt.Some? && s.createdAt.value != "" && parse(s.createdAt.value) == Some(k.hour)
      then s.uplink else 0
  }

  function DownlinkWeight(parse: Parser, k: NodeKey): NodeSnapshot -> int {
    (s: NodeSnapshot) =>
      if s.nodeId == k.nodeId && s.createdAt.Some? && s.createdAt.value != "" && parse(s.createdAt.value) == Some(k.hour)
      then s.downlink else 0
  }

  lemma UserRowWeighs(parse: Parser, s: UserSnapshot, k: UserKey)
    ensures SumFirst(UserRow(parse, s), k) == UserWeight(parse, k)(s) && SumSecond(UserRow(parse, s), k) == 0
  {
    if UserRow(parse, s) != [] {
      SumsOfOne(UserRow(parse, s)[0], k);
    }
  }

  lemma NodeRowWeighs(parse: Parser, s: NodeSnapshot, k: NodeKey)
    ensures SumFirst(NodeRow(parse, s), k) == UplinkWeight(parse, k)(s)
    ensures SumSecond(NodeRow(parse, s), k) == DownlinkWeight(parse, k)(s)
  {
    if NodeRow(parse, s) != [] {
      SumsOfOne(NodeRow(parse, s)[0], k);
    }
  }

  lemma {:induction false} UserRowsWeigh(parse: Parser, snapshots: seq<UserSnapshot>, k: UserKey)
    ensures SumFirst(UserRows(parse, snapshots), k) == SumBy(snapshots, UserWeight(parse, k))
    ensures SumSecond(UserRows(parse, snapshots), k) == 0
  {
    if snapshots != [] {
      UserRowsWeigh(parse, snapshots[1..], k);
      UserRowWeighs(parse, snapshots[0], k);
      SumsAppend(UserRow(parse, snapshots[0]), UserRows(parse, snapshots[1..]), k);
    }
  }

  lemma {:induction false} NodeRowsWeigh(parse: Parser, snapshots: seq<NodeSnapshot>, k: NodeKey)
    ensures SumFirst(NodeRows(parse, snapshots), k) == SumBy(snapshots, UplinkWeight(parse, k))
    ensures SumSecond(NodeRows(parse, snapshots), k) == SumBy(snapshots, DownlinkWeight(parse, k))
  {
    if snapshots != [] {
      NodeRowsWeigh(parse, snapshots[1..], k);
      NodeRowWeighs(parse, snapshots[0], k);
      SumsAppend(NodeRow(parse, snapshots[0]), NodeRows(parse, snapshots[1..]), k);
    }
  }

  lemma MentionsOfBoth<K>(a: seq<Row<K>>, b: seq<Row<K>>, k: K)
    ensures Mentions(a + b, k) <==> Mentions(a, k) || Mentions(b, k)
  {
    assert forall r :: r in a + b <==> r in a || r in b;
  }

  lemma {:induction false} UserRowsMention(parse: Parser, popped: seq<UserSnapshot>, k: UserKey)
    ensures Mentions(UserRows(parse, popped), k) <==>
      exists s <- popped :: s.userId != 0 && s.userId == k.userId && s.nodeId == k.nodeId
                            && s.createdAt.Some? && s.createdAt.value != "" && parse(s.createdAt.value) == Some(k.hour)
  {
    if popped != [] {
      UserRowsMention(parse, popped[1..], k);
      assert forall s :: s in popped <==> s == popped[0] || s in popped[1..];
      MentionsOfBoth(UserRow(parse, popped[0]), UserRows(parse, popped[1..]), k);
    }
  }

  lemma {:induction false} NodeRowsMention(parse: Parser, popped: seq<NodeSnapshot>, k: NodeKey)
    ensures Mentions(NodeRows(parse, popped), k) <==>
      exists s <- popped :: s.nodeId == k.nodeId
                            && s.createdAt.Some? && s.createdAt.value != "" && parse(s.createdAt.value) == Some(k.hour)
  {
    if popped != [] {
      NodeRowsMention(parse, popped[1..], k);
      assert forall s :: s in popped <==> s == popped[0] || s in popped[1..];
      MentionsOfBoth(NodeRow(parse, popped[0]), NodeRows(parse, popped[1..]), k);
    }
  }

  lemma RowsAreKeys<K>(table: seq<Row<K>>, k: K)
    ensures HasKey(table, k) <==> exists row <- table :: row.key == k
  {
    if HasKey(table, k) {
      assert table[Find(table, k)] in table;
    }
  }

  lemma RowsAfter<K>(table: seq<Row<K>>, items: seq<Row<K>>, k: K)
    ensures (exists row <- UpsertAll(table, items) :: row.key == k) <==> (exists row <- table :: row.key == k) || Mentions(items, k)
  {
    RowsAreKeys(table, k);
    RowsAreKeys(UpsertAll(table, items), k);
    UpsertAllRows(table, items, k);
  }

  /** Which rows there are after a sync that commits: those there were, and one for each user, node and hour of
      which a snapshot was popped that has a user id and a text that is a time. */
  lemma UserRowsStored(parse: Parser, table: seq<Row<UserKey>>, popped: seq<UserSnapshot>, k: UserKey)
    ensures (exists row <- UpsertAll(table, UserRows(parse, popped)) :: row.key == k) <==>
      (exists row <- table :: row.key == k) ||
      exists s <- popped :: s.userId != 0 && s.userId == k.userId && s.nodeId == k.nodeId
                            && s.createdAt.Some? && s.createdAt.value != "" && parse(s.createdAt.value) == Some(k.hour)
  {
    RowsAfter(table, UserRows(parse, popped), k);
    UserRowsMention(parse, popped, k);
  }

  lemma NodeRowsStored(parse: Parser, table: seq<Row<NodeKey>>, popped: seq<NodeSnapshot>, k: NodeKey)
    ensures (exists row <- UpsertAll(table, NodeRows(parse, popped)) :: row.key == k) <==>
      (exists row <- table :: row.key == k) ||
      exists s <- popped :: s.nodeId == k.nodeId
                            && s.createdAt.Some? && s.createdAt.value != "" && parse(s.createdAt.value) == Some(k.hour)
  {
    RowsAfter(table, NodeRows(parse, popped), k);
    NodeRowsMention(parse, popped, k);
  }

  /** And what they hold: what they held, and the traffic of these snapshots. */
  lemma UserTrafficStored(parse: Parser, table: seq<Row<UserKey>>, popped: seq<UserSnapshot>, k: UserKey)
    ensures Amount(UpsertAll(table, UserRows(parse, popped)), k).first
         == Amount(table, k).first
            + SumBy(popped, (s: UserSnapshot) =>
                if s.userId != 0 && s.userId == k.userId && s.nodeId == k.nodeId
                   && s.createdAt.Some? && s.createdAt.value != "" && parse(s.createdAt.value) == Some(k.hour)
                then s.usedTraffic else 0)
  {
    UpsertAllAddsParts(table, UserRows(parse, popped), k);
    UserRowsWeigh(parse, popped, k);
    SameSums(popped, UserWeight(parse, k), (s: UserSnapshot) =>
      if s.userId != 0 && s.userId == k.userId && s.nodeId == k.nodeId
         && s.createdAt.Some? && s.createdAt.value != "" && parse(s.createdAt.value) == Some(k.hour)
      then s.usedTraffic else 0);
  }

  lemma NodeTrafficStored(parse: Parser, table: seq<Row<NodeKey>>, popped: seq<NodeSnapshot>, k: NodeKey)
    ensures Amount(UpsertAll(table, NodeRows(parse, popped)), k).first
         == Amount(table, k).first
            + SumBy(popped, (s: NodeSnapshot) =>
                if s.nodeId == k.nodeId && s.createdAt.Some? && s.createdAt.value != "" && parse(s.createdAt.value) == Some(k.hour)
                then s.uplink else 0)
    ensures Amount(UpsertAll(table, NodeRows(parse, popped)), k).second
         == Amount(table, k).second
            + SumBy(popped, (s: NodeSnapshot) =>
                if s.nodeId == k.nodeId && s.createdAt.Some? && s.createdAt.value != "" && parse(s.createdAt.value) == Some(k.hour)
                then s.downlink else 0)
  {
    UpsertAllAddsParts(table, NodeRows(parse, popped), k);
    NodeRowsWeigh(parse, popped, k);
    SameSums(popped, UplinkWeight(parse, k), (s: NodeSnapshot) =>
      if s.nodeId == k.nodeId && s.createdAt.Some? && s.createdAt.value != "" && parse(s.createdAt.value) == Some(k.hour)
      then s.uplink else 0);
    SameSums(popped, DownlinkWeight(parse, k), (s: NodeSnapshot) =>
      if s.nodeId == k.nodeId && s.createdAt.Some? && s.createdAt.value != "" && parse(s.createdAt.value) == Some(k.hour)
      then s.downlink else 0);
  }

  lemma {:induction false} SameSums<T>(items: seq<T>, a: T -> int, b: T -> int)
    requires forall t: T :: a(t) == b(t)
    ensures SumBy(items, a) == SumBy(items, b)
  {
    if items != [] {
      SameSums(items[1..], a, b);
    }
  }

  /** The amount of a key is what its row has. */
  lemma AmountOfRow<K>(table: seq<Row<K>>, k: K)
    requires forall i, j :: 0 <= i < j < |table| ==> table[i].key != table[j].key
    ensures forall row <- table :: row.key == k ==> Amount(table, k) == row.traffic
    ensures (forall row <- table :: row.key != k) ==> Amount(table, k) == Traffic(0, 0)
  {
    if HasKey(table, k) {
      assert table[Find(table, k)] in table;
    }
  }

  /** One successful sync: what its key scan yields, perhaps more than once, and its limit. */
  datatype Round = Round(scanned: seq<string>, max: nat)

  function UserRound(parse: Parser, table: seq<Row<UserKey>>, lists: Lists<string, UserSnapshot>, r: Round)
    : (seq<Row<UserKey>>, Lists<string, UserSnapshot>)
  {
    (UpsertAll(table, UserRows(parse, PopAllItems(lists, r.scanned, r.max, 0))), PopAllRest(lists, r.scanned, r.max, 0))
  }

  function NodeRound(parse: Parser, table: seq<Row<NodeKey>>, lists: Lists<string, NodeSnapshot>, r: Round)
    : (seq<Row<NodeKey>>, Lists<string, NodeSnapshot>)
  {
    (UpsertAll(table, NodeRows(parse, PopAllItems(lists, r.scanned, r.max, 0))), PopAllRest(lists, r.scanned, r.max, 0))
  }

  predicate Covers(keys: seq<string>, r: Round) {
    forall k <- r.scanned :: k in keys
  }

  /** A successful sync under any limit and any scan moves user traffic from the lists to the table: for
      every (user, node, hour), stored plus queued is unchanged. */
  lemma UserSyncConserves(parse: Parser, table: seq<Row<UserKey>>, lists: Lists<string, UserSnapshot>,
                          r: Round, keys: seq<string>, k: UserKey)
    requires Distinct(keys) && Covers(keys, r)
    ensures var (table', lists') := UserRound(parse, table, lists, r);
            Amount(table', k).first + Queued(lists', keys, UserWeight(parse, k))
            == Amount(table, k).first + Queued(lists, keys, UserWeight(parse, k))
  {
    var popped := PopAllItems(lists, r.scanned, r.max, 0);
    PopAllConserves(lists, r.scanned, keys, r.max, 0, UserWeight(parse, k));
    UpsertAllAdds(table, UserRows(parse, popped), k);
    UserRowsWeigh(parse, popped, k);
  }

  /** The same for uplink and downlink of every (node, hour). */
  lemma NodeSyncConserves(parse: Parser, table: seq<Row<NodeKey>>, lists: Lists<string, NodeSnapshot>,
                          r: Round, keys: seq<string>, k: NodeKey)
    requires Distinct(keys) && Covers(keys, r)
    ensures var (table', lists') := NodeRound(parse, table, lists, r);
            && Amount(table', k).first + Queued(lists', keys, UplinkWeight(parse, k))
               == Amount(table, k).first + Queued(lists, keys, UplinkWeight(parse, k))
            && Amount(table', k).second + Queued(lists', keys, DownlinkWeight(parse, k))
               == Amount(table, k).second + Queued(lists, keys, DownlinkWeight(parse, k))
  {
    var popped := PopAllItems(lists, r.scanned, r.max, 0);
    PopAllConserves(lists, r.scanned, keys, r.max, 0, UplinkWeight(parse, k));
    PopAllConserves(lists, r.scanned, keys, r.max, 0, DownlinkWeight(parse, k));
    UpsertAllAdds(table, NodeRows(parse, popped), k);
    NodeRowsWeigh(parse, popped, k);
  }

  function UserRounds(parse: Parser, table: seq<Row<UserKey>>, lists: Lists<string, UserSnapshot>, rounds: seq<Round>)
    : (seq<Row<UserKey>>, Lists<string, UserSnapshot>)
    decreases |rounds|
  {
    if rounds == [] then (table, lists)
    else
      var (table', lists') := UserRound(parse, table, lists, rounds[0]);
      UserRounds(parse, table', lists', rounds[1..])
  }

  function NodeRounds(parse: Parser, table: seq<Row<NodeKey>>, lists: Lists<string, NodeSnapshot>, rounds: seq<Round>)
    : (seq<Row<NodeKey>>, Lists<string, NodeSnapshot>)
    decreases |rounds|
  {
    if rounds == [] then (table, lists)
    else
      var (table', lists') := NodeRound(parse, table, lists, rounds[0]);
      NodeRounds(parse, table', lists', rounds[1..])
  }

  /** So does any number of them. */
  lemma {:induction false} UserRoundsConserve(parse: Parser, table: seq<Row<UserKey>>, lists: Lists<string, UserSnapshot>,
                                              rounds: seq<Round>, keys: seq<string>, k: UserKey)
    requires Distinct(keys) && forall r <- rounds :: Covers(keys, r)
    ensures var (table', lists') := UserRounds(parse, table, lists, rounds);
            Amount(table', k).first + Queued(lists', keys, UserWeight(parse, k))
            == Amount(table, k).first + Queued(lists, keys, UserWeight(parse, k))
    decreases |rounds|
  {
    if rounds != [] {
      var (table', lists') := UserRound(parse, table, lists, rounds[0]);
      UserSyncConserves(parse, table, lists, rounds[0], keys, k);
      UserRoundsConserve(parse, table', lists', rounds[1..], keys, k);
    }
  }

  lemma {:induction false} NodeRoundsConserve(parse: Parser, table: seq<Row<NodeKey>>, lists: Lists<string, NodeSnapshot>,
                                              rounds: seq<Round>, keys: seq<string>, k: NodeKey)
    requires Distinct(keys) && forall r <- rounds :: Covers(keys, r)
    ensures var (table', lists') := NodeRounds(parse, table, lists, rounds);
            && Amount(table', k).first + Queued(lists', keys, UplinkWeight(parse, k))
               == Amount(table, k).first + Queued(lists, keys, UplinkWeight(parse, k))
            && Amount(table', k).second + Queued(lists', keys, DownlinkWeight(parse, k))
               == Amount(table, k).second + Queued(lists, keys, DownlinkWeight(parse, k))
    decreases |rounds|
  {
    if rounds != [] {
      var (table', lists') := NodeRound(parse, table, lists, rounds[0]);
      NodeSyncConserves(parse, table, lists, rounds[0], keys, k);
      NodeRoundsConserve(parse, table', lists', rounds[1..], keys, k);
    }
  }

  /** The two usage tables and the Redis lists of snapshots waiting for them. */
  class UsageTables {
    const parse: Parser
    var userRows: seq<Row<UserKey>>
    var nodeRows: seq<Row<NodeKey>>
    var userLists: Lists<string, UserSnapshot>
    var nodeLists: Lists<string, NodeSnapshot>

    constructor (parse: Parser)
      ensures this.parse == parse && userRows == [] && nodeRows == [] && userLists == map[] && nodeLists == map[]
    {
      this.parse := parse;
      userRows, nodeRows, userLists, nodeLists := [], [], map[], map[];
    }

    /** One sync. Popping is not undone: when the commit fails the popped snapshots are gone and
        the tables are as they were. */
    method Sync(scannedUsers: seq<string>, scannedNodes: seq<string>, max: nat, commits: bool) returns (ok: bool)
      modifies this
      ensures userLists == PopAllRest(old(userLists), scannedUsers, max, 0)
      ensures nodeLists == PopAllRest(old(nodeLists), scannedNodes, max, 0)
      ensures var users := PopAllItems(old(userLists), scannedUsers, max, 0);
              var nodes := PopAllItems(old(nodeLists), scannedNodes, max, 0);
              && ok == (commits && (users != [] || nodes != []))
              && userRows == (if ok then UpsertAll(old(userRows), UserRows(parse, users)) else old(userRows))
              && nodeRows == (if ok then UpsertAll(old(nodeRows), NodeRows(parse, nodes)) else old(nodeRows))
    {
      var users, nodes;
      userLists, users := PopPending(userLists, scannedUsers, max);
      nodeLists, nodes := PopPending(nodeLists, scannedNodes, max);
      if users == [] && nodes == [] {
        return false;
      }
      var userRows' := WriteBatch(userRows, UserRows(parse, users));
      var nodeRows' := WriteBatch(nodeRows, NodeRows(parse, nodes));
      if !commits {
        return false;
      }
      userRows, nodeRows := userRows', nodeRows';
      return true;
    }
  }
}
