/** Redis lists as the usage code uses them: `lpush` at the head (index 0), `rpop` at the tail,
    and a key that exists only while its list is non-empty. */
module RedisLists {
  import opened Prelude

  /** One stored element: JSON text carrying a value, or text that does not parse. */
  datatype Entry<+T> = Json(value: T) | Garbled

  type Lists<!K, T> = map<K, seq<Entry<T>>>

  function At<K, T>(lists: Lists<K, T>, k: K): seq<Entry<T>> {
    GetDefault(lists, k, [])
  }

  function Put<K, T>(lists: Lists<K, T>, k: K, list: seq<Entry<T>>): Lists<K, T> {
    if list == [] then lists - {k} else lists[k := list]
  }

  function LPush<K, T>(lists: Lists<K, T>, k: K, e: Entry<T>): Lists<K, T> {
    lists[k := [e] + At(lists, k)]
  }

  /** The parsed values of a list, oldest first: the order in which `rpop` yields them. */
  function Fifo<T>(list: seq<Entry<T>>): seq<T> {
    if list == [] then []
    else
      match list[|list| - 1]
      case Json(v) => [v] + Fifo(list[..|list| - 1])
      case Garbled => Fifo(list[..|list| - 1])
  }

  function SumBy<T>(items: seq<T>, weight: T -> int): int {
    if items == [] then 0 else weight(items[0]) + SumBy(items[1..], weight)
  }

  lemma {:induction false} SumByAppend<T>(a: seq<T>, b: seq<T>, weight: T -> int)
    ensures SumBy(a + b, weight) == SumBy(a, weight) + SumBy(b, weight)
  {
    if a == [] {
      assert a + b == b;
    } else {
      SumByAppend(a[1..], b, weight);
      assert (a + b)[1..] == a[1..] + b;
    }
  }

  lemma {:induction false} FifoOfPush<T>(v: T, list: seq<Entry<T>>)
    ensures Fifo([Json(v)] + list) == Fifo(list) + [v]
  {
    if list == [] {
      assert [Json(v)] + list == [Json(v)];
      assert [Json(v)][..0] == [];
    } else {
      var shorter, longer := list[..|list| - 1], [Json(v)] + list;
      FifoOfPush(v, shorter);
      assert longer[..|list|] == [Json(v)] + shorter;
      assert longer[|list|] == list[|list| - 1];
      if list[|list| - 1].Json? {
        Reassociate([list[|list| - 1].value], Fifo(shorter), [v]);
      }
    }
  }

  lemma Reassociate<T>(a: seq<T>, b: seq<T>, c: seq<T>)
    ensures a + (b + c) == (a + b) + c
  {}

  predicate Full(max: nat, taken: nat) {
    max != 0 && taken >= max
  }

  /** Pop one list until it is empty or `max` values have been taken (0 means no limit), `taken` of
      them from earlier lists: what comes out, and what stays. */
  function PopItems<T>(list: seq<Entry<T>>, max: nat, taken: nat): seq<T> {
    if list == [] || Full(max, taken) then []
    else
      match list[|list| - 1]
      case Json(v) => [v] + PopItems(list[..|list| - 1], max, taken + 1)
      case Garbled => PopItems(list[..|list| - 1], max, taken)
  }

  function PopRest<T>(list: seq<Entry<T>>, max: nat, taken: nat): seq<Entry<T>> {
    if list == [] || Full(max, taken) then list
    else PopRest(list[..|list| - 1], max, if list[|list| - 1].Json? then taken + 1 else taken)
  }

  lemma {:induction false} PopTakesOldestFirst<T>(list: seq<Entry<T>>, max: nat, taken: nat)
    ensures Fifo(list) == PopItems(list, max, taken) + Fifo(PopRest(list, max, taken))
  {
    if list != [] && !Full(max, taken) {
      var shorter := list[..|list| - 1];
      match list[|list| - 1]
      case Json(v) =>
        PopTakesOldestFirst(shorter, max, taken + 1);
        Reassociate([v], PopItems(shorter, max, taken + 1), Fifo(PopRest(shorter, max, taken + 1)));
      case Garbled =>
        PopTakesOldestFirst(shorter, max, taken);
    }
  }

  lemma {:induction false} PopExtent<T>(list: seq<Entry<T>>, max: nat, taken: nat)
    ensures PopRest(list, max, taken) != [] ==> Full(max, taken + |PopItems(list, max, taken)|)
    ensures max != 0 && taken <= max ==> taken + |PopItems(list, max, taken)| <= max
  {
    if list != [] && !Full(max, taken) {
      PopExtent(list[..|list| - 1], max, if list[|list| - 1].Json? then taken + 1 else taken);
    }
  }

  /** Pop the scanned lists one after the other under one limit. */
  function PopAllItems<K, T>(lists: Lists<K, T>, scanned: seq<K>, max: nat, taken: nat): seq<T>
    decreases |scanned|
  {
    if scanned == [] || Full(max, taken) then []
    else
      var list := At(lists, scanned[0]);
      var items := PopItems(list, max, taken);
      items + PopAllItems(Put(lists, scanned[0], PopRest(list, max, taken)), scanned[1..], max, taken + |items|)
  }

  function PopAllRest<K, T>(lists: Lists<K, T>, scanned: seq<K>, max: nat, taken: nat): Lists<K, T>
    decreases |scanned|
  {
    if scanned == [] || Full(max, taken) then lists
    else
      var list := At(lists, scanned[0]);
      PopAllRest(Put(lists, scanned[0], PopRest(list, max, taken)), scanned[1..], max,
                 taken + |PopItems(list, max, taken)|)
  }

  /** The total weight of everything queued under the given keys. */
  function Queued<K, T>(lists: Lists<K, T>, keys: seq<K>, weight: T -> int): int {
    if keys == [] then 0
    else SumBy(Fifo(At(lists, keys[0])), weight) + Queued(lists, keys[1..], weight)
  }

  lemma {:induction false} QueuedElsewhere<K, T>(lists: Lists<K, T>, lists': Lists<K, T>, keys: seq<K>, weight: T -> int)
    requires forall k <- keys :: At(lists, k) == At(lists', k)
    ensures Queued(lists, keys, weight) == Queued(lists', keys, weight)
  {
    if keys != [] {
      assert keys[0] in keys;
      assert forall k <- keys[1..] :: k in keys;
      QueuedElsewhere(lists, lists', keys[1..], weight);
    }
  }

  /** Replacing one list changes the total by the difference of the two lists. */
  lemma {:induction false} QueuedPut<K, T>(lists: Lists<K, T>, keys: seq<K>, k: K, list: seq<Entry<T>>, weight: T -> int)
    requires Distinct(keys) && k in keys
    ensures Queued(Put(lists, k, list), keys, weight) + SumBy(Fifo(At(lists, k)), weight)
         == Queued(lists, keys, weight) + SumBy(Fifo(list), weight)
  {
    var lists' := Put(lists, k, list);
    if keys[0] == k {
      assert forall x <- keys[1..] :: x != k;
      QueuedElsewhere(lists, lists', keys[1..], weight);
    } else {
      QueuedPut(lists, keys[1..], k, list, weight);
    }
  }

  /** Whatever the limit, and however often the scan yields a key, each value is either popped or
      still queued. */
  lemma {:induction false} PopAllConserves<K, T>(lists: Lists<K, T>, scanned: seq<K>, keys: seq<K>, max: nat, taken: nat,
                                                 weight: T -> int)
    requires Distinct(keys) && forall k <- scanned :: k in keys
    ensures Queued(lists, keys, weight)
         == SumBy(PopAllItems(lists, scanned, max, taken), weight)
            + Queued(PopAllRest(lists, scanned, max, taken), keys, weight)
    decreases |scanned|
  {
    if scanned != [] && !Full(max, taken) {
      var k0, tail := scanned[0], scanned[1..];
      var items, rest := PopItems(At(lists, k0), max, taken), PopRest(At(lists, k0), max, taken);
      var mid, taken' := Put(lists, k0, rest), taken + |items|;
      OneListConserves(lists, k0, keys, max, taken, weight);
      PopAllConserves(mid, tail, keys, max, taken', weight);
      PopAllStep(lists, scanned, max, taken);
      SumByAppend(items, PopAllItems(mid, tail, max, taken'), weight);
    }
  }

  lemma OneListConserves<K, T>(lists: Lists<K, T>, k: K, keys: seq<K>, max: nat, taken: nat, weight: T -> int)
    requires Distinct(keys) && k in keys
    ensures var items, rest := PopItems(At(lists, k), max, taken), PopRest(At(lists, k), max, taken);
            Queued(lists, keys, weight) == SumBy(items, weight) + Queued(Put(lists, k, rest), keys, weight)
  {
    var items, rest := PopItems(At(lists, k), max, taken), PopRest(At(lists, k), max, taken);
    PopTakesOldestFirst(At(lists, k), max, taken);
    SumByAppend(items, Fifo(rest), weight);
    QueuedPut(lists, keys, k, rest, weight);
  }

  /** The keys of a scan, each once. */
  function Once<K(==,!new)>(scanned: seq<K>): (keys: seq<K>)
    ensures Distinct(keys) && forall k :: k in keys <==> k in scanned
  {
    if scanned == [] then []
    else
      var k, rest := scanned[|scanned| - 1], Once(scanned[..|scanned| - 1]);
      assert scanned == scanned[..|scanned| - 1] + [k];
      if k in rest then rest else rest + [k]
  }

  lemma {:induction false} EmptyStaysEmpty<K, T>(lists: Lists<K, T>, scanned: seq<K>, max: nat, taken: nat, k: K)
    requires At(lists, k) == []
    ensures At(PopAllRest(lists, scanned, max, taken), k) == []
    decreases |scanned|
  {
    if scanned != [] && !Full(max, taken) {
      var list := At(lists, scanned[0]);
      EmptyStaysEmpty(Put(lists, scanned[0], PopRest(list, max, taken)), scanned[1..], max,
                      taken + |PopItems(list, max, taken)|, k);
    }
  }

  /** Without a limit nothing is left under a scanned key; with one, it is never exceeded. */
  lemma {:induction false} PopAllExtent<K, T>(lists: Lists<K, T>, scanned: seq<K>, max: nat, taken: nat)
    ensures max == 0 ==> forall k <- scanned :: At(PopAllRest(lists, scanned, max, taken), k) == []
    ensures max != 0 && taken <= max ==> taken + |PopAllItems(lists, scanned, max, taken)| <= max
    decreases |scanned|
  {
    if scanned != [] && !Full(max, taken) {
      var list := At(lists, scanned[0]);
      var items, rest := PopItems(list, max, taken), PopRest(list, max, taken);
      var mid := Put(lists, scanned[0], rest);
      PopExtent(list, max, taken);
      PopAllExtent(mid, scanned[1..], max, taken + |items|);
      if max == 0 {
        EmptyStaysEmpty(mid, scanned[1..], max, taken + |items|, scanned[0]);
      }
    }
  }

  lemma {:induction false} ScannedIsGone<K, T>(lists: Lists<K, T>, scanned: seq<K>, taken: nat, k: K)
    requires k in scanned || k !in lists
    ensures k !in PopAllRest(lists, scanned, 0, taken)
    decreases |scanned|
  {
    if scanned != [] {
      var list := At(lists, scanned[0]);
      PopExtent(list, 0, taken);
      ScannedIsGone(Put(lists, scanned[0], PopRest(list, 0, taken)), scanned[1..], taken + |PopItems(list, 0, taken)|, k);
    }
  }

  /** A pop without a limit over a scan that yields every key leaves no list. */
  lemma FullPopLeavesNothing<K, T>(lists: Lists<K, T>, scanned: seq<K>)
    requires forall k <- lists :: k in scanned
    ensures PopAllRest(lists, scanned, 0, 0) == map[]
  {
    forall k | k in PopAllRest(lists, scanned, 0, 0) ensures false {
      ScannedIsGone(lists, scanned, 0, k);
    }
  }

  /** The scan at one key: its list is popped, and the rest of the scan goes on from there. */
  lemma PopAllStep<K, T>(lists: Lists<K, T>, scanned: seq<K>, max: nat, taken: nat)
    requires scanned != [] && !Full(max, taken)
    ensures var items := PopItems(At(lists, scanned[0]), max, taken);
            var lists' := Put(lists, scanned[0], PopRest(At(lists, scanned[0]), max, taken));
            && PopAllItems(lists, scanned, max, taken) == items + PopAllItems(lists', scanned[1..], max, taken + |items|)
            && PopAllRest(lists, scanned, max, taken) == PopAllRest(lists', scanned[1..], max, taken + |items|)
  {}

  lemma PopAllAt<K, T>(lists: Lists<K, T>, scanned: seq<K>, i: nat, max: nat, taken: nat)
    requires i < |scanned| && !Full(max, taken)
    ensures var items := PopItems(At(lists, scanned[i]), max, taken);
            var lists' := Put(lists, scanned[i], PopRest(At(lists, scanned[i]), max, taken));
            && PopAllItems(lists, scanned[i..], max, taken) == items + PopAllItems(lists', scanned[i + 1..], max, taken + |items|)
            && PopAllRest(lists, scanned[i..], max, taken) == PopAllRest(lists', scanned[i + 1..], max, taken + |items|)
  {
    assert scanned[i..][0] == scanned[i] && scanned[i..][1..] == scanned[i + 1..];
    PopAllStep(lists, scanned[i..], max, taken);
  }

  /** The pop loop shared by `get_pending_usage_updates` and `get_pending_usage_snapshots`. */
  method PopPending<K, T>(lists: Lists<K, T>, scanned: seq<K>, max: nat) returns (lists': Lists<K, T>, items: seq<T>)
    ensures items == PopAllItems(lists, scanned, max, 0)
    ensures lists' == PopAllRest(lists, scanned, max, 0)
  {
    lists', items := lists, [];
    var i := 0;
    while i < |scanned| && !Full(max, |items|)
      invariant 0 <= i <= |scanned|
      invariant PopAllItems(lists, scanned, max, 0) == items + PopAllItems(lists', scanned[i..], max, |items|)
      invariant PopAllRest(lists, scanned, max, 0) == PopAllRest(lists', scanned[i..], max, |items|)
    {
      var list, popped := PopList(At(lists', scanned[i]), max, |items|);
      PopAllAt(lists', scanned, i, max, |items|);
      Reassociate(items, popped, PopAllItems(Put(lists', scanned[i], list), scanned[i + 1..], max, |items + popped|));
      lists', items := Put(lists', scanned[i], list), items + popped;
      i := i + 1;
    }
  }

  method PopList<T>(list0: seq<Entry<T>>, max: nat, taken: nat) returns (list: seq<Entry<T>>, items: seq<T>)
    ensures items == PopItems(list0, max, taken) && list == PopRest(list0, max, taken)
  {
    list, items := list0, [];
    while list != [] && !Full(max, taken + |items|)
      invariant PopItems(list0, max, taken) == items + PopItems(list, max, taken + |items|)
      invariant PopRest(list0, max, taken) == PopRest(list, max, taken + |items|)
      decreases |list|
    {
      var e := list[|list| - 1];
      list := list[..|list| - 1];
      if e.Json? {
        items := items + [e.value];
      }
    }
  }
}
