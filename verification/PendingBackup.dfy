/** Disk backups of pending usage: what each save merges into the files, and what a restart puts
    back into an empty Redis. */
module PendingBackup {
  import opened Prelude
  import opened RedisLists
  import opened PendingUsage
  import UsageSync
  import opened SnapshotSync

  /** The five files. A user update whose user id is 0 stands for one without a usable id. */
  datatype Files = Files(userUsage: seq<Update>, adminUsage: map<nat, int>, serviceUsage: map<nat, int>,
                         userSnapshots: seq<UserSnapshot>, nodeSnapshots: seq<NodeSnapshot>)

  const NO_FILES := Files([], map[], map[], [], [])

  /** One call of a `save_*_backup` function. */
  datatype Save =
    | SaveUsers(updates: seq<Update>)
    | SaveAdmins(deltas: map<nat, int>)
    | SaveServices(deltas: map<nat, int>)
    | SaveSnapshots(users: seq<UserSnapshot>, nodes: seq<NodeSnapshot>)

  // ---------- user usage ----------

  /** The latest `online_at` among the updates of one user. */
  function Latest(us: seq<Update>, id: nat): Option<int> {
    if us == [] then None
    else
      var rest, last := Latest(us[..|us| - 1], id), us[|us| - 1];
      if last.userId == id then Later(rest, last.onlineAt) else rest
  }

  /** It is one of them, and none is later; there is none only if no update of the user has a time. */
  lemma {:induction false} LatestIs(us: seq<Update>, id: nat)
    ensures match Latest(us, id)
            case Some(t) =>
              && (exists u <- us :: u.userId == id && u.onlineAt == Some(t))
              && forall u <- us :: u.userId == id && u.onlineAt.Some? ==> u.onlineAt.value <= t
            case None => forall u <- us :: u.userId == id ==> u.onlineAt.None?
  {
    if us != [] {
      LatestIs(us[..|us| - 1], id);
      assert forall u :: u in us <==> u in us[..|us| - 1] || u == us[|us| - 1];
    }
  }

  function TotalDelta(us: seq<Update>, id: nat): int {
    if us == [] then 0
    else TotalDelta(us[..|us| - 1], id) + DeltaOf(id)(us[|us| - 1])
  }

  function IndexOf(us: seq<Update>, id: nat): (i: nat)
    ensures i <= |us| && (i < |us| ==> us[i].userId == id)
    ensures forall j :: 0 <= j < i ==> us[j].userId != id
  {
    if us == [] || us[0].userId == id then 0 else 1 + IndexOf(us[1..], id)
  }

  predicate OnePerUser(us: seq<Update>) {
    && (forall i, j :: 0 <= i < j < |us| ==> us[i].userId != us[j].userId)
    && (forall u <- us :: u.userId != 0)
  }

  /** One update into the merged dictionary, kept in insertion order. */
  function MergeUser(merged: seq<Update>, u: Update): seq<Update> {
    if u.userId == 0 then merged
    else
      var i := IndexOf(merged, u.userId);
      if i < |merged|
      then merged[i := Update(u.userId, merged[i].delta + u.delta, Later(merged[i].onlineAt, u.onlineAt))]
      else merged + [u]
  }

  function MergeUsers(merged: seq<Update>, us: seq<Update>): seq<Update> {
    if us == [] then merged else MergeUser(MergeUsers(merged, us[..|us| - 1]), us[|us| - 1])
  }

  lemma {:induction false} NoUpdatesOf(us: seq<Update>, id: nat)
    requires forall u <- us :: u.userId != id
    ensures TotalDelta(us, id) == 0 && Latest(us, id) == None
  {
    if us != [] {
      assert us[|us| - 1] in us;
      assert forall u <- us[..|us| - 1] :: u in us;
      NoUpdatesOf(us[..|us| - 1], id);
    }
  }

  lemma {:induction false} OneUpdateOf(us: seq<Update>, i: nat)
    requires OnePerUser(us) && i < |us|
    ensures TotalDelta(us, us[i].userId) == us[i].delta && Latest(us, us[i].userId) == us[i].onlineAt
  {
    var init := us[..|us| - 1];
    assert forall u <- init :: u in us;
    if i == |us| - 1 {
      forall u <- init ensures u.userId != us[i].userId {
        var j :| 0 <= j < |init| && init[j] == u;
      }
      NoUpdatesOf(init, us[i].userId);
    } else {
      assert init[i] == us[i];
      OneUpdateOf(init, i);
    }
  }

  /** In a merged file, a user's entry is the user's total and latest time. */
  lemma EntryIsTotal(us: seq<Update>, id: nat)
    requires OnePerUser(us)
    ensures var i := IndexOf(us, id);
            if i < |us| then us[i].delta == TotalDelta(us, id) && us[i].onlineAt == Latest(us, id)
            else TotalDelta(us, id) == 0 && Latest(us, id) == None
  {
    var i := IndexOf(us, id);
    if i < |us| {
      OneUpdateOf(us, i);
    } else {
      forall u <- us ensures u.userId != id {
        var j :| 0 <= j < |us| && us[j] == u;
      }
      NoUpdatesOf(us, id);
    }
  }

  lemma MergeUserAdds(merged: seq<Update>, u: Update, id: nat)
    requires OnePerUser(merged) && id != 0
    ensures OnePerUser(MergeUser(merged, u))
    ensures TotalDelta(MergeUser(merged, u), id) == TotalDelta(merged, id) + DeltaOf(id)(u)
    ensures Latest(MergeUser(merged, u), id)
         == if u.userId == id then Later(Latest(merged, id), u.onlineAt) else Latest(merged, id)
  {
    var merged' := MergeUser(merged, u);
    if u.userId != 0 {
      assert OnePerUser(merged') by {
        forall x <- merged' ensures x.userId != 0 {
          assert x in merged || x.userId == u.userId;
        }
      }
      EntryIsTotal(merged, id);
      EntryIsTotal(merged', id);
      var i, k := IndexOf(merged, u.userId), IndexOf(merged, id);
      if k < |merged| {
        assert IndexOf(merged', id) == k by { IndexUnique(merged', id, k); }
      } else if u.userId == id {
        assert IndexOf(merged', id) == |merged| by { IndexUnique(merged', id, |merged|); }
      } else {
        assert IndexOf(merged', id) == |merged'| by { IndexUnique(merged', id, |merged'|); }
      }
    }
  }

  lemma IndexUnique(us: seq<Update>, id: nat, i: nat)
    requires i <= |us| && (i < |us| ==> us[i].userId == id)
    requires forall j :: 0 <= j < i ==> us[j].userId != id
    ensures IndexOf(us, id) == i
  {}

  lemma {:induction false} MergeUsersAdds(merged: seq<Update>, us: seq<Update>, id: nat)
    requires OnePerUser(merged) && id != 0
    ensures OnePerUser(MergeUsers(merged, us))
    ensures TotalDelta(MergeUsers(merged, us), id) == TotalDelta(merged, id) + TotalDelta(us, id)
    ensures Latest(MergeUsers(merged, us), id) == Later(Latest(merged, id), Latest(us, id))
  {
    if us != [] {
      MergeUsersAdds(merged, us[..|us| - 1], id);
      MergeUserAdds(MergeUsers(merged, us[..|us| - 1]), us[|us| - 1], id);
    }
  }

  // ---------- admin and service usage ----------

  function AddDeltas(m: map<nat, int>, deltas: map<nat, int>): map<nat, int> {
    map id | id in m.Keys + deltas.Keys :: GetDefault(m, id, 0) + GetDefault(deltas, id, 0)
  }

  // ---------- usage snapshots ----------

  /** Snapshots are merged under the text of their ids and time stamp. */
  datatype UserText = UserText(userId: nat, nodeId: Option<nat>, createdAt: Option<string>)
  datatype NodeText = NodeText(nodeId: Option<nat>, createdAt: Option<string>)

  function UserTextRows(ss: seq<UserSnapshot>): seq<Row<UserText>> {
    seq(|ss|, i requires 0 <= i < |ss| =>
      Row(UserText(ss[i].userId, ss[i].nodeId, ss[i].createdAt), Traffic(ss[i].usedTraffic, 0)))
  }

  function ToUserSnapshots(rows: seq<Row<UserText>>): seq<UserSnapshot> {
    seq(|rows|, i requires 0 <= i < |rows| =>
      UserSnapshot(rows[i].key.userId, rows[i].key.nodeId, rows[i].key.createdAt, rows[i].traffic.first))
  }

  function NodeTextRows(ss: seq<NodeSnapshot>): seq<Row<NodeText>> {
    seq(|ss|, i requires 0 <= i < |ss| =>
      Row(NodeText(ss[i].nodeId, ss[i].createdAt), Traffic(ss[i].uplink, ss[i].downlink)))
  }

  function ToNodeSnapshots(rows: seq<Row<NodeText>>): seq<NodeSnapshot> {
    seq(|rows|, i requires 0 <= i < |rows| =>
      NodeSnapshot(rows[i].key.nodeId, rows[i].key.createdAt, rows[i].traffic.first, rows[i].traffic.second))
  }

  function MergeUserSnapshots(ss: seq<UserSnapshot>): seq<UserSnapshot> {
    ToUserSnapshots(UpsertAll([], UserTextRows(ss)))
  }

  function MergeNodeSnapshots(ss: seq<NodeSnapshot>): seq<NodeSnapshot> {
    ToNodeSnapshots(UpsertAll([], NodeTextRows(ss)))
  }

  /** Total traffic of the rows whose key is selected. */
  function Selected<K>(rows: seq<Row<K>>, select: K -> bool): Traffic {
    if rows == [] then Traffic(0, 0)
    else
      var rest, last := Selected(rows[..|rows| - 1], select), rows[|rows| - 1];
      if select(last.key) then rest.Plus(last.traffic) else rest
  }

  lemma {:induction false} SelectedAfterUpdate<K>(rows: seq<Row<K>>, i: nat, t: Traffic, select: K -> bool)
    requires i < |rows|
    ensures Selected(rows[i := Row(rows[i].key, rows[i].traffic.Plus(t))], select)
         == if select(rows[i].key) then Selected(rows, select).Plus(t) else Selected(rows, select)
  {
    var rows' := rows[i := Row(rows[i].key, rows[i].traffic.Plus(t))];
    var n := |rows| - 1;
    if i == n {
      assert rows'[..n] == rows[..n];
    } else {
      SelectedAfterUpdate(rows[..n], i, t, select);
      assert rows'[..n] == rows[..n][i := Row(rows[i].key, rows[i].traffic.Plus(t))];
    }
  }

  /** Merging by key keeps every selected total. */
  lemma {:induction false} MergeKeepsSelected<K>(items: seq<Row<K>>, select: K -> bool)
    ensures Selected(UpsertAll([], items), select) == Selected(items, select)
  {
    if items != [] {
      var init, last := items[..|items| - 1], items[|items| - 1];
      MergeKeepsSelected(init, select);
      var t := UpsertAll([], init);
      var i := Find(t, last.key);
      if i < |t| {
        SelectedAfterUpdate(t, i, last.traffic, select);
      } else {
        assert (t + [last])[..|t|] == t;
      }
    }
  }

  function SelectUser(parse: Parser, k: UserKey): UserText -> bool {
    (t: UserText) =>
      && t.userId != 0 && t.userId == k.userId && t.nodeId == k.nodeId
      && t.createdAt.Some? && t.createdAt.value != "" && parse(t.createdAt.value) == Some(k.hour)
  }

  function SelectNode(parse: Parser, k: NodeKey): NodeText -> bool {
    (t: NodeText) =>
      t.nodeId == k.nodeId && t.createdAt.Some? && t.createdAt.value != "" && parse(t.createdAt.value) == Some(k.hour)
  }

  lemma {:induction false} UserWeightIsSelected(parse: Parser, ss: seq<UserSnapshot>, rows: seq<Row<UserText>>, k: UserKey)
    requires |ss| == |rows|
    requires forall i :: 0 <= i < |ss| ==>
               rows[i].key == UserText(ss[i].userId, ss[i].nodeId, ss[i].createdAt) && rows[i].traffic.first == ss[i].usedTraffic
    ensures SumBy(ss, UserWeight(parse, k)) == Selected(rows, SelectUser(parse, k)).first
  {
    if ss != [] {
      var n := |ss| - 1;
      UserWeightIsSelected(parse, ss[..n], rows[..n], k);
      assert ss == ss[..n] + [ss[n]];
      SumByAppend(ss[..n], [ss[n]], UserWeight(parse, k));
    }
  }

  lemma {:induction false} NodeWeightIsSelected(parse: Parser, ss: seq<NodeSnapshot>, rows: seq<Row<NodeText>>, k: NodeKey)
    requires |ss| == |rows|
    requires forall i :: 0 <= i < |ss| ==>
               rows[i] == Row(NodeText(ss[i].nodeId, ss[i].createdAt), Traffic(ss[i].uplink, ss[i].downlink))
    ensures SumBy(ss, UplinkWeight(parse, k)) == Selected(rows, SelectNode(parse, k)).first
    ensures SumBy(ss, DownlinkWeight(parse, k)) == Selected(rows, SelectNode(parse, k)).second
  {
    if ss != [] {
      var n := |ss| - 1;
      NodeWeightIsSelected(parse, ss[..n], rows[..n], k);
      assert ss == ss[..n] + [ss[n]];
      SumByAppend(ss[..n], [ss[n]], UplinkWeight(parse, k));
      SumByAppend(ss[..n], [ss[n]], DownlinkWeight(parse, k));
    }
  }

  lemma UserMergeKeepsWeight(parse: Parser, ss: seq<UserSnapshot>, k: UserKey)
    ensures SumBy(MergeUserSnapshots(ss), UserWeight(parse, k)) == SumBy(ss, UserWeight(parse, k))
  {
    var rows := UserTextRows(ss);
    MergeKeepsSelected(rows, SelectUser(parse, k));
    UserWeightIsSelected(parse, ss, rows, k);
    UserWeightIsSelected(parse, MergeUserSnapshots(ss), UpsertAll([], rows), k);
  }

  lemma NodeMergeKeepsWeight(parse: Parser, ss: seq<NodeSnapshot>, k: NodeKey)
    ensures SumBy(MergeNodeSnapshots(ss), UplinkWeight(parse, k)) == SumBy(ss, UplinkWeight(parse, k))
    ensures SumBy(MergeNodeSnapshots(ss), DownlinkWeight(parse, k)) == SumBy(ss, DownlinkWeight(parse, k))
  {
    var rows := NodeTextRows(ss);
    MergeKeepsSelected(rows, SelectNode(parse, k));
    NodeWeightIsSelected(parse, ss, rows, k);
    NodeWeightIsSelected(parse, MergeNodeSnapshots(ss), UpsertAll([], rows), k);
  }

  // ---------- a history of saves ----------

  function AfterSave(f: Files, save: Save): Files {
    match save
    case SaveUsers(updates) => if updates == [] then f else f.(userUsage := MergeUsers([], f.userUsage + updates))
    case SaveAdmins(deltas) => f.(adminUsage := AddDeltas(f.adminUsage, deltas))
    case SaveServices(deltas) => f.(serviceUsage := AddDeltas(f.serviceUsage, deltas))
    case SaveSnapshots(users, nodes) =>
      f.(userSnapshots := MergeUserSnapshots(f.userSnapshots + users),
         nodeSnapshots := MergeNodeSnapshots(f.nodeSnapshots + nodes))
  }

  function AfterSaves(saves: seq<Save>): Files {
    if saves == [] then NO_FILES else AfterSave(AfterSaves(saves[..|saves| - 1]), saves[|saves| - 1])
  }

  /** All user updates ever handed to a save, in order; likewise for the other kinds. */
  function SavedUpdates(saves: seq<Save>): seq<Update> {
    if saves == [] then []
    else
      var s := saves[|saves| - 1];
      SavedUpdates(saves[..|saves| - 1]) + (if s.SaveUsers? then s.updates else [])
  }

  function SavedAdminDelta(saves: seq<Save>, id: nat): int {
    if saves == [] then 0
    else
      var s := saves[|saves| - 1];
      SavedAdminDelta(saves[..|saves| - 1], id) + (if s.SaveAdmins? then GetDefault(s.deltas, id, 0) else 0)
  }

  function SavedServiceDelta(saves: seq<Save>, id: nat): int {
    if saves == [] then 0
    else
      var s := saves[|saves| - 1];
      SavedServiceDelta(saves[..|saves| - 1], id) + (if s.SaveServices? then GetDefault(s.deltas, id, 0) else 0)
  }

  function SavedUserSnapshots(saves: seq<Save>): seq<UserSnapshot> {
    if saves == [] then []
    else
      var s := saves[|saves| - 1];
      SavedUserSnapshots(saves[..|saves| - 1]) + (if s.SaveSnapshots? then s.users else [])
  }

  function SavedNodeSnapshots(saves: seq<Save>): seq<NodeSnapshot> {
    if saves == [] then []
    else
      var s := saves[|saves| - 1];
      SavedNodeSnapshots(saves[..|saves| - 1]) + (if s.SaveSnapshots? then s.nodes else [])
  }

  lemma {:induction false} UpdatesAppend(a: seq<Update>, b: seq<Update>, id: nat)
    ensures TotalDelta(a + b, id) == TotalDelta(a, id) + TotalDelta(b, id)
    ensures Latest(a + b, id) == Later(Latest(a, id), Latest(b, id))
  {
    if b == [] {
      assert a + b == a;
    } else {
      UpdatesAppend(a, b[..|b| - 1], id);
      assert (a + b)[..|a + b| - 1] == a + b[..|b| - 1];
    }
  }

  lemma {:induction false} UserSaveAdds(had: seq<Update>, more: seq<Update>, id: nat)
    requires id != 0
    ensures var merged := MergeUsers([], had + more);
            && OnePerUser(merged)
            && TotalDelta(merged, id) == TotalDelta(had, id) + TotalDelta(more, id)
            && Latest(merged, id) == Later(Latest(had, id), Latest(more, id))
  {
    MergeUsersAdds([], had + more, id);
    UpdatesAppend(had, more, id);
  }

  /** The user file agrees with everything saved so far about one user. */
  predicate UserFileAgrees(file: seq<Update>, all: seq<Update>, id: nat) {
    OnePerUser(file) && TotalDelta(file, id) == TotalDelta(all, id) && Latest(file, id) == Latest(all, id)
  }

  lemma UserSaveAgrees(f: Files, all: seq<Update>, updates: seq<Update>, id: nat)
    requires id != 0 && UserFileAgrees(f.userUsage, all, id)
    ensures UserFileAgrees(AfterSave(f, SaveUsers(updates)).userUsage, all + updates, id)
  {
    UpdatesAppend(all, updates, id);
    if updates != [] {
      UserSaveAdds(f.userUsage, updates, id);
    }
  }

  /** The user file: one entry per user, holding the sum and the latest time of everything saved. */
  lemma {:induction false} UserFileExact(saves: seq<Save>, id: nat)
    requires id != 0
    ensures UserFileAgrees(AfterSaves(saves).userUsage, SavedUpdates(saves), id)
  {
    if saves != [] {
      var init, s := saves[..|saves| - 1], saves[|saves| - 1];
      UserFileExact(init, id);
      match s
      case SaveUsers(updates) => UserSaveAgrees(AfterSaves(init), SavedUpdates(init), updates, id);
      case _ => assert SavedUpdates(saves) == SavedUpdates(init);
    }
  }

  lemma {:induction false} OwnerFilesExact(saves: seq<Save>, id: nat)
    ensures GetDefault(AfterSaves(saves).adminUsage, id, 0) == SavedAdminDelta(saves, id)
    ensures GetDefault(AfterSaves(saves).serviceUsage, id, 0) == SavedServiceDelta(saves, id)
  {
    if saves != [] {
      OwnerFilesExact(saves[..|saves| - 1], id);
    }
  }

  lemma {:induction false} UserSnapshotFileExact(parse: Parser, saves: seq<Save>, k: UserKey)
    ensures SumBy(AfterSaves(saves).userSnapshots, UserWeight(parse, k)) == SumBy(SavedUserSnapshots(saves), UserWeight(parse, k))
  {
    if saves != [] {
      var init, s, w := saves[..|saves| - 1], saves[|saves| - 1], UserWeight(parse, k);
      UserSnapshotFileExact(parse, init, k);
      if s.SaveSnapshots? {
        var had := AfterSaves(init).userSnapshots;
        UserMergeKeepsWeight(parse, had + s.users, k);
        SumByAppend(had, s.users, w);
        SumByAppend(SavedUserSnapshots(init), s.users, w);
      } else {
        assert SavedUserSnapshots(saves) == SavedUserSnapshots(init);
      }
    }
  }

  lemma NodeMergeAdds(parse: Parser, had: seq<NodeSnapshot>, more: seq<NodeSnapshot>, k: NodeKey)
    ensures var merged := MergeNodeSnapshots(had + more);
            && SumBy(merged, UplinkWeight(parse, k)) == SumBy(had, UplinkWeight(parse, k)) + SumBy(more, UplinkWeight(parse, k))
            && SumBy(merged, DownlinkWeight(parse, k)) == SumBy(had, DownlinkWeight(parse, k)) + SumBy(more, DownlinkWeight(parse, k))
  {
    NodeMergeKeepsWeight(parse, had + more, k);
    SumByAppend(had, more, UplinkWeight(parse, k));
    SumByAppend(had, more, DownlinkWeight(parse, k));
  }

  predicate NodeFileAgrees(parse: Parser, file: seq<NodeSnapshot>, all: seq<NodeSnapshot>, k: NodeKey) {
    && SumBy(file, UplinkWeight(parse, k)) == SumBy(all, UplinkWeight(parse, k))
    && SumBy(file, DownlinkWeight(parse, k)) == SumBy(all, DownlinkWeight(parse, k))
  }

  lemma NodeSaveAgrees(parse: Parser, file: seq<NodeSnapshot>, all: seq<NodeSnapshot>, more: seq<NodeSnapshot>, k: NodeKey)
    requires NodeFileAgrees(parse, file, all, k)
    ensures NodeFileAgrees(parse, MergeNodeSnapshots(file + more), all + more, k)
  {
    NodeMergeAdds(parse, file, more, k);
    SumByAppend(all, more, UplinkWeight(parse, k));
    SumByAppend(all, more, DownlinkWeight(parse, k));
  }

  lemma {:induction false} NodeSnapshotFileExact(parse: Parser, saves: seq<Save>, k: NodeKey)
    ensures NodeFileAgrees(parse, AfterSaves(saves).nodeSnapshots, SavedNodeSnapshots(saves), k)
  {
    if saves != [] {
      var init, s := saves[..|saves| - 1], saves[|saves| - 1];
      NodeSnapshotFileExact(parse, init, k);
      NodeFileStep(init, s);
      assert saves == init + [s];
      if s.SaveSnapshots? {
        NodeSaveAgrees(parse, AfterSaves(init).nodeSnapshots, SavedNodeSnapshots(init), s.nodes, k);
      } else {
        assert SavedNodeSnapshots(init) + [] == SavedNodeSnapshots(init);
      }
    }
  }

  lemma NodeFileStep(init: seq<Save>, s: Save)
    ensures AfterSaves(init + [s]).nodeSnapshots ==
            if s.SaveSnapshots? then MergeNodeSnapshots(AfterSaves(init).nodeSnapshots + s.nodes)
            else AfterSaves(init).nodeSnapshots
    ensures SavedNodeSnapshots(init + [s]) == SavedNodeSnapshots(init) + (if s.SaveSnapshots? then s.nodes else [])
  {
    assert (init + [s])[..|init|] == init;
  }

  // ---------- restoring into an empty Redis ----------

  function RestoreUsers(c: Cache, entries: seq<Update>): Cache {
    if entries == [] then c
    else
      var c', u := RestoreUsers(c, entries[..|entries| - 1]), entries[|entries| - 1];
      if u.userId == 0 then c' else Record(c', u)
  }

  /** The list a snapshot is pushed to is named after its ids and time text; how does not matter. */
  function RestoreSnapshots<S>(lists: Lists<string, S>, ss: seq<S>, usable: S -> bool, name: S -> string): Lists<string, S> {
    if ss == [] then lists
    else
      var lists', s := RestoreSnapshots(lists, ss[..|ss| - 1], usable, name), ss[|ss| - 1];
      if usable(s) then LPush(lists', name(s), Json(s)) else lists'
  }

  predicate NonEmpty(text: Option<string>) {
    text.Some? && text.value != ""
  }

  const USABLE_USER := (s: UserSnapshot) => s.userId != 0 && NonEmpty(s.createdAt)
  const USABLE_NODE := (s: NodeSnapshot) => NonEmpty(s.createdAt)

  lemma {:induction false} RestoredUser(entries: seq<Update>, id: nat)
    requires OnePerUser(entries)
    ensures var c := RestoreUsers(EMPTY, entries);
            && (id in c.totals <==> IndexOf(entries, id) < |entries|)
            && GetDefault(c.totals, id, 0) == TotalDelta(entries, id)
            && Get(c.online, id) == Latest(entries, id)
            && (id !in c.totals ==> At(c.lists, id) == [])
  {
    if entries != [] {
      var init, u := entries[..|entries| - 1], entries[|entries| - 1];
      assert u in entries;
      assert forall x <- init :: x in entries;
      RestoredUser(init, id);
      if u.userId == id {
        IndexUnique(entries, id, |init|);
        IndexUnique(init, id, |init|);
        EntryIsTotal(init, id);
      } else if IndexOf(init, id) < |init| {
        IndexUnique(entries, id, IndexOf(init, id));
      } else {
        IndexUnique(entries, id, |entries|);
      }
    }
  }

  /** Recovery of user usage: after any saves and a restore into an empty Redis, the pending state of
      every user is the sum of all saved deltas and the latest saved time. */
  lemma UserRecoveryExact(saves: seq<Save>, id: nat, coerce: int -> int)
    requires id != 0
    ensures var c := RestoreUsers(EMPTY, AfterSaves(saves).userUsage);
            && ReadTotal(c, id, coerce) == TotalDelta(SavedUpdates(saves), id)
            && ReadOnline(c, id) == Latest(SavedUpdates(saves), id)
  {
    UserFileExact(saves, id);
    RestoredUser(AfterSaves(saves).userUsage, id);
  }

  /** Recovery of admin usage: a sync that commits raises both counters of every stored admin by
      exactly what was saved for it. */
  lemma {:induction false} AdminRecoveryExact(saves: seq<Save>, rows: map<nat, UsageSync.Row>, attempts: nat -> UsageSync.Attempt, id: nat)
    requires id in rows && UsageSync.Commits(attempts, 0)
    ensures var l := UsageSync.Ledger(rows, UsageSync.Restored(AfterSaves(saves).adminUsage));
            var l' := UsageSync.Synced(UsageSync.AdminOwner, l, attempts).0;
            && id in l'.rows
            && UsageSync.Used(l', id) == UsageSync.Used(l, id) + SavedAdminDelta(saves, id)
            && UsageSync.Settled(l', id) == UsageSync.Settled(l, id)
  {
    OwnerFilesExact(saves, id);
    RestoredOwnerSyncs(UsageSync.AdminOwner, AfterSaves(saves).adminUsage, rows, attempts, id);
  }

  /** Recovery of service usage. */
  lemma {:induction false} ServiceRecoveryExact(saves: seq<Save>, rows: map<nat, UsageSync.Row>, attempts: nat -> UsageSync.Attempt, id: nat)
    requires id in rows && UsageSync.Commits(attempts, 0)
    ensures var l := UsageSync.Ledger(rows, UsageSync.Restored(AfterSaves(saves).serviceUsage));
            var l' := UsageSync.Synced(UsageSync.ServiceOwner, l, attempts).0;
            id in l'.rows && UsageSync.Used(l', id) == UsageSync.Used(l, id) + SavedServiceDelta(saves, id)
  {
    OwnerFilesExact(saves, id);
    RestoredOwnerSyncs(UsageSync.ServiceOwner, AfterSaves(saves).serviceUsage, rows, attempts, id);
  }

  lemma RestoredOwnerSyncs(owner: UsageSync.Owner, file: map<nat, int>, rows: map<nat, UsageSync.Row>,
                           attempts: nat -> UsageSync.Attempt, id: nat)
    requires id in rows && UsageSync.Commits(attempts, 0)
    ensures var l := UsageSync.Ledger(rows, UsageSync.Restored(file));
            var l' := UsageSync.Synced(owner, l, attempts).0;
            && id in l'.rows
            && UsageSync.Used(l', id) == UsageSync.Used(l, id) + GetDefault(file, id, 0)
            && (owner.AdminOwner? ==> UsageSync.Settled(l', id) == UsageSync.Settled(l, id))
  {
    var l := UsageSync.Ledger(rows, UsageSync.Restored(file));
    UsageSync.SyncConserves(owner, l, attempts, id);
    UsageSync.SyncIsAllOrNothing(owner, l, attempts);
    var l' := UsageSync.Synced(owner, l, attempts).0;
    assert UsageSync.Pending(l, id) == GetDefault(file, id, 0) by {
      if id in file {
        assert [Json(file[id])][..0] == [];
      }
    }
    assert UsageSync.Pending(l', id) == 0 by {
      if UsageSync.Totals(l.queues) != map[] {
        assert l'.queues == map[];
      }
    }
  }

  lemma {:induction false} QueuedAfterPush<S>(lists: Lists<string, S>, k: string, s: S, keys: seq<string>, weight: S -> int)
    requires Distinct(keys)
    ensures Queued(LPush(lists, k, Json(s)), keys, weight)
         == Queued(lists, keys, weight) + (if k in keys then weight(s) else 0)
  {
    if keys != [] {
      QueuedAfterPush(lists, k, s, keys[1..], weight);
      if keys[0] == k {
        FifoOfPush(s, At(lists, k));
        SumByAppend(Fifo(At(lists, k)), [s], weight);
        assert k !in keys[1..];
      }
    }
  }

  lemma {:induction false} RestoredNames<S>(ss: seq<S>, usable: S -> bool, name: S -> string, s: S)
    requires s in ss && usable(s)
    ensures name(s) in RestoreSnapshots(map[], ss, usable, name)
  {
    var init := ss[..|ss| - 1];
    assert ss == init + [ss[|ss| - 1]];
    if s in init {
      RestoredNames(init, usable, name, s);
    }
  }

  /** Restored lists carry exactly the weight of the file, as long as skipped snapshots weigh nothing. */
  lemma {:induction false} RestoredWeight<S>(ss: seq<S>, usable: S -> bool, name: S -> string,
                                             keys: seq<string>, weight: S -> int)
    requires Distinct(keys)
    requires forall s <- ss :: if usable(s) then name(s) in keys else weight(s) == 0
    ensures Queued(RestoreSnapshots(map[], ss, usable, name), keys, weight) == SumBy(ss, weight)
  {
    if ss == [] {
      NothingQueued<S>(keys, weight);
    } else {
      var init, s := ss[..|ss| - 1], ss[|ss| - 1];
      assert ss == init + [s];
      RestoredWeight(init, usable, name, keys, weight);
      SumByAppend(init, [s], weight);
      if usable(s) {
        QueuedAfterPush(RestoreSnapshots(map[], init, usable, name), name(s), s, keys, weight);
      }
    }
  }

  lemma {:induction false} NothingQueued<S>(keys: seq<string>, weight: S -> int)
    ensures Queued<string, S>(map[], keys, weight) == 0
  {
    if keys != [] {
      NothingQueued<S>(keys[1..], weight);
    }
  }

  /** The names the restored lists get, each once, and those the syncs scan. */
  predicate CoversRestored<S>(keys: seq<string>, file: seq<S>, usable: S -> bool, name: S -> string, rounds: seq<Round>) {
    && Distinct(keys)
    && (forall n <- RestoreSnapshots(map[], file, usable, name) :: n in keys)
    && (forall r <- rounds :: Covers(keys, r))
  }

  /** Recovery of hourly user usage: after any successful syncs, whatever their limits and scans, every
      (user, node, hour) has risen by exactly the saved traffic less what is still queued, and by all
      of it once the lists are empty. What the lists are called does not matter. */
  lemma {:induction false} UserHoursRecoveryExact(parse: Parser, saves: seq<Save>, table: seq<Row<UserKey>>, name: UserSnapshot -> string,
                               rounds: seq<Round>, keys: seq<string>, k: UserKey)
    requires CoversRestored(keys, AfterSaves(saves).userSnapshots, USABLE_USER, name, rounds)
    ensures var lists := RestoreSnapshots(map[], AfterSaves(saves).userSnapshots, USABLE_USER, name);
            var (table', lists') := UserRounds(parse, table, lists, rounds);
            var saved := SumBy(SavedUserSnapshots(saves), UserWeight(parse, k));
            && Amount(table', k).first + Queued(lists', keys, UserWeight(parse, k)) == Amount(table, k).first + saved
            && (lists' == map[] ==> Amount(table', k).first == Amount(table, k).first + saved)
  {
    var file, w := AfterSaves(saves).userSnapshots, UserWeight(parse, k);
    var lists := RestoreSnapshots(map[], file, USABLE_USER, name);
    forall s <- file ensures if USABLE_USER(s) then name(s) in keys else w(s) == 0 {
      if USABLE_USER(s) {
        RestoredNames(file, USABLE_USER, name, s);
      }
    }
    RestoredWeight(file, USABLE_USER, name, keys, w);
    UserSnapshotFileExact(parse, saves, k);
    UserRoundsConserve(parse, table, lists, rounds, keys, k);
    NothingQueued<UserSnapshot>(keys, w);
  }

  /** What a (node, hour) has after the syncs and still has queued is what it had plus what was saved. */
  predicate NodeHourRecovered(parse: Parser, saved: seq<NodeSnapshot>, before: Traffic, after: Traffic,
                              lists: Lists<string, NodeSnapshot>, keys: seq<string>, k: NodeKey) {
    && after.first + Queued(lists, keys, UplinkWeight(parse, k)) == before.first + SumBy(saved, UplinkWeight(parse, k))
    && after.second + Queued(lists, keys, DownlinkWeight(parse, k)) == before.second + SumBy(saved, DownlinkWeight(parse, k))
  }

  /** Recovery of hourly node usage. */
  lemma {:induction false} NodeHoursRecoveryExact(parse: Parser, saves: seq<Save>, table: seq<Row<NodeKey>>, name: NodeSnapshot -> string,
                               rounds: seq<Round>, keys: seq<string>, k: NodeKey)
    requires CoversRestored(keys, AfterSaves(saves).nodeSnapshots, USABLE_NODE, name, rounds)
    ensures var (table', lists') :=
              NodeRounds(parse, table, RestoreSnapshots(map[], AfterSaves(saves).nodeSnapshots, USABLE_NODE, name), rounds);
            NodeHourRecovered(parse, SavedNodeSnapshots(saves), Amount(table, k), Amount(table', k), lists', keys, k)
  {
    var lists := RestoreSnapshots(map[], AfterSaves(saves).nodeSnapshots, USABLE_NODE, name);
    RestoredNodeWeights(parse, saves, name, keys, k);
    NodeRoundsConserve(parse, table, lists, rounds, keys, k);
  }

  /** With empty lists everything saved has arrived. */
  lemma NodeHourFullyRecovered(parse: Parser, saved: seq<NodeSnapshot>, before: Traffic, after: Traffic,
                               keys: seq<string>, k: NodeKey)
    requires NodeHourRecovered(parse, saved, before, after, map[], keys, k)
    ensures after == before.Plus(Traffic(SumBy(saved, UplinkWeight(parse, k)), SumBy(saved, DownlinkWeight(parse, k))))
  {
    NothingQueued<NodeSnapshot>(keys, UplinkWeight(parse, k));
    NothingQueued<NodeSnapshot>(keys, DownlinkWeight(parse, k));
  }

  lemma {:induction false} RestoredNodeWeights(parse: Parser, saves: seq<Save>, name: NodeSnapshot -> string, keys: seq<string>, k: NodeKey)
    requires CoversRestored(keys, AfterSaves(saves).nodeSnapshots, USABLE_NODE, name, [])
    ensures var lists := RestoreSnapshots(map[], AfterSaves(saves).nodeSnapshots, USABLE_NODE, name);
            var up, down := UplinkWeight(parse, k), DownlinkWeight(parse, k);
            && Queued(lists, keys, up) == SumBy(SavedNodeSnapshots(saves), up)
            && Queued(lists, keys, down) == SumBy(SavedNodeSnapshots(saves), down)
  {
    var file, up, down := AfterSaves(saves).nodeSnapshots, UplinkWeight(parse, k), DownlinkWeight(parse, k);
    forall s <- file ensures if USABLE_NODE(s) then name(s) in keys else up(s) == down(s) == 0 {
      if USABLE_NODE(s) {
        RestoredNames(file, USABLE_NODE, name, s);
      }
    }
    RestoredWeight(file, USABLE_NODE, name, keys, up);
    RestoredWeight(file, USABLE_NODE, name, keys, down);
    NodeSnapshotFileExact(parse, saves, k);
  }

  /** The backup files on disk. */
  class BackupStore {
    var userUsage: seq<Update>
    var adminUsage: map<nat, int>
    var serviceUsage: map<nat, int>
    var userSnapshots: seq<UserSnapshot>
    var nodeSnapshots: seq<NodeSnapshot>

    constructor ()
      ensures State() == NO_FILES
    {
      userUsage, adminUsage, serviceUsage, userSnapshots, nodeSnapshots := [], map[], map[], [], [];
    }

    function State(): Files
      reads this
    {
      Files(userUsage, adminUsage, serviceUsage, userSnapshots, nodeSnapshots)
    }

    method SaveUserUsage(updates: seq<Update>)
      modifies this
      ensures State() == AfterSave(old(State()), SaveUsers(updates))
    {
      if updates == [] {
        return;
      }
      var merged := MergeLoop([], userUsage);
      merged := MergeLoop(merged, updates);
      MergeUsersAppend([], userUsage, updates);
      userUsage := merged;
    }

    /** `clear_user_usage_backup` */
    method ClearUserUsage()
      modifies this`userUsage
      ensures State() == old(State()).(userUsage := [])
    {
      userUsage := [];
    }

    /** One of the two merge loops. */
    method MergeLoop(merged0: seq<Update>, updates: seq<Update>) returns (merged: seq<Update>)
      ensures merged == MergeUsers(merged0, updates)
    {
      merged := merged0;
      for i := 0 to |updates|
        invariant merged == MergeUsers(merged0, updates[..i])
      {
        assert updates[..i + 1][..i] == updates[..i];
        var u := updates[i];
        if u.userId != 0 {
          var at := IndexOf(merged, u.userId);
          if at == |merged| {
            merged := merged + [Update(u.userId, 0, u.onlineAt)];
          }
          var e := merged[at];
          var later := u.onlineAt.Some? && (e.onlineAt.None? || u.onlineAt.value > e.onlineAt.value);
          merged := merged[at := Update(u.userId, e.delta + u.delta, if later then u.onlineAt else e.onlineAt)];
        }
      }
      assert updates[..|updates|] == updates;
    }

    method SaveAdminUsage(updates: map<nat, int>)
      modifies this
      ensures State() == AfterSave(old(State()), SaveAdmins(updates))
    {
      if updates != map[] {
        adminUsage := AddLoop(adminUsage, updates);
      } else {
        assert AddDeltas(adminUsage, updates) == adminUsage;
      }
    }

    method SaveServiceUsage(updates: map<nat, int>)
      modifies this
      ensures State() == AfterSave(old(State()), SaveServices(updates))
    {
      if updates != map[] {
        serviceUsage := AddLoop(serviceUsage, updates);
      } else {
        assert AddDeltas(serviceUsage, updates) == serviceUsage;
      }
    }

    method AddLoop(existing: map<nat, int>, updates: map<nat, int>) returns (merged: map<nat, int>)
      ensures merged == AddDeltas(existing, updates)
    {
      merged := existing;
      var left := updates.Keys;
      while left != {}
        invariant left <= updates.Keys
        invariant merged == AddDeltas(existing, updates - left)
        decreases left
      {
        var id :| id in left;
        merged := merged[id := GetDefault(merged, id, 0) + updates[id]];
        left := left - {id};
      }
      assert updates - left == updates;
    }

    method SaveUsageSnapshots(users: seq<UserSnapshot>, nodes: seq<NodeSnapshot>)
      modifies this
      ensures State() == AfterSave(old(State()), SaveSnapshots(users, nodes))
    {
      var mergedUser := GroupByKey(UserTextRows(userSnapshots + users));
      var mergedNode := GroupByKey(NodeTextRows(nodeSnapshots + nodes));
      userSnapshots, nodeSnapshots := ToUserSnapshots(mergedUser), ToNodeSnapshots(mergedNode);
    }

    /** The startup restore into Redis stores that hold nothing yet. */
    method RestoreAll(pending: PendingStore, admins: UsageSync.UsageStore, services: UsageSync.UsageStore,
                      tables: UsageTables, userName: UserSnapshot -> string, nodeName: NodeSnapshot -> string)
      requires admins != services
      requires pending.State() == EMPTY && admins.queues == map[] && services.queues == map[]
      requires tables.userLists == map[] && tables.nodeLists == map[]
      modifies pending, admins`queues, services`queues, tables`userLists, tables`nodeLists
      ensures pending.State() == RestoreUsers(EMPTY, userUsage)
      ensures admins.queues == UsageSync.Restored(adminUsage) && services.queues == UsageSync.Restored(serviceUsage)
      ensures tables.userLists == RestoreSnapshots(map[], userSnapshots, USABLE_USER, userName)
      ensures tables.nodeLists == RestoreSnapshots(map[], nodeSnapshots, USABLE_NODE, nodeName)
    {
      RestoreUserUsage(pending);
      admins.PutBack(adminUsage);
      services.PutBack(serviceUsage);
      RestoreUserSnapshots(tables, userName);
      RestoreNodeSnapshots(tables, nodeName);
    }

    method RestoreUserUsage(pending: PendingStore)
      modifies pending
      ensures pending.State() == RestoreUsers(old(pending.State()), userUsage)
    {
      for i := 0 to |userUsage|
        invariant pending.State() == RestoreUsers(old(pending.State()), userUsage[..i])
      {
        assert userUsage[..i + 1][..i] == userUsage[..i];
        var u := userUsage[i];
        if u.userId != 0 {
          pending.CacheUserUsageUpdate(u.userId, u.delta, u.onlineAt);
        }
      }
      assert userUsage[..|userUsage|] == userUsage;
    }

    method RestoreUserSnapshots(tables: UsageTables, userName: UserSnapshot -> string)
      requires tables.userLists == map[]
      modifies tables`userLists
      ensures tables.userLists == RestoreSnapshots(map[], userSnapshots, USABLE_USER, userName)
    {
      for i := 0 to |userSnapshots|
        invariant tables.userLists == RestoreSnapshots(map[], userSnapshots[..i], USABLE_USER, userName)
      {
        assert userSnapshots[..i + 1][..i] == userSnapshots[..i];
        var s := userSnapshots[i];
        if s.userId != 0 && NonEmpty(s.createdAt) {
          tables.userLists := LPush(tables.userLists, userName(s), Json(s));
        }
      }
      assert userSnapshots[..|userSnapshots|] == userSnapshots;
    }

    method RestoreNodeSnapshots(tables: UsageTables, nodeName: NodeSnapshot -> string)
      requires tables.nodeLists == map[]
      modifies tables`nodeLists
      ensures tables.nodeLists == RestoreSnapshots(map[], nodeSnapshots, USABLE_NODE, nodeName)
    {
      for i := 0 to |nodeSnapshots|
        invariant tables.nodeLists == RestoreSnapshots(map[], nodeSnapshots[..i], USABLE_NODE, nodeName)
      {
        assert nodeSnapshots[..i + 1][..i] == nodeSnapshots[..i];
        var s := nodeSnapshots[i];
        if NonEmpty(s.createdAt) {
          tables.nodeLists := LPush(tables.nodeLists, nodeName(s), Json(s));
        }
      }
      assert nodeSnapshots[..|nodeSnapshots|] == nodeSnapshots;
    }
  }

  lemma {:induction false} MergeUsersAppend(merged: seq<Update>, a: seq<Update>, b: seq<Update>)
    ensures MergeUsers(merged, a + b) == MergeUsers(MergeUsers(merged, a), b)
  {
    if b == [] {
      assert a + b == a;
    } else {
      MergeUsersAppend(merged, a, b[..|b| - 1]);
      assert (a + b)[..|a + b| - 1] == a + b[..|b| - 1];
    }
  }
}
