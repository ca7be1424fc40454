/** Validating a subscription link through the Redis caches, against deciding from the database alone. */
module Subscription {
  import opened Prelude
  import Text

  // ---------- text ----------

  function LowerChar(c: char): char {
    if 'A' <= c <= 'Z' then (c as int + 32) as char else c
  }

  function Lower(s: string): (r: string)
    ensures |r| == |s| && forall i :: 0 <= i < |s| ==> r[i] == LowerChar(s[i])
  {
    seq(|s|, i requires 0 <= i < |s| => LowerChar(s[i]))
  }

  /** The small letters of the capitals; every other character is its own. */
  lemma LowerIs(c: char)
    ensures LowerChar('A') == 'a' && LowerChar('Z') == 'z'
    ensures 'A' <= c <= 'Z' ==> LowerChar(c) as int - 'a' as int == c as int - 'A' as int
    ensures !('A' <= c <= 'Z') ==> LowerChar(c) == c
  {}

  function NoDashes(s: string): string {
    if s == [] then "" else (if s[0] == '-' then "" else [s[0]]) + NoDashes(s[1..])
  }

  predicate IsHex(c: char) {
    '0' <= c <= '9' || 'a' <= c <= 'f'
  }

  /** The canonical form of a credential key, or None where `normalize_key` raises `ValueError`. */
  function NormalizeKey(key: string): Option<string> {
    var cleaned := Lower(Text.Strip(NoDashes(key)));
    if |cleaned| == 32 && forall c <- cleaned :: IsHex(c) then Some(cleaned) else None
  }

  /** What the SQL filter computes for a stored key: no stripping. */
  function SqlKey(key: string): string {
    NoDashes(Lower(key))
  }

  /** A stored key without white space at its ends, its dashes aside. */
  predicate Solid(key: string) {
    Text.Strip(NoDashes(key)) == NoDashes(key)
  }

  lemma {:induction false} DashesAndCase(s: string)
    ensures NoDashes(Lower(s)) == Lower(NoDashes(s))
  {
    if s != [] {
      DashesAndCase(s[1..]);
      assert Lower(s)[1..] == Lower(s[1..]);
      assert Lower(NoDashes(s)) == (if s[0] == '-' then "" else [LowerChar(s[0])]) + Lower(NoDashes(s[1..]));
    }
  }

  lemma {:induction false} StripShortens(s: string)
    ensures |Text.Strip(s)| <= |s|
    ensures |Text.Strip(s)| == |s| ==> Text.Strip(s) == s
  {
    var left := Text.StripLeft(s);
    assert |left| == |s| ==> left == s;
    assert |Text.StripRight(left)| == |left| ==> Text.StripRight(left) == left;
  }

  /** Where `normalize_key` accepts a stored key, the SQL filter sees the same key exactly when there is
      no white space around it. */
  lemma SqlSeesNormalKeyIff(key: string)
    requires NormalizeKey(key).Some?
    ensures SqlKey(key) == NormalizeKey(key).value <==> Solid(key)
  {
    DashesAndCase(key);
    StripShortens(NoDashes(key));
  }

  // ---------- users ----------

  /** A time as stored: without a zone, or with an offset from UTC. */
  datatype Stamp = Naive(t: int) | Aware(t: int, offset: int)

  /** `_to_utc_aware`: a naive time is taken as UTC. */
  function Instant(s: Stamp): int {
    match s
    case Naive(t) => t
    case Aware(t, offset) => t - offset
  }

  /** A user row, or a cached copy of one. `rest` stands for every other column. */
  datatype User = User(
    username: string, key: Option<string>, createdAt: Option<Stamp>, revokedAt: Option<Stamp>,
    deleted: bool, rest: nat)

  function FirstNamed(rows: seq<User>, name: string): (u: Option<User>)
    ensures u.Some? ==> u.value in rows && Lower(u.value.username) == Lower(name)
    ensures u.None? ==> forall v <- rows :: Lower(v.username) != Lower(name)
  {
    if rows == [] then None
    else if Lower(rows[0].username) == Lower(name) then Some(rows[0])
    else FirstNamed(rows[1..], name)
  }

  function FirstLive(rows: seq<User>, name: string): (u: Option<User>)
    ensures u.Some? ==> u.value in rows && Lower(u.value.username) == Lower(name) && !u.value.deleted
    ensures u.None? ==> forall v <- rows :: Lower(v.username) != Lower(name) || v.deleted
  {
    if rows == [] then None
    else if Lower(rows[0].username) == Lower(name) && !rows[0].deleted then Some(rows[0])
    else FirstLive(rows[1..], name)
  }

  function FirstNamedWithKey(rows: seq<User>, name: string): (u: Option<User>)
    ensures u.Some? ==> u.value in rows && Lower(u.value.username) == Lower(name) && u.value.key.Some?
    ensures u.None? ==> forall v <- rows :: Lower(v.username) != Lower(name) || v.key.None?
  {
    if rows == [] then None
    else if Lower(rows[0].username) == Lower(name) && rows[0].key.Some? then Some(rows[0])
    else FirstNamedWithKey(rows[1..], name)
  }

  function FirstWithKey(rows: seq<User>, n: string): (u: Option<User>)
    ensures u.Some? ==> u.value in rows && u.value.key.Some? && SqlKey(u.value.key.value) == n
    ensures u.None? ==> forall v <- rows :: v.key.None? || SqlKey(v.key.value) != n
  {
    if rows == [] then None
    else if rows[0].key.Some? && SqlKey(rows[0].key.value) == n then Some(rows[0])
    else FirstWithKey(rows[1..], n)
  }

  /** The user that a lookup by name finds in the database: a row that is not marked deleted. */
  function Live(rows: seq<User>, name: string): Option<User> {
    if name == "" then None else FirstLive(rows, name)
  }

  /** No two rows share a credential key. */
  predicate UniqueKeys(rows: seq<User>) {
    forall a, b | a in rows && b in rows && a.key.Some? && b.key.Some? ::
      SqlKey(a.key.value) == SqlKey(b.key.value) ==> a == b
  }

  lemma {:induction false} KeyIsFound(rows: seq<User>, u: User)
    requires u in rows && u.key.Some? && UniqueKeys(rows)
    ensures FirstWithKey(rows, SqlKey(u.key.value)) == Some(u)
  {
    var n := SqlKey(u.key.value);
    if rows[0].key.Some? && SqlKey(rows[0].key.value) == n {
      assert rows[0] in rows;
    } else {
      assert forall x <- rows[1..] :: x in rows;
      KeyIsFound(rows[1..], u);
    }
  }

  // ---------- the caches ----------

  /** A cached user entry: a copy of a row as it once was, JSON no user can be built from, or no JSON. */
  datatype Blob = Copy(user: User) | Unreadable | Garbled

  /** The part of Redis the validators use: user copies and known names by lower-case name, and the
      name for each canonical key. */
  datatype Store = Store(users: map<string, Blob>, names: set<string>, keyIndex: map<string, string>)

  /** Redis, or None while it is not available. */
  type Redis = Option<Store>

  function CacheUser(r: Redis, u: User): Redis {
    match r
    case None => None
    case Some(s) => Some(s.(users := s.users[Lower(u.username) := Copy(u)]))
  }

  function CacheSubscription(r: Redis, username: string, key: Option<string>): Redis {
    match r
    case None => None
    case Some(s) =>
      var n := if key.Some? then NormalizeKey(key.value) else None;
      Some(s.(names := s.names + {Lower(username)},
              keyIndex := if n.Some? then s.keyIndex[n.value := Lower(username)] else s.keyIndex))
  }

  function CacheAccepted(r: Redis, u: User): Redis {
    CacheSubscription(CacheUser(r, u), u.username, u.key)
  }

  /** `get_cached_user` without a database. It raises on an entry that is not JSON. */
  function Cached(r: Redis, name: string): Outcome<Option<User>> {
    if r.None? || name == "" || Lower(name) !in r.value.users then Returned(None)
    else
      match r.value.users[Lower(name)]
      case Copy(u) => Returned(Some(u))
      case Unreadable => Returned(None)
      case Garbled => Raised
  }

  /** What a lookup by name falls back to when no live row has the name: the cached copy, whatever its
      age, or a row that is only marked deleted. */
  function Leftover(rows: seq<User>, r: Redis, name: string): Option<User> {
    if r.None? || name == "" then None
    else
      match Cached(r, name)
      case Raised => None
      case Returned(Some(u)) => Some(u)
      case Returned(None) => FirstNamed(rows, name)
  }

  /** `crud.get_user` by name. */
  function GetUser(rows: seq<User>, r: Redis, name: string): Option<User> {
    if Live(rows, name).Some? then Live(rows, name) else Leftover(rows, r, name)
  }

  /** The cache entries that `crud.get_user` rewrites on the way. */
  function GetUserWrites(rows: seq<User>, r: Redis, name: string): Redis {
    if r.None? || name == "" then r
    else
      var filled := if Cached(r, name) == Returned(None) && FirstNamed(rows, name).Some?
                    then CacheUser(r, FirstNamed(rows, name).value) else r;
      if Live(rows, name).Some? then CacheUser(filled, Live(rows, name).value) else filled
  }

  // ---------- decisions ----------

  datatype Reply = Accepted(user: User) | Refused(code: nat) | Crashed

  /** The claims of a token whose signature is good. */
  datatype Payload = Payload(username: string, createdAt: Option<Stamp>)

  /** The token is neither older than the account nor revoked. */
  predicate TokenFits(u: User, issued: int) {
    && u.createdAt.Some? && Instant(u.createdAt.value) <= issued
    && (u.revokedAt.Some? ==> Instant(u.revokedAt.value) <= issued)
  }

  function Judge(u: Option<User>, issued: int): Reply {
    if u.Some? && TokenFits(u.value, issued) then Accepted(u.value) else Refused(404)
  }

  function TokenFromDb(rows: seq<User>, payload: Option<Payload>): Reply {
    if payload.None? || payload.value.createdAt.None? then Refused(404)
    else Judge(Live(rows, payload.value.username), Instant(payload.value.createdAt.value))
  }

  function KeyOnlyFromDb(rows: seq<User>, key: string): Reply {
    var n := NormalizeKey(key);
    if n.None? then Refused(400)
    else
      match FirstWithKey(rows, n.value)
      case None => Refused(404)
      case Some(u) => Accepted(u)
  }

  /** The decision on a named user with a canonical key. A stored key that is not a key raises. */
  function JudgeKey(u: Option<User>, n: string): Reply {
    if u.None? || u.value.key.GetOr("") == "" then Refused(404)
    else
      match NormalizeKey(u.value.key.value)
      case None => Crashed
      case Some(m) => if m == n then Accepted(u.value) else Refused(404)
  }

  function OrNamedWithKey(rows: seq<User>, u: Option<User>, name: string): Option<User> {
    if u.Some? then u else FirstNamedWithKey(rows, name)
  }

  function NamedKeyFromDb(rows: seq<User>, name: string, key: string): Reply {
    var n := NormalizeKey(key);
    if n.None? then Refused(400) else JudgeKey(OrNamedWithKey(rows, Live(rows, name), name), n.value)
  }

  // ---------- the cached paths ----------

  /** The user behind a cached entry for `name` if its key, looked up afresh, is `n`. */
  function CachedKeyHit(rows: seq<User>, r: Redis, name: string, n: string): Option<User> {
    match Cached(r, name)
    case Raised => None
    case Returned(None) => None
    case Returned(Some(c)) =>
      if c.key.GetOr("") == "" then None
      else
        var latest := GetUser(rows, r, name).GetOr(c);
        if latest.key.Some? && NormalizeKey(latest.key.value) == Some(n) then Some(latest) else None
  }

  function IndexedName(r: Redis, n: string): string {
    if r.None? then "" else GetDefault(r.value.keyIndex, n, "")
  }

  function ByToken(rows: seq<User>, r: Redis, payload: Option<Payload>): Reply {
    if payload.None? || payload.value.createdAt.None? then Refused(404)
    else Judge(GetUser(rows, r, payload.value.username), Instant(payload.value.createdAt.value))
  }

  function ByKeyOnly(rows: seq<User>, r: Redis, key: string): Reply {
    var n := NormalizeKey(key);
    if n.None? then Refused(400)
    else
      match CachedKeyHit(rows, r, IndexedName(r, n.value), n.value)
      case Some(u) => Accepted(u)
      case None => KeyOnlyFromDb(rows, key)
  }

  /** The key index names another user. */
  predicate IndexDisagrees(r: Redis, name: string, n: string) {
    IndexedName(r, n) != "" && Lower(IndexedName(r, n)) != Lower(name)
  }

  function ByNamedKey(rows: seq<User>, r: Redis, name: string, key: string): Reply {
    var n := NormalizeKey(key);
    if n.None? then Refused(400)
    else if IndexDisagrees(r, name, n.value) then Refused(404)
    else
      match CachedKeyHit(rows, r, name, n.value)
      case Some(u) => Accepted(u)
      case None => JudgeKey(OrNamedWithKey(rows, GetUser(rows, r, name), name), n.value)
  }

  // ---------- transparency ----------

  /** With any cache contents, the token validator answers as the database alone exactly when the user
      is in the database, or nothing is left behind under the name, or the token does not fit what is
      left behind. */
  lemma TokenTransparentIff(rows: seq<User>, r: Redis, payload: Option<Payload>)
    ensures ByToken(rows, r, payload) == TokenFromDb(rows, payload) <==>
      || payload.None? || payload.value.createdAt.None?
      || Live(rows, payload.value.username).Some?
      || Leftover(rows, r, payload.value.username).None?
      || !TokenFits(Leftover(rows, r, payload.value.username).value, Instant(payload.value.createdAt.value))
  {}

  /** When the token validator accepts a stored user, whatever the caches hold: exactly when the token says when
      it was issued, and the account was created by then, and its subscription has not been revoked since.
      A time without a zone is UTC; one with an offset is that much earlier. */
  lemma TokenAcceptedIff(rows: seq<User>, r: Redis, payload: Payload, u: User)
    requires u in rows && !u.deleted && payload.username != "" && Lower(u.username) == Lower(payload.username)
    requires forall v <- rows :: Lower(v.username) == Lower(payload.username) && !v.deleted ==> v == u
    ensures var utc := (s: Stamp) => match s case Naive(t) => t case Aware(t, offset) => t - offset;
      var accepted := && payload.createdAt.Some? && u.createdAt.Some?
                      && utc(u.createdAt.value) <= utc(payload.createdAt.value)
                      && (u.revokedAt.None? || utc(u.revokedAt.value) <= utc(payload.createdAt.value));
      && ByToken(rows, r, Some(payload)) == (if accepted then Accepted(u) else Refused(404))
      && TokenFromDb(rows, Some(payload)) == (if accepted then Accepted(u) else Refused(404))
  {
    assert FirstLive(rows, payload.username) == Some(u);
  }

  /** For any rows and any caches: whoever is accepted was created by the time the token was issued, and not
      revoked after it. */
  lemma NoRevokedToken(rows: seq<User>, r: Redis, payload: Option<Payload>)
    ensures var utc := (s: Stamp) => match s case Naive(t) => t case Aware(t, offset) => t - offset;
      match ByToken(rows, r, payload)
      case Accepted(u) =>
        && payload.Some? && payload.value.createdAt.Some? && u.createdAt.Some?
        && utc(u.createdAt.value) <= utc(payload.value.createdAt.value)
        && (u.revokedAt.None? || utc(u.revokedAt.value) <= utc(payload.value.createdAt.value))
      case Refused(code) => code == 404
      case Crashed => false
  {}

  /** Without Redis every validator is the database alone, and writes nothing. */
  lemma WithoutRedis(rows: seq<User>, payload: Option<Payload>, name: string, key: string)
    ensures ByToken(rows, None, payload) == TokenFromDb(rows, payload) && ByTokenWrites(rows, None, payload) == None
    ensures ByNamedKey(rows, None, name, key) == NamedKeyFromDb(rows, name, key) && ByNamedKeyWrites(rows, None, name, key) == None
    ensures ByKeyOnly(rows, None, key) == KeyOnlyFromDb(rows, key) && ByKeyOnlyWrites(rows, None, key) == None
  {}

  /** A key index that names another user refuses at once and touches nothing; one that names nobody does no harm
      to a stored user. */
  lemma IndexRefuses(rows: seq<User>, s: Store, name: string, key: string)
    requires NormalizeKey(key).Some?
    ensures var indexed := if NormalizeKey(key).value in s.keyIndex then s.keyIndex[NormalizeKey(key).value] else "";
      && (indexed != "" && Lower(indexed) != Lower(name) ==>
            ByNamedKey(rows, Some(s), name, key) == Refused(404) && ByNamedKeyWrites(rows, Some(s), name, key) == Some(s))
      && ((indexed == "" || Lower(indexed) == Lower(name)) && Live(rows, name).Some? ==>
            ByNamedKey(rows, Some(s), name, key) == NamedKeyFromDb(rows, name, key))
  {}

  /** What a lookup leaves in Redis: the copy of the live row it finds; else of the first row of the name if there
      was no entry for it; and no other entry changes. */
  lemma LookUpLeaves(rows: seq<User>, s: Store, name: string)
    ensures name == "" ==> GetUserWrites(rows, Some(s), name) == Some(s)
    ensures name != "" ==>
      var r := GetUserWrites(rows, Some(s), name);
      var had := Lower(name) in s.users && s.users[Lower(name)] != Unreadable;
      && r.Some? && r.value.names == s.names && r.value.keyIndex == s.keyIndex
      && (forall n :: n != Lower(name) ==> Get(r.value.users, n) == Get(s.users, n))
      && Get(r.value.users, Lower(name))
         == (if FirstLive(rows, name).Some? then Some(Copy(FirstLive(rows, name).value))
             else if !had && FirstNamed(rows, name).Some? then Some(Copy(FirstNamed(rows, name).value))
             else Get(s.users, Lower(name)))
  {}

  /** Whoever is accepted, by token, by name and key or by key alone, has a fresh copy and a known name afterwards, and a key
      that is one points to the name. */
  lemma AcceptedIsRemembered(rows: seq<User>, s: Store, payload: Option<Payload>)
    ensures ByToken(rows, Some(s), payload).Accepted? ==>
      RemembersUser(ByTokenWrites(rows, Some(s), payload), ByToken(rows, Some(s), payload).user)
    ensures !ByToken(rows, Some(s), payload).Accepted? ==>
      ByTokenWrites(rows, Some(s), payload)
      == if payload.Some? && payload.value.createdAt.Some? then GetUserWrites(rows, Some(s), payload.value.username) else Some(s)
  {}

  lemma AcceptedByNameIsRemembered(rows: seq<User>, s: Store, name: string, key: string)
    ensures ByNamedKey(rows, Some(s), name, key).Accepted? ==>
      RemembersUser(ByNamedKeyWrites(rows, Some(s), name, key), ByNamedKey(rows, Some(s), name, key).user)
  {}

  lemma AcceptedByKeyIsRemembered(rows: seq<User>, s: Store, key: string)
    ensures ByKeyOnly(rows, Some(s), key).Accepted? ==>
      RemembersUser(ByKeyOnlyWrites(rows, Some(s), key), ByKeyOnly(rows, Some(s), key).user)
  {}

  /** A key validator looks a name up in its cached part only if there is a copy of it that has a key. */
  lemma KeyedCopiesAreLookedUp(rows: seq<User>, s: Store, name: string)
    ensures LookUpWrites(rows, Some(s), name) ==
      if name != "" && Lower(name) in s.users && s.users[Lower(name)].Copy?
         && s.users[Lower(name)].user.key.Some? && s.users[Lower(name)].user.key.value != ""
      then GetUserWrites(rows, Some(s), name) else Some(s)
  {}

  predicate RemembersUser(r: Redis, u: User) {
    && r.Some? && Get(r.value.users, Lower(u.username)) == Some(Copy(u)) && Lower(u.username) in r.value.names
    && (u.key.Some? && NormalizeKey(u.key.value).Some? ==>
          Get(r.value.keyIndex, NormalizeKey(u.key.value).value) == Some(Lower(u.username)))
  }

  /** And a call by name and key that is refused after its lookups leaves what these leave. */
  lemma RefusedOnlyLooksUp(rows: seq<User>, s: Store, name: string, key: string)
    requires NormalizeKey(key).Some? && name != "" && !ByNamedKey(rows, Some(s), name, key).Accepted?
    requires NormalizeKey(key).value in s.keyIndex ==> Lower(s.keyIndex[NormalizeKey(key).value]) in ["", Lower(name)]
    ensures ByNamedKeyWrites(rows, Some(s), name, key) == GetUserWrites(rows, Some(s), name)
         || ByNamedKeyWrites(rows, Some(s), name, key) == GetUserWrites(rows, GetUserWrites(rows, Some(s), name), name)
  {}

  /** A deleted user's token is refused from the database alone, and accepted with an empty cache. */
  lemma DeletedUserIsAccepted()
    ensures var u := User("ann", None, Some(Naive(5)), None, true, 0);
            var payload := Some(Payload("ann", Some(Aware(9, 0))));
            && TokenFromDb([u], payload) == Refused(404)
            && ByToken([u], Some(Store(map[], {}, map[])), payload) == Accepted(u)
  {}

  /** The entry that the key index and the user cache hold for a key does no harm: there is no copy with a
      key under the indexed name; or the name is stored, and its key, if it is the one asked for, has no
      white space around it; or the name is not stored, and the copy, if its key is the one asked for,
      is a row as it stands, with no white space around the key. */
  predicate HarmlessEntry(rows: seq<User>, r: Redis, n: string) {
    match Cached(r, IndexedName(r, n))
    case Returned(Some(copy)) =>
      copy.key.GetOr("") != "" ==>
        (match Live(rows, IndexedName(r, n))
         case Some(u) => HasKey(u, n) ==> Solid(u.key.value)
         case None => HasKey(copy, n) ==> copy in rows && Solid(copy.key.value))
    case _ => true
  }

  predicate HasKey(u: User, n: string) {
    u.key.Some? && NormalizeKey(u.key.value) == Some(n)
  }

  /** With any cache contents, the key-only validator answers as the database alone exactly when the
      entry for the key does no harm. */
  lemma KeyOnlyTransparentIff(rows: seq<User>, r: Redis, key: string)
    requires NormalizeKey(key).Some? && UniqueKeys(rows)
    ensures ByKeyOnly(rows, r, key) == KeyOnlyFromDb(rows, key) <==> HarmlessEntry(rows, r, NormalizeKey(key).value)
  {
    var n := NormalizeKey(key).value;
    var hit := CachedKeyHit(rows, r, IndexedName(r, n), n);
    if hit.Some? {
      SqlSeesNormalKeyIff(hit.value.key.value);
      if hit.value in rows {
        KeyIsFound(rows, hit.value);
      }
    }
  }

  /** In particular it does so, however stale the copy, when the name indexed for the key is stored with a
      key free of white space, as every writer of the column leaves it. */
  lemma KeyOnlyTransparent(rows: seq<User>, r: Redis, key: string)
    requires UniqueKeys(rows)
    requires NormalizeKey(key).Some? ==>
               var u := Live(rows, IndexedName(r, NormalizeKey(key).value));
               IndexedName(r, NormalizeKey(key).value) != "" ==> u.Some? && (u.value.key.Some? ==> Solid(u.value.key.value))
    ensures ByKeyOnly(rows, r, key) == KeyOnlyFromDb(rows, key)
  {
    if NormalizeKey(key).Some? {
      KeyOnlyTransparentIff(rows, r, key);
    }
  }

  /** The failure that can happen: a copy outlives its row. After the row is gone the key is still
      accepted, and after the row is only marked deleted the copy from before is returned. */
  lemma StaleCopyIsAccepted(u: User, key: string, store: Store)
    requires u.username != "" && !u.deleted && u.key.Some? && u.key.value == key
    requires NormalizeKey(key) == Some(key) && SqlKey(key) == key
    ensures var r := CacheAccepted(Some(store), u);
            && ByKeyOnly([], r, key) == Accepted(u) && KeyOnlyFromDb([], key) == Refused(404)
            && var gone := u.(deleted := true);
               ByKeyOnly([gone], r, key) == Accepted(u) && KeyOnlyFromDb([gone], key) == Accepted(gone)
  {
    LowerTwice(u.username);
    assert Lower(u.username) != "";
    var r := CacheAccepted(Some(store), u);
    assert IndexedName(r, key) == Lower(u.username);
    assert Cached(r, Lower(u.username)) == Returned(Some(u));
  }

  /** With any cache contents and the user in the database, the validator by name and key answers as the
      database alone exactly when the key index names nobody else, or the key is not the user's. */
  lemma NamedKeyTransparentIff(rows: seq<User>, r: Redis, name: string, key: string)
    requires NormalizeKey(key).Some? && Live(rows, name).Some?
    ensures var n := NormalizeKey(key).value;
            var stored := Live(rows, name).value.key.GetOr("");
            ByNamedKey(rows, r, name, key) == NamedKeyFromDb(rows, name, key) <==>
              || !IndexDisagrees(r, name, n)
              || stored == ""
              || (NormalizeKey(stored).Some? && NormalizeKey(stored).value != n)
  {}

  /** A stored key with white space around it would make a difference even for a fresh copy: the database
      alone refuses what the cache accepts. No writer of the column leaves such a key: each stores the
      canonical or a generated one. */
  lemma SpacedKeyIsAcceptedOnlyFromCache(u: User, key: string, r: Redis)
    requires r.Some? && u.username != "" && !u.deleted && u.key.Some? && u.key.value != ""
    requires NormalizeKey(key).Some? && NormalizeKey(u.key.value) == NormalizeKey(key) && !Solid(u.key.value)
    requires Lower(u.username) != ""
    ensures ByKeyOnly([u], CacheAccepted(r, u), key) == Accepted(u)
    ensures KeyOnlyFromDb([u], key) == Refused(404)
  {
    var n := NormalizeKey(key).value;
    SqlSeesNormalKeyIff(u.key.value);
    LowerTwice(u.username);
    assert IndexedName(CacheAccepted(r, u), n) == Lower(u.username);
    assert Live([u], Lower(u.username)) == Some(u);
  }

  /** Removing dashes, character by character. */
  lemma {:induction false} NoDashesIs(a: string, b: string, c: char)
    ensures NoDashes(a + b) == NoDashes(a) + NoDashes(b)
    ensures NoDashes([c]) == if c == '-' then "" else [c]
  {
    assert [c][1..] == "";
    if a == [] {
      assert a + b == b;
    } else {
      NoDashesIs(a[1..], b, c);
      assert (a + b)[0] == a[0] && (a + b)[1..] == a[1..] + b;
      var first := if a[0] == '-' then "" else [a[0]];
      assert NoDashes(a + b) == first + (NoDashes(a[1..]) + NoDashes(b));
    }
  }

  /** A key in the usual form, 32 hexadecimal digits in either case with dashes anywhere, is accepted as its
      digits in lower case, and nothing is accepted that is not 32 such digits. */
  lemma NormalizeKeyIs(key: string)
    ensures NormalizeKey(key).Some? ==>
      && |NormalizeKey(key).value| == 32
      && forall c <- NormalizeKey(key).value :: '0' <= c <= '9' || 'a' <= c <= 'f'
    ensures |NoDashes(key)| == 32 && (forall c <- NoDashes(key) :: '0' <= c <= '9' || 'a' <= c <= 'f' || 'A' <= c <= 'F') ==>
      NormalizeKey(key) == Some(Lower(NoDashes(key)))
  {
    var bare := NoDashes(key);
    if |bare| == 32 && forall c <- bare :: '0' <= c <= '9' || 'a' <= c <= 'f' || 'A' <= c <= 'F' {
      StripKeeps(bare);
      forall c | c in Lower(bare) ensures IsHex(c) {
        var i :| 0 <= i < 32 && Lower(bare)[i] == c;
        assert bare[i] in bare;
      }
    }
  }

  /** When the database alone accepts a stored user by name and key: exactly when the stored key, if it is a
      key, has the same digits. A stored key that is none raises. */
  lemma NamedKeyAcceptedIff(rows: seq<User>, name: string, key: string, u: User)
    requires u in rows && !u.deleted && name != "" && Lower(u.username) == Lower(name)
    requires forall v <- rows :: Lower(v.username) == Lower(name) && !v.deleted ==> v == u
    ensures NamedKeyFromDb(rows, name, key) ==
      if NormalizeKey(key).None? then Refused(400)
      else if u.key.None? || u.key.value == "" then Refused(404)
      else if NormalizeKey(u.key.value).None? then Crashed
      else if NormalizeKey(u.key.value) == NormalizeKey(key) then Accepted(u)
      else Refused(404)
  {
    assert FirstLive(rows, name) == Some(u);
  }

  /** Without a live row of that name, the first row of it that has a key is judged, even one marked deleted. */
  lemma NamedKeyOfDeleted(rows: seq<User>, name: string, key: string)
    requires NormalizeKey(key).Some? && forall v <- rows :: Lower(v.username) == Lower(name) ==> v.deleted
    ensures NamedKeyFromDb(rows, name, key).Accepted? ==>
      var u := NamedKeyFromDb(rows, name, key).user;
      u in rows && Lower(u.username) == Lower(name) && u.key.Some? && NormalizeKey(u.key.value) == NormalizeKey(key)
    ensures (forall v <- rows :: Lower(v.username) == Lower(name) ==> v.key.None?) ==> NamedKeyFromDb(rows, name, key) == Refused(404)
  {
    if FirstNamedWithKey(rows, name).Some? {
      assert FirstNamedWithKey(rows, name).value in rows;
    }
  }

  /** Whoever a key validator accepts, from any caches, has a key with the digits asked for, and the database
      alone accepts by key exactly the first row whose key, in lower case and without dashes, is that. */
  lemma AcceptedHasKey(rows: seq<User>, r: Redis, name: string, key: string)
    ensures ByNamedKey(rows, r, name, key).Accepted? ==>
      var u := ByNamedKey(rows, r, name, key).user;
      NormalizeKey(key).Some? && u.key.Some? && NormalizeKey(u.key.value) == NormalizeKey(key)
    ensures ByKeyOnly(rows, r, key).Accepted? ==>
      var u := ByKeyOnly(rows, r, key).user;
      NormalizeKey(key).Some? && u.key.Some? && NormalizeKey(u.key.value) == NormalizeKey(key)
    ensures NormalizeKey(key).None? <==> KeyOnlyFromDb(rows, key) == Refused(400)
    ensures KeyOnlyFromDb(rows, key).Accepted? <==>
      NormalizeKey(key).Some? && exists v <- rows :: v.key.Some? && NoDashes(Lower(v.key.value)) == NormalizeKey(key).value
  {
    if NormalizeKey(key).Some? {
      var n := NormalizeKey(key).value;
      NormalizeKeyIs(key);
      var found := FirstWithKey(rows, n);
      if found.Some? {
        SqlKeyIsNormal(found.value.key.value, n);
      }
    }
  }

  lemma LowerTwice(s: string)
    ensures Lower(Lower(s)) == Lower(s)
  {}

  // ---------- what the validators leave in the caches ----------

  function ByTokenWrites(rows: seq<User>, r: Redis, payload: Option<Payload>): Redis {
    if payload.None? || payload.value.createdAt.None? then r
    else Remember(GetUserWrites(rows, r, payload.value.username), ByToken(rows, r, payload))
  }

  /** An accepted user's entries are written again. */
  function Remember(r: Redis, reply: Reply): Redis {
    if reply.Accepted? then CacheAccepted(r, reply.user) else r
  }

  /** The cached entry has a key, so the user is looked up afresh. */
  predicate LooksUp(r: Redis, name: string) {
    var c := Cached(r, name);
    c.Returned? && c.value.Some? && c.value.value.key.GetOr("") != ""
  }

  function LookUpWrites(rows: seq<User>, r: Redis, name: string): Redis {
    if LooksUp(r, name) then GetUserWrites(rows, r, name) else r
  }

  function ByKeyOnlyWrites(rows: seq<User>, r: Redis, key: string): Redis {
    var n := NormalizeKey(key);
    if n.None? then r
    else Remember(LookUpWrites(rows, r, IndexedName(r, n.value)), ByKeyOnly(rows, r, key))
  }

  function ByNamedKeyWrites(rows: seq<User>, r: Redis, name: string, key: string): Redis {
    var n := NormalizeKey(key);
    if n.None? || IndexDisagrees(r, name, n.value) then r
    else
      var looked := LookUpWrites(rows, r, name);
      Remember(if CachedKeyHit(rows, r, name, n.value).Some? then looked else GetUserWrites(rows, looked, name),
               ByNamedKey(rows, r, name, key))
  }

  /** Looking a user up does not change what the next lookup finds. */
  lemma LookingUpTwice(rows: seq<User>, r: Redis, name: string)
    ensures GetUser(rows, GetUserWrites(rows, r, name), name) == GetUser(rows, r, name)
  {}

  lemma {:induction false} StripKeeps(s: string)
    requires forall c <- s :: !Text.IsSpace(c)
    ensures Text.Strip(s) == s
  {
    if s != [] {
      assert s[0] in s && s[|s| - 1] in s;
      Text.StripSolid(s);
    }
  }

  /** A stored key the SQL filter finds for a canonical key is accepted by `normalize_key` as well. */
  lemma SqlKeyIsNormal(key: string, n: string)
    requires SqlKey(key) == n && |n| == 32 && forall c <- n :: IsHex(c)
    ensures NormalizeKey(key) == Some(n)
  {
    DashesAndCase(key);
    var bare := NoDashes(key);
    forall c | c in bare ensures !Text.IsSpace(c) {
      var i :| 0 <= i < |bare| && bare[i] == c;
      assert n[i] == LowerChar(c) && n[i] in n;
    }
    StripKeeps(bare);
  }

  /** After the key-only validator accepted a live user, the index and the user entry are right again,
      and the same call made again is answered the same from the cache. */
  lemma AcceptedKeyIsRemembered(rows: seq<User>, r: Redis, key: string, u: User)
    requires r.Some? && ByKeyOnly(rows, r, key) == Accepted(u) && Live(rows, Lower(u.username)) == Some(u)
    ensures var r' := ByKeyOnlyWrites(rows, r, key);
            && IndexedName(r', NormalizeKey(key).value) == Lower(u.username)
            && Cached(r', u.username) == Returned(Some(u))
            && CachedKeyHit(rows, r', Lower(u.username), NormalizeKey(key).value) == Some(u)
            && ByKeyOnly(rows, r', key) == Accepted(u)
  {
    var n := NormalizeKey(key).value;
    if CachedKeyHit(rows, r, IndexedName(r, n), n).None? {
      SqlKeyIsNormal(u.key.value, n);
    }
    LowerTwice(u.username);
  }

  // ---------- warming up ----------

  function WarmOne(r: Redis, u: User): Redis {
    if u.deleted || u.username == "" then r else CacheSubscription(r, u.username, u.key)
  }

  function Warmed(r: Redis, rows: seq<User>): Redis {
    if rows == [] then r else WarmOne(Warmed(r, rows[..|rows| - 1]), rows[|rows| - 1])
  }

  lemma {:induction false} WarmUpIndexes(r: Redis, rows: seq<User>, u: User, n: string)
    requires r.Some? && HasKey(u, n) && !u.deleted && u.username != ""
    requires forall v <- rows :: HasKey(v, n) && !v.deleted ==> v == u
    ensures Warmed(r, rows).Some?
    ensures IndexedName(Warmed(r, rows), n) == if u in rows then Lower(u.username) else IndexedName(r, n)
  {
    if rows != [] {
      var front, last := rows[..|rows| - 1], rows[|rows| - 1];
      assert rows == front + [last];
      assert forall v <- front :: v in rows;
      assert last in rows;
      WarmUpIndexes(r, front, u, n);
    }
  }

  /** After a warm-up over any stale contents, the validator by name and key answers as the database
      alone for every live user and every key, provided the live users' keys are well formed and
      distinct. */
  lemma WarmUpMakesNamedKeyTransparent(rows: seq<User>, r: Redis, name: string, key: string)
    requires r.Some? && Live(rows, name).Some?
    requires forall u <- rows :: !u.deleted && u.key.GetOr("") != "" ==> NormalizeKey(u.key.value).Some?
    requires forall u, v, n | u in rows && v in rows && !u.deleted && !v.deleted && HasKey(u, n) && HasKey(v, n) :: u == v
    ensures ByNamedKey(rows, Warmed(r, rows), name, key) == NamedKeyFromDb(rows, name, key)
  {
    if NormalizeKey(key).Some? {
      var n := NormalizeKey(key).value;
      var u := Live(rows, name).value;
      assert Lower(u.username) == Lower(name) != "";
      NamedKeyTransparentIff(rows, Warmed(r, rows), name, key);
      if HasKey(u, n) {
        WarmUpIndexes(r, rows, u, n);
        LowerTwice(u.username);
      }
    }
  }

  const BATCH_SIZE := 1000

  class SubscriptionCache {
    var redis: Redis

    constructor (redis: Redis)
      ensures this.redis == redis
    {
      this.redis := redis;
    }

    method CacheUserNow(u: User)
      modifies this
      ensures redis == CacheUser(old(redis), u)
    {
      if redis.Some? {
        var s := redis.value;
        redis := Some(s.(users := s.users[Lower(u.username) := Copy(u)]));
      }
    }

    method CacheSubscriptionNow(username: string, key: Option<string>)
      modifies this
      ensures redis == CacheSubscription(old(redis), username, key)
    {
      if redis.Some? {
        var s := redis.value;
        s := s.(names := s.names + {Lower(username)});
        if key.Some? {
          var n := NormalizeKey(key.value);
          if n.Some? {
            s := s.(keyIndex := s.keyIndex[n.value := Lower(username)]);
          }
        }
        redis := Some(s);
      }
    }

    method LookUp(rows: seq<User>, name: string) returns (u: Option<User>)
      modifies this
      ensures u == GetUser(rows, old(redis), name)
      ensures redis == GetUserWrites(rows, old(redis), name)
    {
      var cached := Cached(redis, name);
      if redis.Some? && cached == Returned(None) && name != "" {
        var row := FirstNamed(rows, name);
        if row.Some? {
          CacheUserNow(row.value);
        }
        cached := Returned(row);
      }
      var live := Live(rows, name);
      if live.Some? {
        CacheUserNow(live.value);
        return live;
      }
      return if cached.Returned? then cached.value else None;
    }

    method ValidateByToken(rows: seq<User>, payload: Option<Payload>) returns (reply: Reply)
      modifies this
      ensures reply == ByToken(rows, old(redis), payload)
      ensures redis == ByTokenWrites(rows, old(redis), payload)
    {
      if payload.None? || payload.value.createdAt.None? {
        return Refused(404);
      }
      var name, issued := payload.value.username, Instant(payload.value.createdAt.value);
      var cached := Cached(redis, name);
      if cached.Returned? && cached.value.Some? {
        var copy := cached.value.value;
        var found := LookUp(rows, name);
        var user := found.GetOr(copy);
        if user.createdAt.None? || Instant(user.createdAt.value) > issued {
          return Refused(404);
        }
        if user.revokedAt.Some? && Instant(user.revokedAt.value) > issued {
          return Refused(404);
        }
        CacheSubscriptionNow(user.username, user.key);
        CacheUserNow(user);
        return Accepted(user);
      }
      var row := LookUp(rows, name);
      if row.None? || row.value.createdAt.None? || Instant(row.value.createdAt.value) > issued {
        return Refused(404);
      }
      if row.value.revokedAt.Some? && Instant(row.value.revokedAt.value) > issued {
        return Refused(404);
      }
      CacheUserNow(row.value);
      CacheSubscriptionNow(row.value.username, row.value.key);
      return Accepted(row.value);
    }

    /** The cached part of both key validators. */
    method TryCachedKey(rows: seq<User>, name: string, n: string) returns (hit: Option<User>)
      modifies this
      ensures hit == CachedKeyHit(rows, old(redis), name, n)
      ensures hit.None? ==> redis == LookUpWrites(rows, old(redis), name)
      ensures hit.Some? ==> redis == CacheAccepted(LookUpWrites(rows, old(redis), name), hit.value)
    {
      var cached := Cached(redis, name);
      if cached.Raised? || cached.value.None? || cached.value.value.key.GetOr("") == "" {
        return None;
      }
      var found := LookUp(rows, name);
      var user := found.GetOr(cached.value.value);
      if user.key.None? || NormalizeKey(user.key.value) != Some(n) {
        return None;
      }
      CacheSubscriptionNow(user.username, user.key);
      CacheUserNow(user);
      return Some(user);
    }

    method ValidateByKeyOnly(rows: seq<User>, key: string) returns (reply: Reply)
      modifies this
      ensures reply == ByKeyOnly(rows, old(redis), key)
      ensures redis == ByKeyOnlyWrites(rows, old(redis), key)
    {
      var n := NormalizeKey(key);
      if n.None? {
        return Refused(400);
      }
      var name := IndexedName(redis, n.value);
      if name != "" {
        var hit := TryCachedKey(rows, name, n.value);
        if hit.Some? {
          return Accepted(hit.value);
        }
      }
      var row := FirstWithKey(rows, n.value);
      if row.None? {
        return Refused(404);
      }
      CacheUserNow(row.value);
      CacheSubscriptionNow(row.value.username, row.value.key);
      return Accepted(row.value);
    }

    method ValidateByNamedKey(rows: seq<User>, name: string, key: string) returns (reply: Reply)
      modifies this
      ensures reply == ByNamedKey(rows, old(redis), name, key)
      ensures redis == ByNamedKeyWrites(rows, old(redis), name, key)
    {
      var n := NormalizeKey(key);
      if n.None? {
        return Refused(400);
      }
      var indexed := IndexedName(redis, n.value);
      if indexed != "" && Lower(indexed) != Lower(name) {
        return Refused(404);
      }
      var hit := TryCachedKey(rows, name, n.value);
      if hit.Some? {
        return Accepted(hit.value);
      }
      LookingUpTwice(rows, old(redis), name);
      var row := LookUp(rows, name);
      if row.None? {
        row := FirstNamedWithKey(rows, name);
      }
      if row.None? || row.value.key.GetOr("") == "" {
        return Refused(404);
      }
      var stored := NormalizeKey(row.value.key.value);
      if stored.None? {
        return Crashed;
      }
      if stored != n {
        return Refused(404);
      }
      CacheUserNow(row.value);
      CacheSubscriptionNow(row.value.username, row.value.key);
      return Accepted(row.value);
    }

    /** Forgetting one user's subscription entries. */
    method Invalidate(username: string, key: Option<string>)
      modifies this
      ensures old(redis).None? ==> redis.None?
      ensures old(redis).Some? ==>
        && redis.Some?
        && redis.value.users == old(redis).value.users
        && redis.value.names == old(redis).value.names - {Lower(username)}
        && (forall n :: IndexedName(redis, n) ==
              if key.Some? && NormalizeKey(key.value) == Some(n) then "" else IndexedName(old(redis), n))
    {
      if redis.Some? {
        var s := redis.value;
        s := s.(names := s.names - {Lower(username)});
        if key.Some? {
          var n := NormalizeKey(key.value);
          if n.Some? {
            s := s.(keyIndex := s.keyIndex - {n.value});
          }
        }
        redis := Some(s);
      }
    }

    /** Indexing every live user, in pipelines of `BATCH_SIZE` users. */
    method WarmUp(rows: seq<User>) returns (total: nat, cachedCount: nat)
      modifies this
      ensures redis == Warmed(old(redis), rows)
      ensures old(redis).Some? ==> total == |LiveOf(rows)| && cachedCount == |NamedOf(rows)|
    {
      total, cachedCount := 0, 0;
      if redis.None? {
        WarmedOff(rows);
        return;
      }
      var pipe: seq<User> := [];
      for i := 0 to |rows|
        invariant redis.Some? && Applied(redis, pipe) == Warmed(old(redis), rows[..i])
        invariant total == |LiveOf(rows[..i])| && cachedCount + |pipe| == |NamedOf(rows[..i])|
      {
        assert rows[..i + 1][..i] == rows[..i];
        if rows[i].deleted {
          continue;
        }
        total := total + 1;
        if rows[i].username == "" {
          continue;
        }
        assert (pipe + [rows[i]])[..|pipe|] == pipe;
        pipe := pipe + [rows[i]];
        if |pipe| >= BATCH_SIZE {
          Execute(pipe);
          cachedCount, pipe := cachedCount + |pipe|, [];
        }
      }
      assert rows[..|rows|] == rows;
      Execute(pipe);
      cachedCount := cachedCount + |pipe|;
    }

    method Execute(pipe: seq<User>)
      modifies this
      ensures redis == Applied(old(redis), pipe)
      ensures old(redis).Some? ==> redis.Some?
    {
      for i := 0 to |pipe|
        invariant redis == Applied(old(redis), pipe[..i])
        invariant old(redis).Some? ==> redis.Some?
      {
        assert pipe[..i + 1][..i] == pipe[..i];
        CacheSubscriptionNow(pipe[i].username, pipe[i].key);
      }
      assert pipe[..|pipe|] == pipe;
    }
  }

  function Applied(r: Redis, pipe: seq<User>): Redis {
    if pipe == [] then r
    else CacheSubscription(Applied(r, pipe[..|pipe| - 1]), pipe[|pipe| - 1].username, pipe[|pipe| - 1].key)
  }

  function LiveOf(rows: seq<User>): seq<User> {
    if rows == [] then [] else LiveOf(rows[..|rows| - 1]) + (if rows[|rows| - 1].deleted then [] else [rows[|rows| - 1]])
  }

  function NamedOf(rows: seq<User>): seq<User> {
    if rows == [] then []
    else
      var last := rows[|rows| - 1];
      NamedOf(rows[..|rows| - 1]) + (if last.deleted || last.username == "" then [] else [last])
  }

  /** The two counts of a warm-up: the rows not deleted, and those of them that have a name. */
  lemma WarmUpCounts(rows: seq<User>)
    ensures |LiveOf(rows)| == |set i: nat | i < |rows| && !rows[i].deleted|
    ensures |NamedOf(rows)| == |set i: nat | i < |rows| && !rows[i].deleted && rows[i].username != ""|
  {
    LiveCount(rows);
    NamedCount(rows);
  }

  lemma {:induction false} LiveCount(rows: seq<User>)
    ensures |LiveOf(rows)| == |set i: nat | i < |rows| && !rows[i].deleted|
  {
    if rows != [] {
      var n, init := |rows| - 1, rows[..|rows| - 1];
      LiveCount(init);
      var had := set i: nat | i < |init| && !init[i].deleted;
      assert (set i: nat | i < |rows| && !rows[i].deleted) == if rows[n].deleted then had else had + {n};
    }
  }

  lemma {:induction false} NamedCount(rows: seq<User>)
    ensures |NamedOf(rows)| == |set i: nat | i < |rows| && !rows[i].deleted && rows[i].username != ""|
  {
    if rows != [] {
      var n, init := |rows| - 1, rows[..|rows| - 1];
      NamedCount(init);
      var had := set i: nat | i < |init| && !init[i].deleted && init[i].username != "";
      assert (set i: nat | i < |rows| && !rows[i].deleted && rows[i].username != "")
          == if rows[n].deleted || rows[n].username == "" then had else had + {n};
    }
  }

  lemma {:induction false} WarmedOff(rows: seq<User>)
    ensures Warmed(None, rows) == None
  {
    if rows != [] {
      WarmedOff(rows[..|rows| - 1]);
    }
  }
}
