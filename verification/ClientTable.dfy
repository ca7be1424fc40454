/** Full generation: the client lists of every inbound, rebuilt from the database. */
module ClientTable {
  import opened Prelude
  import opened Inbounds
  import opened Eligibility
  import Text

  datatype Db = Db(users: map<nat, User>, hosts: seq<Host>)

  /** Credential keys: which are well formed, and the UUID or password derived from one. */
  datatype Keys = Keys(wellFormed: string -> bool, derive: (string, ProxyType) -> string)

  // ---------- emails ----------

  function Email(id: nat, username: string): string {
    Text.Decimal(id) + ['.'] + username
  }

  /** The email determines the user: ids have no dot, so the first dot ends the id. */
  lemma EmailInjective(a: nat, b: nat, u: string, v: string)
    requires Email(a, u) == Email(b, v)
    ensures a == b && u == v
  {
    Text.FindInConcat(Text.Decimal(a), '.', u);
    Text.FindInConcat(Text.Decimal(b), '.', v);
    var n := |Text.Decimal(a)|;
    assert Email(a, u)[..n] == Text.Decimal(a) && Email(b, v)[..n] == Text.Decimal(b);
    assert Email(a, u)[n + 1..] == u && Email(b, v)[n + 1..] == v;
    Text.NumberOfDecimal(a);
    Text.NumberOfDecimal(b);
  }

  // ---------- the account a user wants on an inbound ----------

  predicate UsesUuid(t: ProxyType) {
    t == VMess || t == VLESS
  }

  function GoodKey(key: Option<string>): Option<string> {
    if key.Some? && key.value != "" then key else None
  }

  predicate HasSecret(p: Proxy) {
    p.secret.GetOr("") != ""
  }

  /** `runtime_proxy_settings`: a malformed key raises; the stored secret wins over the derived one;
      without either, UUID protocols raise, and a password stays as it is stored, null or empty: the
      default meant for it is never taken, because the settings always have the entry. */
  function Secret(keys: Keys, p: Proxy, key: Option<string>): Outcome<Option<string>> {
    match GoodKey(key)
    case Some(k) =>
      if !keys.wellFormed(k) then Raised
      else if HasSecret(p) then Returned(p.secret)
      else Returned(Some(keys.derive(k, p.kind)))
    case None => if UsesUuid(p.kind) && !HasSecret(p) then Raised else Returned(p.secret)
  }

  /** The flow is the user's, or else the one stored with the proxy, for the two protocols that have one. */
  predicate HasFlow(u: User, p: Proxy) {
    (p.kind == VLESS || p.kind == Trojan) && (u.vision || p.flow)
  }

  /** The client that full generation adds for a proxy, if any. */
  function AccountOn(keys: Keys, i: Inbound, u: User, p: Proxy): Option<Account> {
    match Secret(keys, p, u.key)
    case Returned(secret) => Some(Account(p.kind, secret, HasFlow(u, p) && i.flowCapable))
    case Raised => None
  }

  /** The user's proxy for a protocol. */
  function ProxyFor(proxies: seq<Proxy>, protocol: string): Option<Proxy> {
    if proxies == [] then None
    else if Protocol(proxies[0].kind) == protocol then Some(proxies[0])
    else ProxyFor(proxies[1..], protocol)
  }

  predicate OnePerType(proxies: seq<Proxy>) {
    forall i, j :: 0 <= i < j < |proxies| ==> proxies[i].kind != proxies[j].kind
  }

  lemma {:induction false} ProxyForIs(proxies: seq<Proxy>, p: Proxy)
    requires OnePerType(proxies) && p in proxies
    ensures ProxyFor(proxies, Protocol(p.kind)) == Some(p)
  {
    if proxies[0] == p {
    } else {
      assert p in proxies[1..];
      if Protocol(proxies[0].kind) == Protocol(p.kind) {
        ProtocolsDiffer(proxies[0].kind, p.kind);
      } else {
        ProxyForIs(proxies[1..], p);
      }
    }
  }

  lemma {:induction false} ProxyForMember(proxies: seq<Proxy>, protocol: string)
    ensures match ProxyFor(proxies, protocol)
            case Some(p) => p in proxies && Protocol(p.kind) == protocol
            case None => forall p <- proxies :: Protocol(p.kind) != protocol
  {
    if proxies != [] && Protocol(proxies[0].kind) != protocol {
      ProxyForMember(proxies[1..], protocol);
      assert forall p :: p in proxies <==> p == proxies[0] || p in proxies[1..];
    }
  }

  /** What full generation would give a user on one inbound, were the user enabled. */
  function Wanted(keys: Keys, ix: Index, hosts: seq<Host>, u: User, tag: string): Option<Account> {
    if tag !in ix.byTag then None
    else
      match ProxyFor(u.proxies, ix.byTag[tag].protocol)
      case Some(p) =>
        if Offered(hosts, u, p, tag) then AccountOn(keys, ix.byTag[tag], u, p) else None
      case None => None
  }

  predicate ValidUser(u: User) {
    && OnePerType(u.proxies)
    && forall p <- u.proxies :: forall t <- p.excluded :: ',' !in t
  }

  predicate ValidDb(ix: Index, db: Db) {
    && ValidHosts(ix, db.hosts)
    && forall id <- db.users :: ValidUser(db.users[id])
  }

  // ---------- the meaning of the generated configuration ----------

  function ClientsOf(raw: seq<RawInbound>, tag: string): seq<Client> {
    if raw == [] then []
    else if raw[0].tag == tag then raw[0].clients
    else ClientsOf(raw[1..], tag)
  }

  function FindClient(clients: seq<Client>, email: string): Option<Account> {
    if clients == [] then None
    else if clients[0].email == email then Some(clients[0].account)
    else FindClient(clients[1..], email)
  }

  /** Clients written into the configuration by hand have distinct emails, and none of them is the
      email of a user. */
  predicate ForeignClients(raw: seq<RawInbound>, db: Db) {
    forall r <- raw :: DistinctEmails(r.clients) &&
      forall c <- r.clients :: forall id <- db.users :: c.email != Email(id, db.users[id].username)
  }

  predicate DistinctEmails(clients: seq<Client>) {
    forall i, j :: 0 <= i < j < |clients| ==> clients[i].email != clients[j].email
  }

  ghost predicate Owns(db: Db, id: nat, email: string) {
    id in db.users && Email(id, db.users[id].username) == email
  }

  lemma OwnerUnique(db: Db, a: nat, b: nat, email: string)
    requires Owns(db, a, email) && Owns(db, b, email)
    ensures a == b
  {
    EmailInjective(a, b, db.users[a].username, db.users[b].username);
  }

  /** The account the database calls for under an email on an inbound: the hand-written client, or
      what the enabled user of that email wants. */
  ghost function Expected(keys: Keys, raw: seq<RawInbound>, ix: Index, db: Db, tag: string, email: string): Option<Account> {
    if tag !in ix.byTag then None
    else if FindClient(ClientsOf(raw, tag), email).Some? then FindClient(ClientsOf(raw, tag), email)
    else if exists id: nat :: Owns(db, id, email) then
      var id: nat :| Owns(db, id, email);
      if db.users[id].enabled then Wanted(keys, ix, db.hosts, db.users[id], tag) else None
    else None
  }

  // ---------- include_db_users ----------

  /** A row of the user-proxy join over enabled users. */
  datatype JoinRow = JoinRow(id: nat, user: User, proxy: Proxy)

  /** The rows are the join, in whatever order the database returns them. */
  predicate IsJoin(db: Db, rows: seq<JoinRow>) {
    && (forall r <- rows :: r.id in db.users && r.user == db.users[r.id] && r.user.enabled && r.proxy in r.user.proxies)
    && (forall i, j :: 0 <= i < j < |rows| ==> rows[i].id != rows[j].id || rows[i].proxy.kind != rows[j].proxy.kind)
    && (forall id <- db.users :: db.users[id].enabled ==>
          forall p <- db.users[id].proxies :: JoinRow(id, db.users[id], p) in rows)
  }

  /** The client a row contributes to an inbound of its protocol, if any. */
  function RowClient(keys: Keys, i: Inbound, hosts: seq<Host>, r: JoinRow): seq<Client> {
    if Protocol(r.proxy.kind) == i.protocol && Offered(hosts, r.user, r.proxy, i.tag) then
      match AccountOn(keys, i, r.user, r.proxy)
      case Some(account) => [Client(Email(r.id, r.user.username), account)]
      case None => []
    else []
  }

  function RowClients(keys: Keys, i: Inbound, hosts: seq<Host>, rows: seq<JoinRow>): seq<Client> {
    if rows == [] then []
    else RowClients(keys, i, hosts, rows[..|rows| - 1]) + RowClient(keys, i, hosts, rows[|rows| - 1])
  }

  lemma {:induction false} RowClientMembers(keys: Keys, i: Inbound, hosts: seq<Host>, rows: seq<JoinRow>)
    ensures forall c <- RowClients(keys, i, hosts, rows) :: exists r <- rows :: c in RowClient(keys, i, hosts, r)
    ensures forall r <- rows :: forall c <- RowClient(keys, i, hosts, r) :: c in RowClients(keys, i, hosts, rows)
  {
    if rows != [] {
      RowClientMembers(keys, i, hosts, rows[..|rows| - 1]);
      assert rows == rows[..|rows| - 1] + [rows[|rows| - 1]];
    }
  }

  lemma {:induction false} RowClientsDistinct(keys: Keys, i: Inbound, hosts: seq<Host>, rows: seq<JoinRow>)
    requires forall a, b :: 0 <= a < b < |rows| ==> rows[a].id != rows[b].id || rows[a].proxy.kind != rows[b].proxy.kind
    ensures DistinctEmails(RowClients(keys, i, hosts, rows))
  {
    if rows != [] {
      var init, last := rows[..|rows| - 1], rows[|rows| - 1];
      RowClientsDistinct(keys, i, hosts, init);
      RowClientMembers(keys, i, hosts, init);
      var had, new_ := RowClients(keys, i, hosts, init), RowClient(keys, i, hosts, last);
      if new_ != [] {
        forall c | c in had ensures c.email != new_[0].email {
          var r :| r in init && c in RowClient(keys, i, hosts, r);
          var k :| 0 <= k < |init| && init[k] == r;
          assert rows[k] == r;
          if c.email == new_[0].email {
            EmailInjective(r.id, last.id, r.user.username, last.user.username);
            ProtocolsDiffer(r.proxy.kind, last.proxy.kind);
          }
        }
      }
    }
  }

  lemma {:induction false} FindDistinct(clients: seq<Client>, c: Client)
    requires DistinctEmails(clients) && c in clients
    ensures FindClient(clients, c.email) == Some(c.account)
  {
    if clients[0] != c {
      assert c in clients[1..];
      var k :| 0 <= k < |clients| && clients[k] == c;
      FindDistinct(clients[1..], c);
    }
  }

  lemma {:induction false} FindMember(clients: seq<Client>, email: string)
    ensures match FindClient(clients, email)
            case Some(account) => Client(email, account) in clients
            case None => forall c <- clients :: c.email != email
  {
    if clients != [] && clients[0].email != email {
      FindMember(clients[1..], email);
      assert forall c :: c in clients <==> c == clients[0] || c in clients[1..];
    }
  }

  lemma {:induction false} FindAppend(a: seq<Client>, b: seq<Client>, email: string)
    ensures FindClient(a + b, email) == if FindClient(a, email).Some? then FindClient(a, email) else FindClient(b, email)
  {
    if a == [] {
      assert a + b == b;
    } else {
      FindAppend(a[1..], b, email);
      assert (a + b)[1..] == a[1..] + b;
    }
  }

  /** A generated list: the hand-written clients, then one per eligible row. */
  function Generated(keys: Keys, raw: seq<RawInbound>, i: Inbound, hosts: seq<Host>, rows: seq<JoinRow>): seq<Client> {
    ClientsOf(raw, i.tag) + RowClients(keys, i, hosts, rows)
  }

  /** A user's row client is what the user wants, and nobody else's rows yield the user's email. */
  lemma RowsGiveWanted(keys: Keys, ix: Index, db: Db, rows: seq<JoinRow>, i: Inbound, email: string)
    requires Agrees(ix) && ValidDb(ix, db) && IsJoin(db, rows) && i.tag in ix.byTag && ix.byTag[i.tag] == i
    ensures var clients := RowClients(keys, i, db.hosts, rows);
            && DistinctEmails(clients)
            && (forall id: nat :: Owns(db, id, email) ==>
                  FindClient(clients, email)
                  == if db.users[id].enabled then Wanted(keys, ix, db.hosts, db.users[id], i.tag) else None)
            && ((forall id: nat :: !Owns(db, id, email)) ==> FindClient(clients, email) == None)
  {
    var clients := RowClients(keys, i, db.hosts, rows);
    RowClientsDistinct(keys, i, db.hosts, rows);
    RowClientMembers(keys, i, db.hosts, rows);
    FindMember(clients, email);
    var found := FindClient(clients, email);
    if found.Some? {
      var r :| r in rows && Client(email, found.value) in RowClient(keys, i, db.hosts, r);
      assert Owns(db, r.id, email);
      ProxyForIs(r.user.proxies, r.proxy);
      forall id: nat | Owns(db, id, email) ensures id == r.id {
        OwnerUnique(db, id, r.id, email);
      }
    } else {
      forall id: nat | Owns(db, id, email) && db.users[id].enabled
        ensures Wanted(keys, ix, db.hosts, db.users[id], i.tag) == None
      {
        NoRowNoneWanted(keys, ix, db.hosts, rows, i, id, db.users[id]);
      }
    }
  }

  lemma NoRowNoneWanted(keys: Keys, ix: Index, hosts: seq<Host>, rows: seq<JoinRow>, i: Inbound, id: nat, u: User)
    requires i.tag in ix.byTag && ix.byTag[i.tag] == i
    requires forall p <- u.proxies :: JoinRow(id, u, p) in rows
    requires FindClient(RowClients(keys, i, hosts, rows), Email(id, u.username)) == None
    ensures Wanted(keys, ix, hosts, u, i.tag) == None
  {
    var clients := RowClients(keys, i, hosts, rows);
    ProxyForMember(u.proxies, i.protocol);
    var wanted := Wanted(keys, ix, hosts, u, i.tag);
    if wanted.Some? {
      var r := JoinRow(id, u, ProxyFor(u.proxies, i.protocol).value);
      var c := Client(Email(id, u.username), wanted.value);
      assert RowClient(keys, i, hosts, r) == [c];
      RowClientMembers(keys, i, hosts, rows);
      assert c in clients by { assert r in rows && c in RowClient(keys, i, hosts, r); }
      FindMember(clients, Email(id, u.username));
    }
  }

  /** The generated lists are exactly what the database calls for, with at most one client per email. */
  lemma GeneratedIsExpected(keys: Keys, raw: seq<RawInbound>, ix: Index, db: Db, rows: seq<JoinRow>,
                            i: Inbound, email: string)
    requires Agrees(ix) && ValidDb(ix, db) && IsJoin(db, rows) && ForeignClients(raw, db)
    requires i.tag in ix.byTag && ix.byTag[i.tag] == i
    ensures var clients := Generated(keys, raw, i, db.hosts, rows);
            && DistinctEmails(clients)
            && FindClient(clients, email) == Expected(keys, raw, ix, db, i.tag, email)
  {
    var had, added := ClientsOf(raw, i.tag), RowClients(keys, i, db.hosts, rows);
    RowsGiveWanted(keys, ix, db, rows, i, email);
    FindAppend(had, added, email);
    if id: nat :| Owns(db, id, email) {
      forall other: nat | Owns(db, other, email) ensures other == id {
        OwnerUnique(db, other, id, email);
      }
    }
    ClientsOfForeign(raw, db, i.tag);
    RowClientMembers(keys, i, db.hosts, rows);
    forall a, b | 0 <= a < |had| && 0 <= b < |added| ensures had[a].email != added[b].email {
      assert had[a] in had && added[b] in added;
      var r :| r in rows && added[b] in RowClient(keys, i, db.hosts, r);
      assert r.id in db.users;
    }
  }

  lemma RowClientIsExactly(keys: Keys, i: Inbound, hosts: seq<Host>, r: JoinRow, c: Client)
    ensures c in RowClient(keys, i, hosts, r) <==>
      var (u, p, a) := (r.user, r.proxy, c.account);
      && c.email == Email(r.id, u.username)
      && a.kind == p.kind
      && i.protocol == (match p.kind case VMess => "vmess" case VLESS => "vless" case Trojan => "trojan" case Shadowsocks => "shadowsocks")
      && (if u.service.Some? then exists h <- hosts :: !h.isDisabled && u.service.value in h.links && h.inboundTag == i.tag
          else i.tag !in p.excluded)
      && (u.key.Some? && u.key.value != "" ==> keys.wellFormed(u.key.value))
      && (p.kind in {VMess, VLESS} ==> (p.secret.Some? && p.secret.value != "") || (u.key.Some? && u.key.value != ""))
      && a.secret == (if p.secret.Some? && p.secret.value != "" then p.secret
                      else if u.key.Some? && u.key.value != "" then Some(keys.derive(u.key.value, p.kind))
                      else p.secret)
      && (a.vision <==> p.kind in {VLESS, Trojan} && (u.vision || p.flow) && i.flowCapable)
  {}

  /** Full generation in the columns: a client stands under a user's email exactly when the user is enabled and
      has a proxy of the inbound's protocol that the service offers there, or that does not exclude the
      inbound; the key, if there is one, is well formed; and a UUID protocol has a stored UUID or a key. The
      secret is the stored one, else the derived one, else as it is stored; the flow is the user's or the
      proxy's, for VLESS and Trojan, where the inbound supports it. */
  lemma GeneratedClientIff(keys: Keys, raw: seq<RawInbound>, ix: Index, db: Db, rows: seq<JoinRow>, i: Inbound, id: nat,
                           a: Account)
    requires Agrees(ix) && ValidDb(ix, db) && IsJoin(db, rows) && ForeignClients(raw, db)
    requires i.tag in ix.byTag && ix.byTag[i.tag] == i && id in db.users
    ensures var u := db.users[id];
      Client(Text.Decimal(id) + "." + u.username, a) in Generated(keys, raw, i, db.hosts, rows) <==>
        u.enabled && exists p <- u.proxies ::
          && a.kind == p.kind
          && i.protocol == (match p.kind case VMess => "vmess" case VLESS => "vless" case Trojan => "trojan" case Shadowsocks => "shadowsocks")
          && (if u.service.Some? then exists h <- db.hosts :: !h.isDisabled && u.service.value in h.links && h.inboundTag == i.tag
              else i.tag !in p.excluded)
          && (u.key.Some? && u.key.value != "" ==> keys.wellFormed(u.key.value))
          && (p.kind in {VMess, VLESS} ==> (p.secret.Some? && p.secret.value != "") || (u.key.Some? && u.key.value != ""))
          && a.secret == (if p.secret.Some? && p.secret.value != "" then p.secret
                          else if u.key.Some? && u.key.value != "" then Some(keys.derive(u.key.value, p.kind))
                          else p.secret)
          && (a.vision <==> p.kind in {VLESS, Trojan} && (u.vision || p.flow) && i.flowCapable)
  {
    var u := db.users[id];
    var c := Client(Email(id, u.username), a);
    var had, added := ClientsOf(raw, i.tag), RowClients(keys, i, db.hosts, rows);
    ClientsOfForeign(raw, db, i.tag);
    RowClientMembers(keys, i, db.hosts, rows);
    assert c in had + added <==> c in added;
    if c in added {
      var r :| r in rows && c in RowClient(keys, i, db.hosts, r);
      RowClientIsExactly(keys, i, db.hosts, r, c);
      EmailInjective(r.id, id, r.user.username, u.username);
      assert r.proxy in u.proxies;
    }
    if u.enabled {
      forall p | p in u.proxies ensures c in RowClient(keys, i, db.hosts, JoinRow(id, u, p)) ==> c in added {
        assert JoinRow(id, u, p) in rows;
      }
      forall p | p in u.proxies {
        RowClientIsExactly(keys, i, db.hosts, JoinRow(id, u, p), c);
      }
    }
  }

  lemma {:induction false} ClientsOfForeign(raw: seq<RawInbound>, db: Db, tag: string)
    requires ForeignClients(raw, db)
    ensures DistinctEmails(ClientsOf(raw, tag))
    ensures forall c <- ClientsOf(raw, tag) :: forall id <- db.users :: c.email != Email(id, db.users[id].username)
  {
    if raw != [] {
      assert raw[0] in raw;
      assert forall r <- raw[1..] :: r in raw;
      ClientsOfForeign(raw[1..], db, tag);
    }
  }

  // ---------- the generating loops ----------

  function OfType(rows: seq<JoinRow>, t: ProxyType): seq<JoinRow> {
    if rows == [] then []
    else
      var init, r := OfType(rows[..|rows| - 1], t), rows[|rows| - 1];
      if r.proxy.kind == t then init + [r] else init
  }

  lemma {:induction false} OnlyOwnTypeCounts(keys: Keys, i: Inbound, hosts: seq<Host>, rows: seq<JoinRow>, t: ProxyType)
    requires Protocol(t) == i.protocol
    ensures RowClients(keys, i, hosts, OfType(rows, t)) == RowClients(keys, i, hosts, rows)
  {
    if rows != [] {
      var init, r := rows[..|rows| - 1], rows[|rows| - 1];
      OnlyOwnTypeCounts(keys, i, hosts, init, t);
      if r.proxy.kind == t {
        assert (OfType(init, t) + [r])[..|OfType(init, t)|] == OfType(init, t);
      } else if Protocol(r.proxy.kind) == i.protocol {
        ProtocolsDiffer(r.proxy.kind, t);
      }
    }
  }

  lemma {:induction false} NoRowOfProtocol(keys: Keys, i: Inbound, hosts: seq<Host>, rows: seq<JoinRow>)
    requires forall r <- rows :: Protocol(r.proxy.kind) != i.protocol
    ensures RowClients(keys, i, hosts, rows) == []
  {
    if rows != [] {
      assert rows[|rows| - 1] in rows;
      assert forall r <- rows[..|rows| - 1] :: r in rows;
      NoRowOfProtocol(keys, i, hosts, rows[..|rows| - 1]);
    }
  }

  /** Group the rows by proxy type, remembering the order of first appearance. */
  method GroupByType(rows: seq<JoinRow>) returns (grouped: map<ProxyType, seq<JoinRow>>, order: seq<ProxyType>)
    ensures forall t: ProxyType :: t in order <==> exists r <- rows :: r.proxy.kind == t
    ensures forall i, j :: 0 <= i < j < |order| ==> order[i] != order[j]
    ensures grouped.Keys == (set t <- order) && forall t <- order :: grouped[t] == OfType(rows, t)
  {
    grouped, order := map[], [];
    for n := 0 to |rows|
      invariant forall t: ProxyType :: t in order <==> exists r <- rows[..n] :: r.proxy.kind == t
      invariant forall i, j :: 0 <= i < j < |order| ==> order[i] != order[j]
      invariant forall t: ProxyType :: t in grouped <==> t in order
      invariant forall t: ProxyType :: GetDefault(grouped, t, []) == OfType(rows[..n], t)
    {
      assert rows[..n + 1][..n] == rows[..n];
      assert rows[..n + 1] == rows[..n] + [rows[n]];
      var t := rows[n].proxy.kind;
      if t !in grouped {
        order := order + [t];
      }
      grouped := grouped[t := GetDefault(grouped, t, []) + [rows[n]]];
    }
    assert rows[..|rows|] == rows;
  }

  /** May the row's user use the inbound: by the tags of the service, or by the excluded tags. */
  method IsAllowed(ix: Index, i: Inbound, hosts: seq<Host>, r: JoinRow, mapLoads: bool) returns (allowed: bool)
    requires Agrees(ix) && ValidHosts(ix, hosts) && i in ix.inbounds
    requires ValidUser(r.user) && r.proxy in r.user.proxies
    ensures allowed == Offered(hosts, r.user, r.proxy, i.tag)
  {
    if r.user.service.Some? {
      AllowedTagsAgree(hosts, ix.byTag.Keys, r.user.service.value, true, mapLoads, i.tag);
      allowed := i.tag in GeneratorTags(hosts, ix.byTag.Keys, r.user.service.value, mapLoads);
    } else {
      ExclusionsSurvive(r.proxy.excluded, i.tag);
      allowed := i.tag !in SplitBack(Concatenated(r.proxy.excluded));
    }
  }

  /** The innermost loop: append the clients of one type's rows to one inbound. */
  method AppendRows(keys: Keys, ix: Index, i: Inbound, hosts: seq<Host>, rows: seq<JoinRow>, mapLoads: bool,
                    clients0: seq<Client>) returns (clients: seq<Client>)
    requires Agrees(ix) && ValidHosts(ix, hosts) && i in ix.inbounds
    requires forall r <- rows :: ValidUser(r.user) && r.proxy in r.user.proxies && Protocol(r.proxy.kind) == i.protocol
    ensures clients == clients0 + RowClients(keys, i, hosts, rows)
  {
    clients := clients0;
    for n := 0 to |rows|
      invariant clients == clients0 + RowClients(keys, i, hosts, rows[..n])
    {
      assert rows[..n + 1][..n] == rows[..n];
      var r := rows[n];
      assert r in rows;
      var allowed := IsAllowed(ix, i, hosts, r, mapLoads);
      if allowed {
        var account := AccountOn(keys, i, r.user, r.proxy);
        if account.Some? {
          clients := clients + [Client(Email(r.id, r.user.username), account.value)];
        }
      }
    }
    assert rows[..|rows|] == rows;
  }

  /** The client lists when only the inbounds in `done` have been filled. */
  function Partial(keys: Keys, raw: seq<RawInbound>, ix: Index, hosts: seq<Host>, rows: seq<JoinRow>,
                   done: seq<Inbound>): map<string, seq<Client>> {
    map tag | tag in ix.byTag ::
      if ix.byTag[tag] in done then Generated(keys, raw, ix.byTag[tag], hosts, rows) else ClientsOf(raw, tag)
  }

  lemma PartialStep(keys: Keys, raw: seq<RawInbound>, ix: Index, hosts: seq<Host>, rows: seq<JoinRow>,
                    done: seq<Inbound>, i: Inbound)
    requires Agrees(ix) && i in ix.inbounds && i !in done
    ensures var before := Partial(keys, raw, ix, hosts, rows, done);
            && i.tag in before && before[i.tag] == ClientsOf(raw, i.tag)
            && before[i.tag := Generated(keys, raw, i, hosts, rows)]
               == Partial(keys, raw, ix, hosts, rows, done + [i])
  {}

  lemma {:induction false} OfTypeMembers(rows: seq<JoinRow>, t: ProxyType)
    ensures forall r :: r in OfType(rows, t) <==> r in rows && r.proxy.kind == t
  {
    if rows != [] {
      OfTypeMembers(rows[..|rows| - 1], t);
      assert rows == rows[..|rows| - 1] + [rows[|rows| - 1]];
    }
  }

  /** One inbound of the type at hand. */
  method FillInbound(keys: Keys, raw: seq<RawInbound>, ix: Index, hosts: seq<Host>, ghost rows: seq<JoinRow>, i: Inbound,
                     typed: seq<JoinRow>, mapLoads: bool, clients0: map<string, seq<Client>>,
                     ghost done: seq<Inbound>)
    returns (clients: map<string, seq<Client>>)
    requires Agrees(ix) && ValidHosts(ix, hosts)
    requires exists t: ProxyType :: Protocol(t) == i.protocol && typed == OfType(rows, t)
    requires forall r <- typed :: ValidUser(r.user) && r.proxy in r.user.proxies && Protocol(r.proxy.kind) == i.protocol
    requires clients0 == Partial(keys, raw, ix, hosts, rows, done)
    requires i in ix.inbounds && i !in done
    ensures clients == Partial(keys, raw, ix, hosts, rows, done + [i])
  {
    PartialStep(keys, raw, ix, hosts, rows, done, i);
    var filled := AppendRows(keys, ix, i, hosts, typed, mapLoads, clients0[i.tag]);
    assert filled == Generated(keys, raw, i, hosts, rows) by {
      ghost var t: ProxyType :| Protocol(t) == i.protocol && typed == OfType(rows, t);
      OnlyOwnTypeCounts(keys, i, hosts, rows, t);
    }
    clients := clients0[i.tag := filled];
  }

  /** The loop over the inbounds of one proxy type. */
  method FillProtocol(keys: Keys, raw: seq<RawInbound>, ix: Index, hosts: seq<Host>, ghost rows: seq<JoinRow>, t: ProxyType,
                      typed: seq<JoinRow>, mapLoads: bool, clients0: map<string, seq<Client>>,
                      ghost done: seq<Inbound>)
    returns (clients: map<string, seq<Client>>)
    requires Agrees(ix) && ValidHosts(ix, hosts) && typed == OfType(rows, t)
    requires forall r <- typed :: ValidUser(r.user) && r.proxy in r.user.proxies && r.proxy.kind == t
    requires clients0 == Partial(keys, raw, ix, hosts, rows, done)
    requires forall i <- done :: i.protocol != Protocol(t)
    ensures clients == Partial(keys, raw, ix, hosts, rows, done + OfProtocol(ix.inbounds, Protocol(t)))
  {
    clients := clients0;
    var inbounds := GetDefault(ix.byProtocol, Protocol(t), []);
    OfProtocolMembers(ix.inbounds, Protocol(t));
    OfProtocolDistinct(ix.inbounds, Protocol(t));
    for m := 0 to |inbounds|
      invariant clients == Partial(keys, raw, ix, hosts, rows, done + inbounds[..m])
    {
      assert inbounds[m] in inbounds && inbounds[m] !in inbounds[..m];
      assert done + inbounds[..m + 1] == done + inbounds[..m] + [inbounds[m]];
      clients := FillInbound(keys, raw, ix, hosts, rows, inbounds[m], typed, mapLoads, clients, done + inbounds[..m]);
    }
    assert inbounds[..|inbounds|] == inbounds;
  }

  /** `include_db_users`: the client list of every indexed inbound. */
  method IncludeDbUsers(keys: Keys, raw: seq<RawInbound>, ix: Index, hosts: seq<Host>, rows: seq<JoinRow>,
                        mapLoads: bool) returns (clients: map<string, seq<Client>>)
    requires Agrees(ix) && ValidHosts(ix, hosts)
    requires forall r <- rows :: ValidUser(r.user) && r.proxy in r.user.proxies
    ensures clients.Keys == ix.byTag.Keys
    ensures forall tag <- ix.byTag :: clients[tag] == Generated(keys, raw, ix.byTag[tag], hosts, rows)
  {
    var grouped, order := GroupByType(rows);
    clients := map tag | tag in ix.byTag :: ClientsOf(raw, tag);
    ghost var done: seq<Inbound> := [];
    for n := 0 to |order|
      invariant clients == Partial(keys, raw, ix, hosts, rows, done)
      invariant forall i <- done :: i in ix.inbounds && exists t <- order[..n] :: Protocol(t) == i.protocol
      invariant forall i <- ix.inbounds :: (exists t <- order[..n] :: Protocol(t) == i.protocol) ==> i in done
    {
      var t := order[n];
      assert order[..n + 1] == order[..n] + [t];
      OfTypeMembers(rows, t);
      NoneFilledYet(done, order[..n], t);
      clients := FillProtocol(keys, raw, ix, hosts, rows, t, grouped[t], mapLoads, clients, done);
      OfProtocolMembers(ix.inbounds, Protocol(t));
      done := done + OfProtocol(ix.inbounds, Protocol(t));
    }
    assert order[..|order|] == order;
    AllFilled(keys, raw, ix, hosts, rows, order, done);
  }

  lemma NoneFilledYet(done: seq<Inbound>, earlier: seq<ProxyType>, t: ProxyType)
    requires forall i <- done :: exists s <- earlier :: Protocol(s) == i.protocol
    requires t !in earlier
    ensures forall i <- done :: i.protocol != Protocol(t)
  {
    forall i | i in done ensures i.protocol != Protocol(t) {
      var s :| s in earlier && Protocol(s) == i.protocol;
      if Protocol(s) == Protocol(t) {
        ProtocolsDiffer(s, t);
      }
    }
  }

  lemma AllFilled(keys: Keys, raw: seq<RawInbound>, ix: Index, hosts: seq<Host>, rows: seq<JoinRow>, order: seq<ProxyType>,
                  done: seq<Inbound>)
    requires Agrees(ix)
    requires forall t: ProxyType :: (exists r <- rows :: r.proxy.kind == t) ==> t in order
    requires forall i <- ix.inbounds :: (exists t <- order :: Protocol(t) == i.protocol) ==> i in done
    ensures var clients := Partial(keys, raw, ix, hosts, rows, done);
            clients.Keys == ix.byTag.Keys && forall tag <- ix.byTag :: clients[tag] == Generated(keys, raw, ix.byTag[tag], hosts, rows)
  {
    forall tag | tag in ix.byTag && ix.byTag[tag] !in done
      ensures RowClients(keys, ix.byTag[tag], hosts, rows) == []
    {
      UntouchedInbound(keys, ix.byTag[tag], hosts, rows, order);
    }
  }

  lemma UntouchedInbound(keys: Keys, i: Inbound, hosts: seq<Host>, rows: seq<JoinRow>, order: seq<ProxyType>)
    requires forall t: ProxyType :: (exists r <- rows :: r.proxy.kind == t) ==> t in order
    requires forall t <- order :: Protocol(t) != i.protocol
    ensures RowClients(keys, i, hosts, rows) == []
  {
    forall r | r in rows ensures Protocol(r.proxy.kind) != i.protocol {
      assert r.proxy.kind in order;
    }
    NoRowOfProtocol(keys, i, hosts, rows);
  }
}
