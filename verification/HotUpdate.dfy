/** Incremental edits of running cores, against full generation as their specification. */
module HotUpdate {
  import opened Prelude
  import opened Inbounds
  import opened Eligibility
  import opened ClientTable
  import Text

  /** The clients of a running core by inbound tag and email. */
  type Table = map<(string, string), Account>

  // ---------- specification ----------

  /** The core runs what full generation gives for the database, on every indexed inbound. */
  ghost predicate Mirrors(keys: Keys, raw: seq<RawInbound>, ix: Index, db: Db, table: Table) {
    forall tag: string, email: string :: tag in ix.byTag ==>
      Get(table, (tag, email)) == Expected(keys, raw, ix, db, tag, email)
  }

  /** The account the handler API takes: its model demands a password that is not null. */
  predicate Validates(a: Account) {
    a.secret.Some?
  }

  /** What the handler message carries of an account: the one of Trojan has a password and nothing else. */
  function OnWire(a: Account): Account {
    if a.kind == Trojan then a.(vision := false) else a
  }

  /** What a hot edit puts on one inbound: what the message carries of the generated account, if that
      validates. */
  function Injected(keys: Keys, ix: Index, hosts: seq<Host>, u: User, tag: string): Option<Account> {
    var wanted := Wanted(keys, ix, hosts, u, tag);
    if wanted.Some? && Validates(wanted.value) then Some(OnWire(wanted.value)) else None
  }

  /** The table after editing one user: its entries are the injected ones, or gone; nothing else changed. */
  ghost predicate Edited(keys: Keys, ix: Index, hosts: seq<Host>, id: nat, u: User, present: bool,
                         table: Table, table': Table) {
    forall tag: string, email: string :: tag in ix.byTag ==>
      Get(table', (tag, email)) ==
        if email == Email(id, u.username) then (if present then Injected(keys, ix, hosts, u, tag) else None)
        else Get(table, (tag, email))
  }

  /** The two databases differ in at most one user, who keeps the username. */
  ghost predicate SameButFor(db: Db, db': Db, id: nat) {
    && db.hosts == db'.hosts
    && (forall i: nat :: i != id ==> Get(db.users, i) == Get(db'.users, i))
    && (id in db.users && id in db'.users ==> db.users[id].username == db'.users[id].username)
  }

  /** Neither a stored password nor a key to derive one from. */
  predicate NullPassword(u: User, p: Proxy) {
    !UsesUuid(p.kind) && p.secret.None? && GoodKey(u.key).None?
  }

  /** A Trojan proxy with a flow and a password to be had, on an inbound that supports the flow. */
  predicate LosesFlow(keys: Keys, u: User, p: Proxy, i: Inbound) {
    p.kind == Trojan && HasFlow(u, p) && i.flowCapable && Secret(keys, p, u.key).Returned? && Secret(keys, p, u.key).value.Some?
  }

  /** The handler API can express what generation writes for the user: no proxy without a password is
      eligible anywhere, and no Trojan proxy with a flow where the flow would count. */
  ghost predicate Expressible(keys: Keys, ix: Index, hosts: seq<Host>, u: User) {
    forall p <- u.proxies :: forall tag: string :: Eligible(ix, hosts, u, p, tag) ==>
      !NullPassword(u, p) && !LosesFlow(keys, u, p, ix.byTag[tag])
  }

  lemma OwnsElsewhere(db: Db, db': Db, id: nat, u: User, email: string)
    requires SameButFor(db, db', id)
    requires id in db.users ==> db.users[id].username == u.username
    requires id in db'.users ==> db'.users[id].username == u.username
    requires email != Email(id, u.username)
    ensures forall i: nat :: Owns(db, i, email) <==> Owns(db', i, email)
    ensures forall i: nat :: Owns(db, i, email) ==> i != id && Get(db.users, i) == Get(db'.users, i)
  {
    forall i: nat ensures Owns(db, i, email) <==> Owns(db', i, email) {
      assert i != id ==> Get(db.users, i) == Get(db'.users, i);
    }
    forall i: nat | Owns(db, i, email) ensures i != id && Get(db.users, i) == Get(db'.users, i) {
      assert i != id ==> Get(db.users, i) == Get(db'.users, i);
    }
  }

  lemma ExpectedOfOwner(keys: Keys, raw: seq<RawInbound>, ix: Index, db: Db, tag: string, id: nat)
    requires tag in ix.byTag && id in db.users && ForeignClients(raw, db)
    ensures Expected(keys, raw, ix, db, tag, Email(id, db.users[id].username))
         == if db.users[id].enabled then Wanted(keys, ix, db.hosts, db.users[id], tag) else None
  {
    var email := Email(id, db.users[id].username);
    ClientsOfForeign(raw, db, tag);
    FindMember(ClientsOf(raw, tag), email);
    assert Owns(db, id, email);
    forall other: nat | Owns(db, other, email) ensures other == id {
      OwnerUnique(db, other, id, email);
    }
  }

  /** A user no longer in the database is expected nowhere. */
  lemma ExpectedOfGone(keys: Keys, raw: seq<RawInbound>, ix: Index, db: Db, db': Db, tag: string, id: nat)
    requires SameButFor(db, db', id) && id in db.users && id !in db'.users && ForeignClients(raw, db)
    ensures Expected(keys, raw, ix, db', tag, Email(id, db.users[id].username)) == None
  {
    var email := Email(id, db.users[id].username);
    ClientsOfForeign(raw, db, tag);
    FindMember(ClientsOf(raw, tag), email);
    forall i: nat ensures !Owns(db', i, email) {
      if Owns(db', i, email) {
        assert Get(db.users, i) == Get(db'.users, i);
        EmailInjective(i, id, db'.users[i].username, db.users[id].username);
      }
    }
  }

  lemma ExpectedElsewhere(keys: Keys, raw: seq<RawInbound>, ix: Index, db: Db, db': Db,
                          id: nat, u: User, tag: string, email: string)
    requires SameButFor(db, db', id) && tag in ix.byTag
    requires id in db.users ==> db.users[id].username == u.username
    requires id in db'.users ==> db'.users[id].username == u.username
    requires email != Email(id, u.username)
    ensures Expected(keys, raw, ix, db, tag, email) == Expected(keys, raw, ix, db', tag, email)
  {
    OwnsElsewhere(db, db', id, u, email);
    if exists i: nat :: Owns(db, i, email) {
      var i: nat :| Owns(db, i, email);
      forall j: nat | Owns(db, j, email) ensures j == i {
        OwnerUnique(db, j, i, email);
      }
      forall j: nat | Owns(db', j, email) ensures j == i {
        OwnerUnique(db', j, i, email);
      }
    }
  }

  /** Generation and injection agree on every inbound exactly for users whose accounts the handler API can
      express. */
  lemma InjectedIsWantedIff(keys: Keys, ix: Index, hosts: seq<Host>, u: User)
    requires OnePerType(u.proxies)
    ensures Expressible(keys, ix, hosts, u) <==>
      forall tag <- ix.byTag :: Injected(keys, ix, hosts, u, tag) == Wanted(keys, ix, hosts, u, tag)
  {
    forall tag | tag in ix.byTag && Expressible(keys, ix, hosts, u)
      ensures Injected(keys, ix, hosts, u, tag) == Wanted(keys, ix, hosts, u, tag)
    {
      ProxyForMember(u.proxies, ix.byTag[tag].protocol);
      match ProxyFor(u.proxies, ix.byTag[tag].protocol)
      case Some(p) =>
        assert Eligible(ix, hosts, u, p, tag) ==> !NullPassword(u, p) && !LosesFlow(keys, u, p, ix.byTag[tag]);
      case None =>
    }
    forall p, tag: string | p in u.proxies && Eligible(ix, hosts, u, p, tag)
                            && (NullPassword(u, p) || LosesFlow(keys, u, p, ix.byTag[tag]))
      ensures Injected(keys, ix, hosts, u, tag) != Wanted(keys, ix, hosts, u, tag)
    {
      ProxyForIs(u.proxies, p);
    }
  }

  /** The edit that follows a change of one user: the user as it is now, or was when it is gone. */
  function Subject(db: Db, db': Db, id: nat): User
    requires id in db.users || id in db'.users
  {
    if id in db'.users then db'.users[id] else db.users[id]
  }

  predicate Present(db': Db, id: nat) {
    id in db'.users && db'.users[id].enabled
  }

  /** A hot edit refines a full rebuild: starting from a core that mirrors the old database, editing the
      one changed user gives a core that mirrors the new database, exactly when the user is not
      enabled any more or the handler API can express its accounts. */
  lemma EditRefinesRebuildIff(keys: Keys, raw: seq<RawInbound>, ix: Index, db: Db, db': Db, id: nat,
                              table: Table, table': Table)
    requires SameButFor(db, db', id) && (id in db.users || id in db'.users)
    requires ForeignClients(raw, db) && ForeignClients(raw, db')
    requires OnePerType(Subject(db, db', id).proxies)
    requires Mirrors(keys, raw, ix, db, table)
    requires Edited(keys, ix, db.hosts, id, Subject(db, db', id), Present(db', id), table, table')
    ensures Mirrors(keys, raw, ix, db', table') <==>
      !Present(db', id) || Expressible(keys, ix, db'.hosts, Subject(db, db', id))
  {
    var u := Subject(db, db', id);
    EditRefinesElsewhere(keys, raw, ix, db, db', id, table, table');
    InjectedIsWantedIff(keys, ix, db.hosts, u);
    forall tag: string | tag in ix.byTag
      ensures Expected(keys, raw, ix, db', tag, Email(id, u.username))
           == if Present(db', id) then Wanted(keys, ix, db.hosts, u, tag) else None
    {
      if id in db'.users {
        ExpectedOfOwner(keys, raw, ix, db', tag, id);
      } else {
        ExpectedOfGone(keys, raw, ix, db, db', tag, id);
      }
    }
  }

  /** For all other emails the edited core is right without condition. */
  lemma EditRefinesElsewhere(keys: Keys, raw: seq<RawInbound>, ix: Index, db: Db, db': Db, id: nat,
                             table: Table, table': Table)
    requires SameButFor(db, db', id) && (id in db.users || id in db'.users)
    requires Mirrors(keys, raw, ix, db, table)
    requires Edited(keys, ix, db.hosts, id, Subject(db, db', id), Present(db', id), table, table')
    ensures forall tag: string, email: string :: tag in ix.byTag && email != Email(id, Subject(db, db', id).username) ==>
              Get(table', (tag, email)) == Expected(keys, raw, ix, db', tag, email)
  {
    var u := Subject(db, db', id);
    forall tag: string, email: string | tag in ix.byTag && email != Email(id, u.username)
      ensures Get(table', (tag, email)) == Expected(keys, raw, ix, db', tag, email)
    {
      ExpectedElsewhere(keys, raw, ix, db, db', id, u, tag, email);
    }
  }

  /** An input on which the two tables differ: a Trojan proxy without a password, a user without a key, an
      inbound open to everybody. Generation adds a client with a null password, an edit none. */
  lemma NullPasswordDiffers(keys: Keys, tag: string)
    ensures var i := Inbound(tag, "trojan", false);
            var ix := Index([i], map[tag := i], map["trojan" := [i]]);
            var u := User("ann", true, None, false, None, [Proxy(Trojan, None, false, [])]);
            && Wanted(keys, ix, [], u, tag) == Some(Account(Trojan, None, false))
            && Injected(keys, ix, [], u, tag) == None
  {
    var p := Proxy(Trojan, None, false, []);
    assert ProxyFor([p], "trojan") == Some(p);
  }

  /** Another one: a user with a flow and a Trojan proxy with a password, on an inbound that supports the
      flow. Generation writes the flow, an edit cannot. */
  lemma TrojanFlowDiffers(keys: Keys, tag: string, password: string)
    requires password != ""
    ensures var i := Inbound(tag, "trojan", true);
            var ix := Index([i], map[tag := i], map["trojan" := [i]]);
            var u := User("ann", true, None, true, None, [Proxy(Trojan, Some(password), false, [])]);
            && Wanted(keys, ix, [], u, tag) == Some(Account(Trojan, Some(password), true))
            && Injected(keys, ix, [], u, tag) == Some(Account(Trojan, Some(password), false))
  {
    var p := Proxy(Trojan, Some(password), false, []);
    assert ProxyFor([p], "trojan") == Some(p);
  }

  /** Generation itself gives a core that mirrors the database, so the invariant can be established
      by a restart and kept by hot edits. */
  lemma RebuildMirrors(keys: Keys, raw: seq<RawInbound>, ix: Index, db: Db, rows: seq<JoinRow>, table: Table)
    requires Agrees(ix) && ValidDb(ix, db) && IsJoin(db, rows) && ForeignClients(raw, db)
    requires forall tag: string, email: string :: tag in ix.byTag ==>
               Get(table, (tag, email)) == FindClient(Generated(keys, raw, ix.byTag[tag], db.hosts, rows), email)
    ensures Mirrors(keys, raw, ix, db, table)
  {
    forall tag: string, email: string | tag in ix.byTag
      ensures Get(table, (tag, email)) == Expected(keys, raw, ix, db, tag, email)
    {
      GeneratedIsExpected(keys, raw, ix, db, rows, ix.byTag[tag], email);
    }
  }

  /** A change of one user in the database together with the edit of the core that follows it. */
  datatype Change = Change(id: nat, db: Db, table: Table)

  ghost predicate Follows(keys: Keys, raw: seq<RawInbound>, ix: Index, db: Db, table: Table, changes: seq<Change>)
    decreases |changes|
  {
    changes == [] ||
    var c := changes[0];
    && SameButFor(db, c.db, c.id) && (c.id in db.users || c.id in c.db.users) && ForeignClients(raw, c.db)
    && OnePerType(Subject(db, c.db, c.id).proxies)
    && Edited(keys, ix, db.hosts, c.id, Subject(db, c.db, c.id), Present(c.db, c.id), table, c.table)
    && Follows(keys, raw, ix, c.db, c.table, changes[1..])
  }

  /** Any sequence of changes to users whose accounts the handler API can express, each followed by its hot
      edit, keeps the core equal to what a full rebuild of the latest database would give. */
  lemma {:induction false} EditsKeepMirroring(keys: Keys, raw: seq<RawInbound>, ix: Index, db: Db, table: Table,
                                              changes: seq<Change>)
    requires ForeignClients(raw, db) && Mirrors(keys, raw, ix, db, table)
    requires Follows(keys, raw, ix, db, table, changes)
    requires forall c <- changes :: Present(c.db, c.id) ==> Expressible(keys, ix, c.db.hosts, c.db.users[c.id])
    ensures changes != [] ==>
              var last := changes[|changes| - 1];
              Mirrors(keys, raw, ix, last.db, last.table)
    decreases |changes|
  {
    if changes != [] {
      var c := changes[0];
      assert c in changes;
      EditRefinesRebuildIff(keys, raw, ix, db, c.db, c.id, table, c.table);
      assert forall x <- changes[1..] :: x in changes;
      EditsKeepMirroring(keys, raw, ix, c.db, c.table, changes[1..]);
    }
  }

  /** An update that is rejected leaves the core alone; it mirrors the new database exactly when the old
      one gave the user nothing, because the new one does. */
  lemma RejectedUpdateMirrorsIff(keys: Keys, raw: seq<RawInbound>, ix: Index, db: Db, db': Db, id: nat, table: Table)
    requires SameButFor(db, db', id) && id in db.users && id in db'.users && Rejected(keys, db'.users[id])
    requires ForeignClients(raw, db) && ForeignClients(raw, db') && Mirrors(keys, raw, ix, db, table)
    ensures Mirrors(keys, raw, ix, db', table) <==>
      !db.users[id].enabled || forall tag <- ix.byTag :: Wanted(keys, ix, db.hosts, db.users[id], tag) == None
  {
    var email := Email(id, db.users[id].username);
    forall tag: string, e: string | tag in ix.byTag && e != email
      ensures Get(table, (tag, e)) == Expected(keys, raw, ix, db', tag, e)
    {
      ExpectedElsewhere(keys, raw, ix, db, db', id, db.users[id], tag, e);
    }
    forall tag: string | tag in ix.byTag
      ensures Expected(keys, raw, ix, db', tag, email) == None
      ensures Get(table, (tag, email)) ==
              if db.users[id].enabled then Wanted(keys, ix, db.hosts, db.users[id], tag) else None
    {
      ExpectedOfOwner(keys, raw, ix, db, tag, id);
      ExpectedOfOwner(keys, raw, ix, db', tag, id);
    }
  }

  // ---------- the runtime account of the hot path ----------

  /** The user response fills in missing secrets from the key before the account is built, and is
      rejected when that needs a malformed key. */
  predicate Rejected(keys: Keys, u: User) {
    GoodKey(u.key).Some? && !keys.wellFormed(u.key.value) && exists p <- u.proxies :: !HasSecret(p)
  }

  function Backfilled(keys: Keys, u: User, p: Proxy): Proxy {
    if !HasSecret(p) && GoodKey(u.key).Some? then p.(secret := Some(keys.derive(u.key.value, p.kind))) else p
  }

  /** Filling in first does not change the account. */
  lemma BackfillHarmless(keys: Keys, i: Inbound, u: User, p: Proxy)
    requires p in u.proxies && !Rejected(keys, u)
    ensures AccountOn(keys, i, u, Backfilled(keys, u, p)) == AccountOn(keys, i, u, p)
  {}

  // ---------- cores and operations ----------

  datatype Reply = Done | EmailNotFound | EmailExists | ConnectionError

  /** The handler API of one core, local or of a node. An unreachable core refuses everything. */
  class Core {
    const reachable: bool
    var table: Table

    constructor (reachable: bool, table: Table)
      ensures this.reachable == reachable && this.table == table
    {
      this.reachable, this.table := reachable, table;
    }

    method RemoveInboundUser(tag: string, email: string) returns (r: Reply)
      modifies this
      ensures table == if reachable then old(table) - {(tag, email)} else old(table)
      ensures r == if !reachable then ConnectionError else if (tag, email) in old(table) then Done else EmailNotFound
    {
      if !reachable {
        return ConnectionError;
      }
      r := if (tag, email) in table then Done else EmailNotFound;
      table := table - {(tag, email)};
    }

    method AddInboundUser(tag: string, email: string, account: Account) returns (r: Reply)
      modifies this
      ensures r == if !reachable then ConnectionError else if (tag, email) in old(table) then EmailExists else Done
      ensures table == if r == Done then old(table)[(tag, email) := OnWire(account)] else old(table)
    {
      if !reachable {
        return ConnectionError;
      }
      if (tag, email) in table {
        return EmailExists;
      }
      table := table[(tag, email) := OnWire(account)];
      return Done;
    }
  }

  /** `_remove_user_from_inbound`: at most two attempts, ending when the email is gone. */
  method RemoveFromInbound(core: Core, tag: string, email: string)
    modifies core
    ensures core.table == if core.reachable then old(core.table) - {(tag, email)} else old(core.table)
  {
    for attempt := 0 to 2
      invariant attempt > 0 ==> core.reachable
      invariant core.table == if attempt > 0 then old(core.table) - {(tag, email)} else old(core.table)
    {
      var r := core.RemoveInboundUser(tag, email);
      if r == EmailNotFound || r == ConnectionError {
        break;
      }
    }
  }

  /** `_add_account_to_inbound`: remove, then add. */
  method AddToInbound(core: Core, tag: string, email: string, account: Account)
    modifies core
    ensures core.table == if core.reachable then old(core.table)[(tag, email) := OnWire(account)] else old(core.table)
  {
    var _ := core.RemoveInboundUser(tag, email);
    var r := core.AddInboundUser(tag, email, account);
    assert core.reachable ==> r == Done && old(core.table) - {(tag, email)} == core.table - {(tag, email)};
  }

  predicate DistinctCores(cores: seq<Core>) {
    forall i, j :: 0 <= i < j < |cores| ==> cores[i] != cores[j]
  }

  method RemoveEverywhere(cores: seq<Core>, tag: string, email: string)
    requires DistinctCores(cores)
    modifies cores
    ensures forall c <- cores :: c.table == if c.reachable then old(c.table) - {(tag, email)} else old(c.table)
  {
    for k := 0 to |cores|
      invariant forall j :: 0 <= j < |cores| ==>
                  cores[j].table == if j < k && cores[j].reachable then old(cores[j].table) - {(tag, email)} else old(cores[j].table)
    {
      RemoveFromInbound(cores[k], tag, email);
    }
  }

  method AddEverywhere(cores: seq<Core>, tag: string, email: string, account: Account)
    requires DistinctCores(cores)
    modifies cores
    ensures forall c <- cores :: c.table == if c.reachable then old(c.table)[(tag, email) := OnWire(account)] else old(c.table)
  {
    for k := 0 to |cores|
      invariant forall j :: 0 <= j < |cores| ==>
                  cores[j].table == if j < k && cores[j].reachable then old(cores[j].table)[(tag, email) := OnWire(account)]
                                    else old(cores[j].table)
    {
      AddToInbound(cores[k], tag, email, account);
    }
  }

  /** One core in the middle of adding the user: the inbounds in `done` have what the user wants, the
      other indexed inbounds have nothing under the email, and the rest is as at the start. */
  ghost predicate PartlyEdited(keys: Keys, ix: Index, hosts: seq<Host>, id: nat, u: User,
                               table: Table, table': Table, done: set<string>) {
    forall tag: string, email: string :: tag in ix.byTag ==>
      Get(table', (tag, email)) ==
        if email == Email(id, u.username)
        then (if tag in done then Injected(keys, ix, hosts, u, tag) else None)
        else Get(table, (tag, email))
  }

  lemma PartStep(keys: Keys, ix: Index, hosts: seq<Host>, id: nat, u: User, table: Table, table': Table,
                 done: set<string>, tag: string)
    requires PartlyEdited(keys, ix, hosts, id, u, table, table', done)
    ensures var account := Injected(keys, ix, hosts, u, tag);
            && (account == None ==> PartlyEdited(keys, ix, hosts, id, u, table, table', done + {tag}))
            && (account.Some? ==> PartlyEdited(keys, ix, hosts, id, u, table,
                                               table'[(tag, Email(id, u.username)) := account.value], done + {tag}))
  {}

  /** `_build_runtime_accounts`: at most one account, none when the secret cannot be had or the account
      does not validate. */
  function RuntimeAccount(keys: Keys, i: Inbound, u: User, p: Proxy): Option<Account> {
    var account := AccountOn(keys, i, u, p);
    if account.Some? && Validates(account.value) then account else None
  }

  function Sent(account: Option<Account>): Option<Account> {
    if account.Some? then Some(OnWire(account.value)) else None
  }

  /** Every inbound the user wants is listed for one of its proxies. */
  lemma WantedIsListed(keys: Keys, ix: Index, hosts: seq<Host>, u: User, tag: string)
    requires Agrees(ix) && Wanted(keys, ix, hosts, u, tag).Some?
    ensures exists p <- u.proxies :: tag in ProxyTags(ix, hosts, u, p)
  {
    ProxyForMember(u.proxies, ix.byTag[tag].protocol);
    var p := ProxyFor(u.proxies, ix.byTag[tag].protocol).value;
    ProxyTagsAreEligible(ix, hosts, u, p, tag);
  }

  /** Once every listed inbound is done, the edit is complete. */
  lemma AllListedIsEdited(keys: Keys, ix: Index, hosts: seq<Host>, id: nat, u: User, table: Table, table': Table,
                          done: set<string>)
    requires Agrees(ix) && PartlyEdited(keys, ix, hosts, id, u, table, table', done)
    requires forall p <- u.proxies :: forall tag <- ProxyTags(ix, hosts, u, p) :: tag in done
    ensures Edited(keys, ix, hosts, id, u, true, table, table')
  {
    forall tag: string | tag in ix.byTag && tag !in done
      ensures Injected(keys, ix, hosts, u, tag) == None
    {
      if Wanted(keys, ix, hosts, u, tag).Some? {
        WantedIsListed(keys, ix, hosts, u, tag);
      }
    }
  }

  /** On a listed inbound the account of the hot path is the generated one, if that validates, and arrives
      as the message carries it. */
  lemma ListedIsInjected(keys: Keys, ix: Index, hosts: seq<Host>, u: User, p: Proxy, tag: string)
    requires Agrees(ix) && OnePerType(u.proxies) && p in u.proxies && tag in ProxyTags(ix, hosts, u, p)
    requires !Rejected(keys, u)
    ensures tag in ix.byTag
    ensures Sent(RuntimeAccount(keys, ix.byTag[tag], u, Backfilled(keys, u, p))) == Injected(keys, ix, hosts, u, tag)
  {
    ProxyTagsAreEligible(ix, hosts, u, p, tag);
    ProxyForIs(u.proxies, p);
    BackfillHarmless(keys, ix.byTag[tag], u, p);
  }

  /** A core after the edit of a present user, in the columns: the tag has an account under the user's email
      exactly when the user has a proxy of the inbound's protocol that the service offers there, or that
      does not exclude the inbound, and a secret can be had that is not null. The kind is the proxy's; the
      secret is the stored one, else the derived one, else an empty stored one; the flow is the user's or
      the proxy's, for VLESS only, where the inbound supports it. */
  lemma EditedAccountIff(keys: Keys, ix: Index, hosts: seq<Host>, id: nat, u: User, table: Table, table': Table,
                         tag: string, a: Account)
    requires Edited(keys, ix, hosts, id, u, true, table, table') && tag in ix.byTag && OnePerType(u.proxies)
    ensures var i, entry := ix.byTag[tag], (tag, Text.Decimal(id) + "." + u.username);
      (entry in table' && table'[entry] == a) <==>
        exists p <- u.proxies ::
          && a.kind == p.kind
          && i.protocol == (match p.kind case VMess => "vmess" case VLESS => "vless" case Trojan => "trojan" case Shadowsocks => "shadowsocks")
          && (if u.service.Some? then exists h <- hosts :: !h.isDisabled && u.service.value in h.links && h.inboundTag == tag
              else tag !in p.excluded)
          && (u.key.Some? && u.key.value != "" ==> keys.wellFormed(u.key.value))
          && (p.kind in {VMess, VLESS} ==> (p.secret.Some? && p.secret.value != "") || (u.key.Some? && u.key.value != ""))
          && a.secret.Some?
          && a.secret == (if p.secret.Some? && p.secret.value != "" then p.secret
                          else if u.key.Some? && u.key.value != "" then Some(keys.derive(u.key.value, p.kind))
                          else p.secret)
          && (a.vision <==> p.kind == VLESS && (u.vision || p.flow) && i.flowCapable)
  {
    var i, email := ix.byTag[tag], Email(id, u.username);
    assert Get(table', (tag, email)) == Injected(keys, ix, hosts, u, tag);
    ProxyForMember(u.proxies, i.protocol);
    forall p | p in u.proxies
      ensures (i.protocol == match p.kind case VMess => "vmess" case VLESS => "vless" case Trojan => "trojan" case Shadowsocks => "shadowsocks")
              ==> ProxyFor(u.proxies, i.protocol) == Some(p)
    {
      ProxyForIs(u.proxies, p);
    }
  }

  /** The operations on all running cores, with the configuration in force. */
  class Operations {
    const keys: Keys
    const ix: Index
    const cores: seq<Core>

    constructor (keys: Keys, ix: Index, cores: seq<Core>)
      requires Agrees(ix) && DistinctCores(cores)
      ensures this.keys == keys && this.ix == ix && this.cores == cores && Valid()
    {
      this.keys, this.ix, this.cores := keys, ix, cores;
    }

    ghost predicate Valid() {
      Agrees(ix) && DistinctCores(cores)
    }

    /** The removal loop over every indexed inbound, shared by removing and updating. */
    method RemoveFromAll(email: string)
      requires Valid()
      modifies cores
      ensures forall c <- cores :: if c.reachable
                then forall tag: string, e: string :: tag in ix.byTag ==>
                       Get(c.table, (tag, e)) == if e == email then None else Get(old(c.table), (tag, e))
                else c.table == old(c.table)
    {
      var left := ix.byTag.Keys;
      while left != {}
        invariant left <= ix.byTag.Keys
        invariant forall c <- cores :: if c.reachable
                    then forall tag: string, e: string :: tag in ix.byTag ==>
                           Get(c.table, (tag, e)) == if e == email && tag !in left then None else Get(old(c.table), (tag, e))
                    else c.table == old(c.table)
        decreases left
      {
        var tag :| tag in left;
        RemoveEverywhere(cores, tag, email);
        left := left - {tag};
      }
    }

    /** `remove_user`: no reachable core has the email on any indexed inbound any more. */
    method RemoveUser(id: nat, u: User, ghost hosts: seq<Host>)
      requires Valid()
      modifies cores
      ensures forall c <- cores :: if c.reachable then Edited(keys, ix, hosts, id, u, false, old(c.table), c.table)
                                   else c.table == old(c.table)
    {
      RemoveFromAll(Email(id, u.username));
    }

    /** `update_user`: rejected users change nothing; otherwise every reachable core ends with exactly
        what can be injected for the user, on every indexed inbound. */
    method UpdateUser(id: nat, u: User, hosts: seq<Host>, linksLoad: bool, mapLoads: bool) returns (raised: bool)
      requires Valid() && ValidHosts(ix, hosts) && ValidUser(u)
      modifies cores
      ensures raised <==> u.key.Some? && u.key.value != "" && !keys.wellFormed(u.key.value)
                          && exists p <- u.proxies :: !(p.secret.Some? && p.secret.value != "")
      ensures raised ==> forall c <- cores :: c.table == old(c.table)
      ensures !raised ==> forall c <- cores ::
                if c.reachable then Edited(keys, ix, hosts, id, u, true, old(c.table), c.table) else c.table == old(c.table)
    {
      if Rejected(keys, u) {
        return true;
      }
      RemoveFromAll(Email(id, u.username));
      AddOnListed(id, u, hosts, linksLoad, mapLoads);
      return false;
    }

    /** `add_user`: the same result on cores that have nothing under the email yet. */
    method AddUser(id: nat, u: User, hosts: seq<Host>, linksLoad: bool, mapLoads: bool) returns (raised: bool)
      requires Valid() && ValidHosts(ix, hosts) && ValidUser(u)
      requires forall c <- cores :: forall tag <- ix.byTag :: (tag, Email(id, u.username)) !in c.table
      modifies cores
      ensures raised <==> u.key.Some? && u.key.value != "" && !keys.wellFormed(u.key.value)
                          && exists p <- u.proxies :: !(p.secret.Some? && p.secret.value != "")
      ensures raised ==> forall c <- cores :: c.table == old(c.table)
      ensures !raised ==> forall c <- cores ::
                if c.reachable then Edited(keys, ix, hosts, id, u, true, old(c.table), c.table) else c.table == old(c.table)
    {
      if Rejected(keys, u) {
        return true;
      }
      AddOnListed(id, u, hosts, linksLoad, mapLoads);
      return false;
    }

    /** The adding loops over the tags listed for each proxy. */
    method AddOnListed(id: nat, u: User, hosts: seq<Host>, linksLoad: bool, mapLoads: bool)
      requires Valid() && ValidHosts(ix, hosts) && ValidUser(u) && !Rejected(keys, u)
      requires forall c <- cores :: c.reachable ==> forall tag <- ix.byTag :: (tag, Email(id, u.username)) !in c.table
      modifies cores
      ensures forall c <- cores ::
                if c.reachable then Edited(keys, ix, hosts, id, u, true, old(c.table), c.table) else c.table == old(c.table)
    {
      var listed := UserInbounds(ix, hosts, u, linksLoad, mapLoads);
      ghost var done: set<string> := {};
      ghost var base := Tables();
      for k := 0 to |listed|
        invariant InProgress(id, u, hosts, base, done)
        invariant forall j :: 0 <= j < k ==> forall tag <- ProxyTags(ix, hosts, u, u.proxies[j]) :: tag in done
      {
        done := AddForProxy(id, u, u.proxies[k], hosts, listed[k].1, base, done);
      }
      assert forall j :: 0 <= j < |cores| ==> base[j] == old(cores[j].table);
      forall c | c in cores && c.reachable
        ensures Edited(keys, ix, hosts, id, u, true, old(c.table), c.table)
      {
        AllListedIsEdited(keys, ix, hosts, id, u, old(c.table), c.table, done);
      }
    }

    ghost function Tables(): (tables: seq<Table>)
      reads cores
      ensures |tables| == |cores| && forall j :: 0 <= j < |cores| ==> tables[j] == cores[j].table
    {
      seq(|cores|, j requires 0 <= j < |cores| reads cores => cores[j].table)
    }

    /** Every reachable core is partly edited relative to its table in `base`; the others are untouched. */
    ghost predicate InProgress(id: nat, u: User, hosts: seq<Host>, base: seq<Table>, done: set<string>)
      reads cores
    {
      |base| == |cores| &&
      forall j :: 0 <= j < |cores| ==>
        if cores[j].reachable then PartlyEdited(keys, ix, hosts, id, u, base[j], cores[j].table, done)
        else cores[j].table == base[j]
    }

    method AddForProxy(id: nat, u: User, p: Proxy, hosts: seq<Host>, tags: seq<string>,
                       ghost base: seq<Table>, ghost done0: set<string>)
      returns (ghost done: set<string>)
      requires Valid() && ValidUser(u) && !Rejected(keys, u)
      requires p in u.proxies && tags == ProxyTags(ix, hosts, u, p)
      requires InProgress(id, u, hosts, base, done0)
      modifies cores
      ensures done == done0 + (set tag <- tags)
      ensures InProgress(id, u, hosts, base, done)
    {
      done := done0;
      for m := 0 to |tags|
        invariant done == done0 + (set tag <- tags[..m])
        invariant InProgress(id, u, hosts, base, done)
      {
        AddOneTag(id, u, p, hosts, tags[m], base, done);
        assert tags[..m + 1] == tags[..m] + [tags[m]];
        done := done + {tags[m]};
      }
      assert tags[..|tags|] == tags;
    }

    method AddOneTag(id: nat, u: User, p: Proxy, hosts: seq<Host>, tag: string,
                     ghost base: seq<Table>, ghost done: set<string>)
      requires Valid() && ValidUser(u) && !Rejected(keys, u)
      requires p in u.proxies && tag in ProxyTags(ix, hosts, u, p)
      requires InProgress(id, u, hosts, base, done)
      modifies cores
      ensures InProgress(id, u, hosts, base, done + {tag})
    {
      ListedIsInjected(keys, ix, hosts, u, p, tag);
      ghost var before := Tables();
      var account := RuntimeAccount(keys, ix.byTag[tag], u, Backfilled(keys, u, p));
      if account.Some? {
        AddEverywhere(cores, tag, Email(id, u.username), account.value);
      }
      forall j | 0 <= j < |cores| && cores[j].reachable
        ensures PartlyEdited(keys, ix, hosts, id, u, base[j], cores[j].table, done + {tag})
      {
        PartStep(keys, ix, hosts, id, u, base[j], before[j], done, tag);
      }
    }
  }
}
