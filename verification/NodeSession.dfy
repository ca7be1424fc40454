/** The client side of a node: its session id, its gRPC handle, the started flag and the cached
    health, under every sequence of calls and every reply of the node. */
module NodeSession {
  import opened Prelude

  /** The text of a refusal, as far as the client looks at it. */
  datatype Detail = StartedAlready | MentionsSession | OtherText

  /** The JSON of a 200 reply. */
  datatype Body = NotADict | Dict(sessionId: Field, started: bool)

  /** A key that may be missing, or hold null or a string. */
  datatype Field = Missing | Present(id: Option<string>)

  /** What one POST yields: a 200, another status, a transport error, or any other exception. */
  datatype Reply = Ok(body: Body) | Refused(status: nat, detail: Detail) | Broken | Crashed

  datatype Channel = Ready | Timeout | NotCreated

  /** The outside world: replies by POST number, clock readings, certificates and gRPC channels. */
  datatype World = World(reply: nat -> Reply, clock: nat -> int, certificate: nat -> bool,
                         channel: nat -> Channel, ttl: nat)

  /** The fields of the node object, with counters of the POSTs made and the clock readings taken. */
  datatype Node = Node(session: Option<string>, api: bool, started: bool, cachedConnected: bool, cachedStarted: bool,
                       checkedAt: int, posts: nat, ticks: nat)

  const FRESH := Node(None, false, false, false, false, 0, 0, 0)

  /** How a call ends: a value, a `NodeAPIError`, or another exception. */
  datatype Result<+T> = Value(value: T) | ApiError(detail: Detail) | OtherError

  predicate HasSession(n: Node) {
    n.session.Some? && n.session.value != ""
  }

  predicate Clean(n: Node) {
    !n.api && !n.started && !n.cachedConnected && !n.cachedStarted
  }

  // ---------- the calls on values ----------

  function SetHealth(w: World, n: Node, connected: bool, started: bool): Node {
    n.(cachedConnected := connected, cachedStarted := started, checkedAt := w.clock(n.ticks), ticks := n.ticks + 1)
  }

  function Expelled(w: World, n: Node): Node {
    SetHealth(w, n.(session := None, api := false, started := false), false, false)
  }

  predicate Expels(r: Reply) {
    r.Crashed? || (r.Refused? && (r.status == 401 || r.status == 403 || r.detail.MentionsSession?))
  }

  /** The reply of one POST, `last` telling whether a transport error is final. */
  function Receive(w: World, n: Node, last: bool): (Node, Result<Body>) {
    var r, n' := w.reply(n.posts), n.(posts := n.posts + 1);
    match r
    case Ok(body) => (n', Value(body))
    case Refused(_, detail) => (if Expels(r) then Expelled(w, n') else n', ApiError(detail))
    case Broken => (if last then Expelled(w, n') else n', ApiError(OtherText))
    case Crashed => (Expelled(w, n'), ApiError(OtherText))
  }

  function Request(w: World, n: Node): (Node, Result<Body>) {
    if w.reply(n.posts).Broken? then Receive(w, Receive(w, n, false).0, true) else Receive(w, n, true)
  }

  function CheckHealth(w: World, n: Node, force: bool): (Node, Result<(bool, bool)>) {
    var now, n0 := w.clock(n.ticks), n.(ticks := n.ticks + 1);
    if !force && w.ttl > 0 && now - n.checkedAt < w.ttl then
      if HasSession(n) then (n0, Value((n.cachedConnected, n.cachedStarted)))
      else
        var n1 := if n.cachedConnected || n.cachedStarted
                  then n0.(cachedConnected := false, cachedStarted := false, checkedAt := now) else n0;
        (n1.(api := false, started := false), Value((false, false)))
    else if !HasSession(n) then
      (SetHealth(w, n0, false, false).(api := false, started := false), Value((false, false)))
    else
      var (n1, r) := Request(w, n0);
      match r
      case Value(NotADict) => (n1, OtherError)
      case Value(Dict(_, started)) =>
        (n1.(cachedConnected := true, cachedStarted := started, checkedAt := now,
             api := n1.api && started, started := started),
         Value((true, started)))
      case _ =>
        (n1.(cachedConnected := false, cachedStarted := false, checkedAt := now,
             session := None, api := false, started := false),
         Value((false, false)))
  }

  function Connect(w: World, n: Node): (Node, Result<()>) {
    if !w.certificate(n.posts) then (n, OtherError)
    else
      var (n1, r) := Request(w, n);
      match r
      case Value(Dict(Present(id), _)) =>
        var (n2, r2) := Request(w, n1.(session := id));
        (match r2
         case Value(Dict(_, started)) => (SetHealth(w, n2, true, started), Value(()))
         case Value(NotADict) => (n2, OtherError)
         case ApiError(d) => (n2, ApiError(d))
         case OtherError => (n2, OtherError))
      case Value(_) => (n1, OtherError)
      case ApiError(d) => (n1, ApiError(d))
      case OtherError => (n1, OtherError)
  }

  function EnsureConnected(w: World, n: Node): (Node, Result<()>) {
    var (n1, r) := CheckHealth(w, n, true);
    if r.Value? && r.value.0 then (n1, Value(())) else Connect(w, n1)
  }

  function Disconnect(w: World, n: Node): (Node, Result<()>) {
    var (n1, r) := Request(w, n);
    match r
    case Value(_) => (Expelled(w, n1), Value(()))
    case ApiError(d) => (n1, ApiError(d))
    case OtherError => (n1, OtherError)
  }

  /** After `/start` or `/restart` succeeded. */
  function OpenApi(w: World, n: Node): (Node, Result<()>) {
    var n1 := SetHealth(w, n.(started := true), true, true);
    match w.channel(n1.posts)
    case NotCreated => (n1, OtherError)
    case Timeout => (n1.(api := true), OtherError)
    case Ready => (n1.(api := true), Value(()))
  }

  function Restart(w: World, n: Node): (Node, Result<()>) {
    var (n1, r1) := EnsureConnected(w, n);
    if !r1.Value? then (n1, r1)
    else
      var (n2, r2) := Request(w, n1);
      match r2
      case Value(_) => OpenApi(w, n2)
      case ApiError(d) => (n2, ApiError(d))
      case OtherError => (n2, OtherError)
  }

  function Start(w: World, n: Node): (Node, Result<()>) {
    var (n1, r1) := EnsureConnected(w, n);
    if !r1.Value? then (n1, r1)
    else
      var (n2, r2) := Request(w, n1);
      match r2
      case Value(_) => OpenApi(w, n2)
      case ApiError(d) => if d.StartedAlready? then Restart(w, n2) else (n2, ApiError(d))
      case OtherError => (n2, OtherError)
  }

  function Stop(w: World, n: Node): (Node, Result<()>) {
    var (n1, r1) := EnsureConnected(w, n);
    if !r1.Value? then (n1, r1)
    else
      var (n2, r2) := Request(w, n1);
      match r2
      case Value(_) => (SetHealth(w, n2.(api := false, started := false), true, false), Value(()))
      case ApiError(d) => (n2, ApiError(d))
      case OtherError => (n2, OtherError)
  }

  function GetVersion(w: World, n: Node): (Node, Result<()>) {
    var (n1, r1) := EnsureConnected(w, n);
    if !r1.Value? then (n1, r1)
    else
      var (n2, r2) := Request(w, n1);
      match r2
      case Value(Dict(_, _)) => (n2, Value(()))
      case ApiError(d) => (n2, ApiError(d))
      case _ => (n2, OtherError)
  }

  /** The `api` property: the handle, created on demand for a started node. */
  function Api(w: World, n: Node): (Node, Result<()>) {
    if !HasSession(n) then (n, OtherError)
    else if n.api then (n, Value(()))
    else if n.started && !w.channel(n.posts).NotCreated? then (n.(api := true), Value(()))
    else (n, OtherError)
  }

  // ---------- the invariant ----------

  predicate Inv(n: Node) {
    && (!HasSession(n) ==> Clean(n))
    && (n.api ==> n.started)
    && (n.started ==> HasSession(n))
  }

  /** No 200 reply carries a session id that is null or empty. */
  ghost predicate RealIds(w: World) {
    forall i: nat :: w.reply(i).Ok? && w.reply(i).body.Dict? && w.reply(i).body.sessionId.Present? ==>
      w.reply(i).body.sessionId.id.Some? && w.reply(i).body.sessionId.id.value != ""
  }

  /** A request posts once, or twice when the first POST broke; when it returns a value the node is
      as before, and otherwise it may have been expelled. */
  lemma RequestFacts(w: World, n: Node)
    ensures var (n', r) := Request(w, n);
            && n'.posts == n.posts + (if w.reply(n.posts).Broken? then 2 else 1)
            && (r.Value? ==> n' == n.(posts := n'.posts) && w.reply(n'.posts - 1) == Ok(r.value))
            && (n' == n.(posts := n'.posts) || (!HasSession(n') && Clean(n')))
            && !r.OtherError?
  {}

  lemma CheckHealthKeepsInv(w: World, n: Node, force: bool)
    requires Inv(n)
    ensures var (n', r) := CheckHealth(w, n, force);
            && Inv(n')
            && (force && r.Value? && r.value.0 ==> HasSession(n'))
            && !r.ApiError?
  {
    RequestFacts(w, n.(ticks := n.ticks + 1));
  }

  lemma ConnectKeepsInv(w: World, n: Node)
    requires Inv(n) && RealIds(w)
    ensures var (n', r) := Connect(w, n); Inv(n') && (r.Value? ==> HasSession(n'))
  {
    if w.certificate(n.posts) {
      var (n1, r) := Request(w, n);
      RequestFacts(w, n);
      if r.Value? && r.value.Dict? && r.value.sessionId.Present? {
        assert w.reply(n1.posts - 1) == Ok(r.value);
        RequestFacts(w, n1.(session := r.value.sessionId.id));
      }
    }
  }

  lemma EnsureConnectedKeepsInv(w: World, n: Node)
    requires Inv(n) && RealIds(w)
    ensures var (n', r) := EnsureConnected(w, n); Inv(n') && (r.Value? ==> HasSession(n'))
  {
    CheckHealthKeepsInv(w, n, true);
    ConnectKeepsInv(w, CheckHealth(w, n, true).0);
  }

  /** A core that is up leaves the node started, with a session; a returned value also means an open
      handle and a cached (true, true). */
  lemma RestartKeepsInv(w: World, n: Node)
    requires Inv(n) && RealIds(w)
    ensures var (n', r) := Restart(w, n);
            && Inv(n')
            && (r.Value? ==> HasSession(n') && n'.started && n'.api && n'.cachedConnected && n'.cachedStarted)
  {
    EnsureConnectedKeepsInv(w, n);
    RequestFacts(w, EnsureConnected(w, n).0);
  }

  lemma StartKeepsInv(w: World, n: Node)
    requires Inv(n) && RealIds(w)
    ensures var (n', r) := Start(w, n);
            && Inv(n')
            && (r.Value? ==> HasSession(n') && n'.started && n'.api && n'.cachedConnected && n'.cachedStarted)
  {
    EnsureConnectedKeepsInv(w, n);
    var n1 := EnsureConnected(w, n).0;
    RequestFacts(w, n1);
    RestartKeepsInv(w, Request(w, n1).0);
  }

  lemma StopKeepsInv(w: World, n: Node)
    requires Inv(n) && RealIds(w)
    ensures var (n', r) := Stop(w, n); Inv(n') && (r.Value? ==> HasSession(n') && !n'.started && !n'.cachedStarted)
  {
    EnsureConnectedKeepsInv(w, n);
    RequestFacts(w, EnsureConnected(w, n).0);
  }

  lemma GetVersionKeepsInv(w: World, n: Node)
    requires Inv(n) && RealIds(w)
    ensures Inv(GetVersion(w, n).0)
  {
    EnsureConnectedKeepsInv(w, n);
    RequestFacts(w, EnsureConnected(w, n).0);
  }

  datatype Call =
    | Health(force: bool) | DoConnect | DoDisconnect | DoStart | DoStop | DoRestart | Version | UseApi | Raw

  function Step(w: World, n: Node, call: Call): Node {
    match call
    case Health(force) => CheckHealth(w, n, force).0
    case DoConnect => Connect(w, n).0
    case DoDisconnect => Disconnect(w, n).0
    case DoStart => Start(w, n).0
    case DoStop => Stop(w, n).0
    case DoRestart => Restart(w, n).0
    case Version => GetVersion(w, n).0
    case UseApi => Api(w, n).0
    case Raw => Request(w, n).0
  }

  function After(w: World, calls: seq<Call>): Node {
    if calls == [] then FRESH else Step(w, After(w, calls[..|calls| - 1]), calls[|calls| - 1])
  }

  lemma StepKeepsInv(w: World, n: Node, call: Call)
    requires Inv(n) && RealIds(w)
    ensures Inv(Step(w, n, call))
  {
    match call
    case Health(force) => CheckHealthKeepsInv(w, n, force);
    case DoConnect => ConnectKeepsInv(w, n);
    case DoDisconnect => RequestFacts(w, n);
    case DoStart => StartKeepsInv(w, n);
    case DoStop => StopKeepsInv(w, n);
    case DoRestart => RestartKeepsInv(w, n);
    case Version => GetVersionKeepsInv(w, n);
    case UseApi =>
    case Raw => RequestFacts(w, n);
  }

  /** Over every sequence of calls against every node that issues real session ids: no session means
      no handle, not started and a (false, false) cache; a handle means started; started means a
      session. So the branch for a cached answer that says connected without a session is dead. */
  lemma {:induction false} SessionInvariant(w: World, calls: seq<Call>)
    requires RealIds(w)
    ensures Inv(After(w, calls))
    ensures var n := After(w, calls);
            var session := n.session.Some? && n.session.value != "";
            && (!session ==> !n.api && !n.started && !n.cachedConnected && !n.cachedStarted)
            && (n.api ==> n.started) && (n.started ==> session)
  {
    if calls != [] {
      SessionInvariant(w, calls[..|calls| - 1]);
      StepKeepsInv(w, After(w, calls[..|calls| - 1]), calls[|calls| - 1]);
    }
  }

  // ---------- what the calls return and leave ----------

  /** A request, by the reply that settles it: the second one if the first breaks. The session is dropped, with
      handle, flag and cached health, when the connection broke twice, the reply cannot be read, or it
      refuses the session: status 401 or 403, or a text about it. */
  lemma RequestColumns(w: World, n: Node)
    ensures var (n', r) := Request(w, n);
      var twice := w.reply(n.posts).Broken?;
      var last := if twice then w.reply(n.posts + 1) else w.reply(n.posts);
      && n'.posts == n.posts + (if twice then 2 else 1)
      && r == (match last case Ok(body) => Value(body) case Refused(_, detail) => ApiError(detail) case _ => ApiError(OtherText))
      && (if last.Broken? || last.Crashed?
             || (last.Refused? && (last.status == 401 || last.status == 403 || last.detail == MentionsSession))
          then n'.session == None && !n'.api && !n'.started && !n'.cachedConnected && !n'.cachedStarted
          else n' == n.(posts := n'.posts))
  {}

  /** A health check without a session answers (false, false) and drops handle and flag; with one and a recent
      reading, the cache answers. */
  lemma HealthUnasked(w: World, n: Node, force: bool)
    ensures var (n', r) := CheckHealth(w, n, force);
      var recent := !force && w.ttl > 0 && w.clock(n.ticks) - n.checkedAt < w.ttl;
      if n.session.None? || n.session.value == "" then
        r == Value((false, false)) && !n'.api && !n'.started && !n'.cachedConnected && !n'.cachedStarted && n'.session == n.session
      else recent ==> r == Value((n.cachedConnected, n.cachedStarted)) && n' == n.(ticks := n.ticks + 1)
  {}

  /** Otherwise the node's reply does: running or not, or gone, and the session with it. */
  lemma HealthAsked(w: World, n: Node, force: bool)
    requires n.session.Some? && n.session.value != ""
    requires force || w.ttl == 0 || w.clock(n.ticks) - n.checkedAt >= w.ttl
    ensures var (n', r) := CheckHealth(w, n, force);
      match FinalReply(w, n.posts)
      case Ok(Dict(_, up)) =>
        && r == Value((true, up)) && n'.session == n.session && n'.started == up && n'.api == (n.api && up)
        && n'.cachedConnected && n'.cachedStarted == up && n'.checkedAt == w.clock(n.ticks)
      case Ok(NotADict) => r == OtherError && n'.session == n.session
      case _ =>
        r == Value((false, false)) && n'.session == None && !n'.api && !n'.started && !n'.cachedConnected && !n'.cachedStarted
  {
    SettledBy(w, n.(ticks := n.ticks + 1));
  }

  /** A connect goes through exactly when there is a certificate, the node answers with a session id, and then
      with its status; it leaves that id, and a cache that says connected, and running if it is. */
  lemma ConnectColumns(w: World, n: Node)
    ensures var (n', r) := Connect(w, n);
      var first, second := FinalReply(w, n.posts), FinalReply(w, NextPost(w, n.posts));
      && (r.Value? <==> && w.certificate(n.posts) && first.Ok? && first.body.Dict? && first.body.sessionId.Present?
                        && second.Ok? && second.body.Dict?)
      && (r.Value? ==> && n'.session == first.body.sessionId.id && n'.api == n.api && n'.started == n.started
                       && n'.cachedConnected && n'.cachedStarted == second.body.started)
      && (!w.certificate(n.posts) ==> n' == n)
  {
    if w.certificate(n.posts) {
      SettledBy(w, n);
      var (n1, r) := Request(w, n);
      if r.Value? && r.value.Dict? && r.value.sessionId.Present? {
        SettledBy(w, n1.(session := r.value.sessionId.id));
      }
    }
  }

  /** Before a command the health is checked afresh, and only a node that does not answer it is connected. */
  lemma EnsureColumns(w: World, n: Node)
    ensures var (n1, health) := CheckHealth(w, n, true);
      EnsureConnected(w, n) == if health.Value? && health.value.0 then (n1, Value(())) else Connect(w, n1)
  {}

  /** A start on a connected node, by the reply to it: it goes through when the channel is ready, and then there
      is a handle, the flag, and a cached (true, true); a node that says it is started already is restarted
      instead; any other refusal is the caller's. */
  lemma StartColumns(w: World, n: Node)
    ensures var (n1, connected) := EnsureConnected(w, n);
      var (n', r) := Start(w, n);
      var last := FinalReply(w, n1.posts);
      if !connected.Value? then n' == n1 && r == connected
      else if last.Ok? then
        && n'.session == n1.session && n'.started && n'.cachedConnected && n'.cachedStarted
        && (r.Value? <==> w.channel(NextPost(w, n1.posts)) == Ready)
        && (n'.api <==> n1.api || w.channel(NextPost(w, n1.posts)) != NotCreated)
      else if last.Refused? && last.detail == StartedAlready then (n', r) == Restart(w, Request(w, n1).0)
      else r == ApiError(if last.Refused? then last.detail else OtherText) && n'.started == Request(w, n1).0.started
  {
    SettledBy(w, EnsureConnected(w, n).0);
    RequestColumns(w, EnsureConnected(w, n).0);
  }

  /** The same for a restart, without the fallback; a stop that goes through leaves a session, no handle and a
      cached (true, false). */
  lemma RestartColumns(w: World, n: Node)
    ensures var (n1, connected) := EnsureConnected(w, n);
      var (n', r) := Restart(w, n);
      var last := FinalReply(w, n1.posts);
      if !connected.Value? then n' == n1 && r == connected
      else if last.Ok? then
        && n'.session == n1.session && n'.started && n'.cachedConnected && n'.cachedStarted
        && (r.Value? <==> w.channel(NextPost(w, n1.posts)) == Ready)
        && (n'.api <==> n1.api || w.channel(NextPost(w, n1.posts)) != NotCreated)
      else r == ApiError(if last.Refused? then last.detail else OtherText)
  {
    SettledBy(w, EnsureConnected(w, n).0);
    RequestColumns(w, EnsureConnected(w, n).0);
  }

  lemma StopColumns(w: World, n: Node)
    ensures var (n1, connected) := EnsureConnected(w, n);
      var (n', r) := Stop(w, n);
      var last := FinalReply(w, n1.posts);
      && (r.Value? <==> connected.Value? && last.Ok?)
      && (r.Value? ==> n'.session == n1.session && !n'.api && !n'.started && n'.cachedConnected && !n'.cachedStarted)
  {
    SettledBy(w, EnsureConnected(w, n).0);
  }

  /** Asking for the version changes nothing but what the two requests may. */
  lemma VersionColumns(w: World, n: Node)
    ensures var (n1, connected) := EnsureConnected(w, n);
      var (n', r) := GetVersion(w, n);
      var last := FinalReply(w, n1.posts);
      && (r.Value? <==> connected.Value? && last.Ok? && last.body.Dict?)
      && (!connected.Value? ==> n' == n1 && r == connected)
      && (last.Ok? && connected.Value? ==> n' == n1.(posts := n'.posts))
  {
    SettledBy(w, EnsureConnected(w, n).0);
  }

  /** A disconnect that goes through leaves nothing; the handle is handed out only with a session, and made only
      for a started node. */
  lemma DisconnectColumns(w: World, n: Node)
    ensures var (n', r) := Disconnect(w, n);
      && (r.Value? <==> FinalReply(w, n.posts).Ok?)
      && (r.Value? ==> n'.session == None && !n'.api && !n'.started && !n'.cachedConnected && !n'.cachedStarted)
    ensures var (n', r) := Api(w, n);
      && (r.Value? <==> n.session.Some? && n.session.value != "" && (n.api || (n.started && w.channel(n.posts) != NotCreated)))
      && n' == n.(api := n'.api) && (n'.api <==> n.api || r.Value?)
  {
    SettledBy(w, n);
  }

  // ---------- null session ids ----------

  /** The reply that settles a request whose first POST has this number: the second one if the first
      breaks. */
  function FinalReply(w: World, post: nat): Reply {
    if w.reply(post).Broken? then w.reply(post + 1) else w.reply(post)
  }

  /** The number of the first POST of the request after that. */
  function NextPost(w: World, post: nat): nat {
    if w.reply(post).Broken? then post + 2 else post + 1
  }

  /** The node will accept the connection with a null or empty session id. */
  predicate AcceptsWithoutId(w: World, n: Node) {
    w.certificate(n.posts) &&
    match FinalReply(w, n.posts)
    case Ok(Dict(Present(id), _)) => id.None? || id.value == ""
    case _ => false
  }

  /** `connect` keeps the invariant exactly when the id it will be given is real, or the status request
      that follows will not bring a dictionary, and either has the node expelled or finds it with
      nothing to lose. */
  lemma ConnectExact(w: World, n: Node)
    requires Inv(n)
    ensures var last := FinalReply(w, NextPost(w, n.posts));
            Inv(Connect(w, n).0) <==>
              || !AcceptsWithoutId(w, n)
              || (!(last.Ok? && last.body.Dict?) && (Clean(n) || Expels(last) || last.Broken?))
  {
    if w.certificate(n.posts) {
      SettledBy(w, n);
      var (n1, r) := Request(w, n);
      if r.Value? && r.value.Dict? && r.value.sessionId.Present? {
        SettledBy(w, n1.(session := r.value.sessionId.id));
      }
    }
  }

  /** What a request leaves, by the reply that settles it. */
  lemma SettledBy(w: World, n: Node)
    ensures var (n', r) := Request(w, n);
            var last := FinalReply(w, n.posts);
            && n'.posts == NextPost(w, n.posts)
            && (last.Ok? <==> r.Value?) && (last.Ok? ==> r.value == last.body && n' == n.(posts := n'.posts))
            && (Expels(last) || last.Broken? ==> !HasSession(n') && Clean(n'))
            && (!Expels(last) && !last.Broken? ==> n' == n.(posts := n'.posts))
            && !r.OtherError?
  {}

  /** A node that answers `/connect` with a null id: one call of `start` on a fresh object ends with a
      started node, an open handle and a cached (true, true), but no session. */
  lemma NullIdBreaksInvariant(w: World)
    requires forall i: nat :: w.reply(i) == Ok(Dict(Present(None), true)) && w.certificate(i) && w.channel(i) == Ready
    ensures var n := After(w, [DoStart]);
            && !Inv(n) && !HasSession(n) && n.started && n.api && n.cachedConnected && n.cachedStarted
  {
    assert [DoStart][..0] == [];
    assert After(w, [DoStart]) == Step(w, FRESH, DoStart);
  }

  /** The node object. `posts` and `ticks` count what it consumed of the outside world. */
  class ReSTXRayNode {
    const world: World
    var session: Option<string>
    var api: bool
    var started: bool
    var cachedConnected: bool
    var cachedStarted: bool
    var checkedAt: int
    var posts: nat
    var ticks: nat

    constructor (world: World)
      ensures this.world == world && State() == FRESH
    {
      this.world := world;
      session, api, started := None, false, false;
      cachedConnected, cachedStarted, checkedAt, posts, ticks := false, false, 0, 0, 0;
    }

    function State(): Node
      reads this
    {
      Node(session, api, started, cachedConnected, cachedStarted, checkedAt, posts, ticks)
    }

    method SetHealthCache(connected: bool, started: bool)
      modifies this
      ensures State() == SetHealth(world, old(State()), connected, started)
    {
      cachedConnected, cachedStarted, checkedAt := connected, started, world.clock(ticks);
      ticks := ticks + 1;
    }

    method DropSession()
      modifies this
      ensures State() == Expelled(world, old(State()))
    {
      session, api, started := None, false, false;
      SetHealthCache(false, false);
    }

    method MakeRequest() returns (r: Result<Body>)
      modifies this
      ensures (State(), r) == Request(world, old(State()))
      ensures posts <= old(posts) + 2
    {
      for attempt := 0 to 2
        invariant attempt == 1 ==> State() == old(State()).(posts := old(posts) + 1) && world.reply(old(posts)).Broken?
        invariant attempt == 0 ==> State() == old(State())
        invariant attempt < 2
      {
        var reply := world.reply(posts);
        posts := posts + 1;
        match reply {
          case Ok(body) =>
            return Value(body);
          case Refused(_, detail) =>
            if Expels(reply) {
              DropSession();
            }
            return ApiError(detail);
          case Broken =>
            if attempt != 0 {
              DropSession();
              return ApiError(OtherText);
            }
          case Crashed =>
            DropSession();
            return ApiError(OtherText);
        }
      }
      assert false;
    }

    method CheckHealthNow(force: bool) returns (r: Result<(bool, bool)>)
      modifies this
      ensures (State(), r) == CheckHealth(world, old(State()), force)
    {
      var now := world.clock(ticks);
      ticks := ticks + 1;
      if !force && world.ttl > 0 && now - checkedAt < world.ttl {
        if !HasSession(State()) {
          if cachedConnected || cachedStarted {
            checkedAt, cachedConnected, cachedStarted := now, false, false;
          }
          api, started := false, false;
          return Value((false, false));
        }
        return Value((cachedConnected, cachedStarted));
      }
      if !HasSession(State()) {
        SetHealthCache(false, false);
        api, started := false, false;
        return Value((false, false));
      }
      var connected, up := false, false;
      var res := MakeRequest();
      if res.Value? {
        if res.value.NotADict? {
          return OtherError;
        }
        connected, up := true, res.value.started;
      }
      checkedAt, cachedConnected, cachedStarted := now, connected, up;
      if !connected {
        session, api, started := None, false, false;
      } else if !up {
        api, started := false, false;
      } else {
        started := true;
      }
      return Value((connected, up));
    }

    method ConnectNow() returns (r: Result<()>)
      modifies this
      ensures (State(), r) == Connect(world, old(State()))
    {
      if !world.certificate(posts) {
        return OtherError;
      }
      var res := MakeRequest();
      match res {
        case ApiError(d) => return ApiError(d);
        case OtherError => return OtherError;
        case Value(body) =>
          if body.NotADict? || body.sessionId.Missing? {
            return OtherError;
          }
          session := body.sessionId.id;
      }
      var status := MakeRequest();
      match status {
        case ApiError(d) => return ApiError(d);
        case OtherError => return OtherError;
        case Value(body) =>
          if body.NotADict? {
            return OtherError;
          }
          SetHealthCache(true, body.started);
          return Value(());
      }
    }

    method EnsureConnectedNow() returns (r: Result<()>)
      modifies this
      ensures (State(), r) == EnsureConnected(world, old(State()))
    {
      var health := CheckHealthNow(true);
      if health.Value? && health.value.0 {
        return Value(());
      }
      r := ConnectNow();
    }

    method DisconnectNow() returns (r: Result<()>)
      modifies this
      ensures (State(), r) == Disconnect(world, old(State()))
    {
      var res := MakeRequest();
      match res {
        case ApiError(d) => return ApiError(d);
        case OtherError => return OtherError;
        case Value(_) =>
          DropSession();
          return Value(());
      }
    }

    method OpenApiNow() returns (r: Result<()>)
      modifies this
      ensures (State(), r) == OpenApi(world, old(State()))
    {
      started := true;
      SetHealthCache(true, true);
      var channel := world.channel(posts);
      if channel.NotCreated? {
        return OtherError;
      }
      api := true;
      return if channel.Ready? then Value(()) else OtherError;
    }

    method RestartNow() returns (r: Result<()>)
      modifies this
      ensures (State(), r) == Restart(world, old(State()))
    {
      r := EnsureConnectedNow();
      if !r.Value? {
        return;
      }
      var res := MakeRequest();
      match res {
        case ApiError(d) => return ApiError(d);
        case OtherError => return OtherError;
        case Value(_) => r := OpenApiNow();
      }
    }

    method StartNow() returns (r: Result<()>)
      modifies this
      ensures (State(), r) == Start(world, old(State()))
    {
      r := EnsureConnectedNow();
      if !r.Value? {
        return;
      }
      var res := MakeRequest();
      match res {
        case ApiError(d) =>
          if d.StartedAlready? {
            r := RestartNow();
          } else {
            return ApiError(d);
          }
        case OtherError => return OtherError;
        case Value(_) => r := OpenApiNow();
      }
    }

    method StopNow() returns (r: Result<()>)
      modifies this
      ensures (State(), r) == Stop(world, old(State()))
    {
      r := EnsureConnectedNow();
      if !r.Value? {
        return;
      }
      var res := MakeRequest();
      match res {
        case ApiError(d) => return ApiError(d);
        case OtherError => return OtherError;
        case Value(_) =>
          api, started := false, false;
          SetHealthCache(true, false);
          return Value(());
      }
    }

    method UseApiNow() returns (r: Result<()>)
      modifies this
      ensures (State(), r) == Api(world, old(State()))
    {
      if !HasSession(State()) {
        return OtherError;
      }
      if !api {
        if !started || world.channel(posts).NotCreated? {
          return OtherError;
        }
        api := true;
      }
      return Value(());
    }
  }
}
