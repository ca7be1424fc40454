/** The database status of a node under concurrent runtime operations. Every database session is one
    atomic step; operations interleave freely between their sessions. */
module NodeStatus {
  import opened Prelude

  datatype Status = Connected | Connecting | Error | Disabled | Limited

  /** What the operations on one node share: the status in its row (if it exists), the handle in the node
      registry, which of the handles made so far have a session, how many were made, the mark of a
      connect in progress, and the columns for used traffic and data limit. */
  datatype Shared = Shared(row: Option<Status>, registry: Option<nat>, live: set<nat>, handles: nat, connecting: bool,
                           used: nat, dataLimit: Option<nat>)

  /** The registered handle has a session: only then can it be connected. */
  predicate LiveNode(s: Shared) {
    s.registry.Some? && s.registry.value in s.live
  }

  // ---------- handles ----------

  /** A handle after a call that failed or after `disconnect`: it may or may not keep its session. */
  function Shaken(s: Shared, node: nat, keeps: bool): Shared {
    if keeps then s else s.(live := s.live - {node})
  }

  /** `remove_node` */
  function RemoveNode(s: Shared, keeps: bool): Shared {
    match s.registry
    case None => s
    case Some(node) => Shaken(s, node, keeps).(registry := None)
  }

  /** `add_node`: a new handle, without a session. */
  function AddNode(s: Shared, keeps: bool): Shared {
    RemoveNode(s, keeps).(registry := Some(s.handles), handles := s.handles + 1)
  }

  // ---------- the database sessions ----------

  /** `_change_node_status` */
  function ChangeStatus(s: Shared, status: Status, keeps: bool): Shared {
    match s.row
    case None => s
    case Some(Disabled) => RemoveNode(s, keeps)
    case Some(_) => s.(row := Some(status))
  }

  /** The session of `register_node_runtime_error` */
  function ReportError(s: Shared): Shared {
    if s.row.None? || s.row == Some(Disabled) || s.row == Some(Limited) then s else s.(row := Some(Error))
  }

  /** The session of the health check that confirms a node */
  function Confirm(s: Shared): Shared {
    if s.row.None? || s.row == Some(Disabled) || s.row == Some(Limited) then s else s.(row := Some(Connected))
  }

  predicate OverLimit(s: Shared, traffic: nat) {
    s.dataLimit.Some? && s.used + traffic >= s.dataLimit.value
  }

  /** `_update_node_limits`, the session of the usage job: it looks at the limit, not at `disabled`. */
  function RecordUsage(s: Shared, traffic: nat): Shared {
    if s.row.None? || traffic == 0 then s
    else
      s.(used := s.used + traffic,
         row := if OverLimit(s, traffic) then Some(Limited) else if s.row == Some(Limited) then Some(Connecting) else s.row)
  }

  // ---------- the operations, step by step ----------

  /** Where an operation is: what it does in its next step, and the handle it holds. */
  datatype Pc =
    | ConnectStart(force: bool)
    | ConnectOpen(force: bool)
    | ConnectMark(node: nat)
    | ConnectRun(node: nat)
    | ConnectWrite
    | ConnectFail(node: nat)
    | ConnectEnd
    | RestartStart
    | RestartOpen
    | RestartRun(node: nat)
    | RestartWrite
    | RestartFail(node: nat)
    | RestartDrop(node: nat)
    | ErrorReport
    | HealthStart
    | HealthProbe(seen: Option<Status>, node: nat)
    | HealthDecide(seen: Option<Status>, up: bool, running: bool)
    | HealthConfirm
    | UsageStart
    | UsageRecord
    | NodeRemove
    | Finished

  /** What the outside world decides in a step: how the node answers, whether calls to it fail, whether
      an error is reported on the side, whether the reconnect cooldown has passed, whether a handle
      keeps its session through a failed call or a disconnect, and the traffic the node counted. */
  datatype Choice = Choice(ok: bool, up: bool, running: bool, reports: bool, cooled: bool, keeps: bool, traffic: nat)

  datatype Effect = Effect(shared: Shared, pc: Pc, spawned: seq<Pc>)

  predicate Refused(row: Option<Status>) {
    row.None? || row == Some(Disabled) || row == Some(Limited)
  }

  function Reports(c: Choice): seq<Pc> {
    if c.reports then [ErrorReport] else []
  }

  /** `node.connected`: never without a session; the session goes when the probe fails. */
  predicate Reachable(s: Shared, node: nat, c: Choice) {
    node in s.live && c.up
  }

  function Probed(s: Shared, node: nat, c: Choice): Shared {
    if Reachable(s, node, c) then s else Shaken(s, node, c.keeps)
  }

  function Next(s: Shared, pc: Pc, c: Choice): Effect {
    match pc
    case ConnectStart(force) =>
      if (!force && s.connecting) || Refused(s.row) then Effect(s, Finished, []) else Effect(s, ConnectOpen(force), [])
    case ConnectOpen(force) =>
      if !force && s.registry.Some? && Reachable(s, s.registry.value, c)
      then Effect(s.(connecting := true), ConnectMark(s.registry.value), Reports(c))
      else Effect(AddNode(s, c.keeps).(connecting := true), ConnectMark(s.handles), Reports(c))
    case ConnectMark(node) => Effect(ChangeStatus(s, Connecting, c.keeps), ConnectRun(node), Reports(c))
    case ConnectRun(node) =>
      if c.ok then Effect(s.(live := s.live + {node}), ConnectWrite, Reports(c))
      else Effect(if c.up then s.(live := s.live + {node}) else Shaken(s, node, c.keeps), ConnectFail(node), Reports(c))
    case ConnectWrite => Effect(ChangeStatus(s, Connected, c.keeps), ConnectEnd, Reports(c))
    case ConnectFail(node) =>
      if Reachable(s, node, c) && c.running then Effect(ChangeStatus(s, Connected, c.keeps), ConnectEnd, Reports(c))
      else Effect(ReportError(Probed(s, node, c)), ConnectEnd, Reports(c))
    case ConnectEnd => Effect(s.(connecting := false), Finished, [])
    case RestartStart =>
      if s.row.None? || s.row == Some(Limited) then Effect(s, Finished, []) else Effect(s, RestartOpen, [])
    case RestartOpen =>
      if s.registry.None? then Effect(AddNode(s, c.keeps), Finished, Reports(c) + [ConnectStart(false)])
      else if Reachable(s, s.registry.value, c) then Effect(s, RestartRun(s.registry.value), Reports(c))
      else Effect(Shaken(s, s.registry.value, c.keeps), Finished, Reports(c) + [ConnectStart(false)])
    case RestartRun(node) =>
      if !c.ok then Effect(if c.up then s.(live := s.live + {node}) else Shaken(s, node, c.keeps), RestartFail(node), Reports(c))
      else Effect(s.(live := s.live + {node}), if c.running then RestartWrite else Finished, Reports(c))
    case RestartWrite => Effect(ChangeStatus(s, Connected, c.keeps), Finished, Reports(c))
    case RestartFail(node) => Effect(ReportError(s), RestartDrop(node), [])
    case RestartDrop(node) => Effect(Shaken(s, node, c.keeps), Finished, Reports(c))
    case ErrorReport => Effect(ReportError(s), Finished, [])
    case HealthStart => Effect(s, if s.registry.Some? then HealthProbe(s.row, s.registry.value) else Finished, [])
    case HealthProbe(seen, node) =>
      var up := Reachable(s, node, c);
      var s' := Probed(s, node, c);
      Effect(if seen == Some(Connected) && !(up && c.running) then ReportError(s') else s',
             HealthDecide(seen, up, up && c.running), Reports(c))
    case HealthDecide(seen, up, running) =>
      if seen == Some(Disabled) || seen == Some(Limited) then Effect(s, Finished, [])
      else if seen == Some(Error) && !(up && running) then Effect(s, Finished, if c.cooled then [ConnectStart(true)] else [])
      else if !up then Effect(s, Finished, [ConnectStart(false)])
      else if running && c.ok then Effect(s, HealthConfirm, [])
      else Effect(s, Finished, [RestartStart])
    case HealthConfirm => Effect(Confirm(s), Finished, [])
    case UsageStart =>
      if s.registry.None? then Effect(s, Finished, [])
      else
        Effect(Probed(s, s.registry.value, c),
               if Reachable(s, s.registry.value, c) && c.running then UsageRecord else Finished, Reports(c))
    case UsageRecord =>
      var s' := RecordUsage(s, c.traffic);
      if s'.row == s.row then Effect(s', Finished, [])
      else if s'.row == Some(Limited) then Effect(s', NodeRemove, [])
      else Effect(s', Finished, [ConnectStart(false)])
    case NodeRemove => Effect(RemoveNode(s, c.keeps), Finished, Reports(c))
    case Finished => Effect(s, Finished, [])
  }

  /** The whole system: the shared state and the operations in flight. */
  datatype Sys = Sys(shared: Shared, threads: seq<Pc>)

  /** One event: an operation in flight takes its next step, a new one is called, or an administrator
      changes the row. */
  datatype Event = Advance(thread: nat, choice: Choice) | Call(pc: Pc) | Admin(row: Option<Status>)

  predicate IsEntry(pc: Pc) {
    pc.ConnectStart? || pc.RestartStart? || pc.ErrorReport? || pc.HealthStart? || pc.UsageStart? || pc.NodeRemove?
  }

  predicate Runtime(e: Event) {
    !e.Admin? && (e.Call? ==> IsEntry(e.pc))
  }

  function Step(sys: Sys, e: Event): Sys {
    match e
    case Advance(i, c) =>
      if i >= |sys.threads| then sys
      else
        var f := Next(sys.shared, sys.threads[i], c);
        Sys(f.shared, sys.threads[i := f.pc] + f.spawned)
    case Call(pc) => Sys(sys.shared, sys.threads + [pc])
    case Admin(row) => sys.(shared := sys.shared.(row := row))
  }

  function Run(sys: Sys, events: seq<Event>): Sys
    decreases |events|
  {
    if events == [] then sys else Run(Step(sys, events[0]), events[1..])
  }

  /** Handles are numbered in the order in which they are made. */
  predicate Made(s: Shared, pc: Pc) {
    match pc
    case ConnectMark(node) => node < s.handles
    case ConnectRun(node) => node < s.handles
    case ConnectFail(node) => node < s.handles
    case RestartRun(node) => node < s.handles
    case RestartFail(node) => node < s.handles
    case RestartDrop(node) => node < s.handles
    case HealthProbe(_, node) => node < s.handles
    case _ => true
  }

  predicate WellFormed(sys: Sys) {
    && (sys.shared.registry.Some? ==> sys.shared.registry.value < sys.shared.handles)
    && (forall node <- sys.shared.live :: node < sys.shared.handles)
    && (forall pc <- sys.threads :: Made(sys.shared, pc))
  }

  lemma NextMakes(s: Shared, pc: Pc, c: Choice)
    requires (s.registry.Some? ==> s.registry.value < s.handles) && (forall node <- s.live :: node < s.handles) && Made(s, pc)
    ensures var f := Next(s, pc, c);
            && (f.shared.registry.Some? ==> f.shared.registry.value < f.shared.handles)
            && (forall node <- f.shared.live :: node < f.shared.handles)
            && f.shared.handles >= s.handles && Made(f.shared, f.pc) && forall x <- f.spawned :: Made(f.shared, x)
  {}

  /** Every state reached from a well-formed one is well formed. */
  lemma StepKeepsWellFormed(sys: Sys, e: Event)
    requires WellFormed(sys) && (Runtime(e) || e.Admin?)
    ensures WellFormed(Step(sys, e))
  {
    if e.Advance? && e.thread < |sys.threads| {
      var pc := sys.threads[e.thread];
      assert pc in sys.threads;
      var f := Next(sys.shared, pc, e.choice);
      NextMakes(sys.shared, pc, e.choice);
      forall x | x in Step(sys, e).threads ensures Made(f.shared, x) {
        ThreadsAfter(sys, e.thread, f, x);
      }
    }
  }

  // ---------- runs ----------

  lemma RunOne(sys: Sys, e: Event)
    ensures Run(sys, [e]) == Step(sys, e)
  {
    assert [e][1..] == [];
  }

  lemma RunCons(sys: Sys, e: Event, rest: seq<Event>)
    ensures Run(sys, [e] + rest) == Run(Step(sys, e), rest)
  {
    assert ([e] + rest)[1..] == rest;
  }

  lemma {:induction false} RunAppend(sys: Sys, a: seq<Event>, b: seq<Event>)
    ensures Run(sys, a + b) == Run(Run(sys, a), b)
    decreases |a|
  {
    if a == [] {
      assert a + b == b;
    } else {
      RunAppend(Step(sys, a[0]), a[1..], b);
      assert (a + b)[1..] == a[1..] + b;
    }
  }

  lemma RunThree(sys: Sys, a: Event, b: Event, c: Event)
    ensures Run(sys, [a, b, c]) == Step(Step(Step(sys, a), b), c)
  {
    RunCons(sys, a, [b, c]);
    RunCons(Step(sys, a), b, [c]);
    RunOne(Step(Step(sys, a), b), c);
    assert [a] + [b, c] == [a, b, c] && [b] + [c] == [b, c];
  }

  /** Every operation after a step was there before, or is where the step put it, or was started by it. */
  lemma ThreadsAfter(sys: Sys, i: nat, f: Effect, pc: Pc)
    requires i < |sys.threads| && pc in sys.threads[i := f.pc] + f.spawned
    ensures pc in sys.threads || pc == f.pc || pc in f.spawned
  {
    if pc !in f.spawned {
      assert pc in sys.threads[i := f.pc];
    }
  }

  /** The operation called last takes a step. */
  lemma StepLast(s: Shared, threads: seq<Pc>, pc: Pc, traffic: nat)
    ensures var f := Next(s, pc, Go(|threads|, traffic).choice);
            Step(Sys(s, threads + [pc]), Go(|threads|, traffic)) == Sys(f.shared, threads + [f.pc] + f.spawned)
  {
    var f := Next(s, pc, Go(|threads|, traffic).choice);
    assert (threads + [pc])[|threads| := f.pc] == threads + [f.pc];
  }

  /** A step in which everything goes well. */
  function Go(thread: nat, traffic: nat): Event {
    Advance(thread, Choice(true, true, true, false, false, true, traffic))
  }

  /** A run of the usage job. */
  function UsageEvents(thread: nat, traffic: nat): seq<Event> {
    [Call(UsageStart), Go(thread, 0), Go(thread, traffic)]
  }

  lemma UsageNext(s: Shared, c: Choice)
    requires LiveNode(s) && c.up && c.running && !c.reports
    ensures Next(s, UsageStart, c) == Effect(s, UsageRecord, [])
    ensures Next(s, UsageRecord, c).shared == RecordUsage(s, c.traffic)
  {}

  /** On a registered handle with a session a usage run records its traffic. */
  lemma UsageRuns(sys: Sys, traffic: nat)
    requires LiveNode(sys.shared)
    ensures Run(sys, UsageEvents(|sys.threads|, traffic)).shared == RecordUsage(sys.shared, traffic)
  {
    var s, threads := sys.shared, sys.threads;
    var first, second := Go(|threads|, 0), Go(|threads|, traffic);
    RunThree(sys, Call(UsageStart), first, second);
    var mid := Sys(s, threads + [UsageRecord]);
    assert Step(Sys(s, threads + [UsageStart]), first) == mid by {
      StepLast(s, threads, UsageStart, 0);
      UsageNext(s, first.choice);
      assert threads + [UsageRecord] + [] == threads + [UsageRecord];
    }
    assert Step(mid, second).shared == RecordUsage(s, traffic) by {
      StepLast(s, threads, UsageRecord, traffic);
      UsageNext(s, second.choice);
    }
  }

  // ---------- what the steps write ----------

  /** What each step leaves of a status that is neither disabled nor limited. Starting a connect makes it
      connecting, a connect or restart that goes through connected; a start that fails ends in error,
      unless the node proves connected and running after all; so does a restart that fails, every report,
      and a probe that finds a connected node down or not running; a health check that confirms the node
      makes it connected, and usage that reaches the limit limited. No other step changes it. */
  lemma StatusWritten(s: Shared, pc: Pc, c: Choice)
    requires s.row.Some? && s.row != Some(Disabled) && s.row != Some(Limited)
    ensures Next(s, pc, c).shared.row ==
      match pc
      case ConnectMark(_) => Some(Connecting)
      case ConnectWrite => Some(Connected)
      case ConnectFail(node) => if node in s.live && c.up && c.running then Some(Connected) else Some(Error)
      case RestartWrite => Some(Connected)
      case RestartFail(_) => Some(Error)
      case ErrorReport => Some(Error)
      case HealthProbe(seen, node) =>
        if seen == Some(Connected) && !(node in s.live && c.up && c.running) then Some(Error) else s.row
      case HealthConfirm => Some(Connected)
      case UsageRecord =>
        if c.traffic > 0 && s.dataLimit.Some? && s.used + c.traffic >= s.dataLimit.value then Some(Limited) else s.row
      case _ => s.row
  {}

  /** A disabled node is taken out of the registry by whatever would write its status; only usage that reaches
      the limit changes it. A limited one is overwritten by a connect or restart past its check, and by
      usage that the limit allows. A missing row stays missing. */
  lemma StatusGuarded(s: Shared, pc: Pc, c: Choice)
    requires s.row.None? || s.row == Some(Disabled) || s.row == Some(Limited)
    ensures var s' := Next(s, pc, c).shared;
      var writes := pc.ConnectMark? || pc.ConnectWrite? || pc.RestartWrite?
                    || (pc.ConnectFail? && pc.node in s.live && c.up && c.running);
      && (s.row.None? ==> s'.row.None? && s'.used == s.used)
      && (s.row == Some(Disabled) ==>
            && s'.row == (if pc.UsageRecord? && c.traffic > 0 && s.dataLimit.Some? && s.used + c.traffic >= s.dataLimit.value
                          then Some(Limited) else Some(Disabled))
            && (writes ==> s'.registry == None))
      && (s.row == Some(Limited) ==>
            s'.row == if pc.ConnectMark? then Some(Connecting)
                      else if writes then Some(Connected)
                      else if pc.UsageRecord? && c.traffic > 0
                              && (s.dataLimit.None? || s.used + c.traffic < s.dataLimit.value) then Some(Connecting)
                      else Some(Limited))
  {}

  /** What a connect and a restart check before they go on, and where they go from there. */
  lemma ConnectGates(s: Shared, c: Choice, force: bool, node: nat)
    ensures var refused := s.row.None? || s.row == Some(Disabled) || s.row == Some(Limited);
      Next(s, ConnectStart(force), c).pc == if refused || (!force && s.connecting) then Finished else ConnectOpen(force)
    ensures Next(s, ConnectMark(node), c).pc == ConnectRun(node)
    ensures Next(s, ConnectRun(node), c).pc == if c.ok then ConnectWrite else ConnectFail(node)
  {}

  lemma RestartGates(s: Shared, c: Choice, node: nat)
    ensures Next(s, RestartStart, c).pc == if s.row.None? || s.row == Some(Limited) then Finished else RestartOpen
    ensures Next(s, RestartRun(node), c).pc == if !c.ok then RestartFail(node) else if c.running then RestartWrite else Finished
    ensures Next(s, RestartOpen, c).pc ==
      if s.registry.Some? && s.registry.value in s.live && c.up then RestartRun(s.registry.value) else Finished
    ensures s.registry.None? ==> Next(s, RestartOpen, c).shared.registry == Some(s.handles)
  {}

  /** What the usage job and the health check look at, and what a health check sets off: nothing for a disabled or
      limited node; for a node in error that does not run, a forced connect once the cooldown has passed;
      for one that is down, a connect; for one that is up, the confirmation if it runs, else a restart. */
  lemma ProbeGates(s: Shared, c: Choice, seen: Option<Status>, up: bool, running: bool)
    ensures Next(s, UsageStart, c).pc ==
      if s.registry.Some? && s.registry.value in s.live && c.up && c.running then UsageRecord else Finished
    ensures Next(s, HealthStart, c).pc == if s.registry.Some? then HealthProbe(s.row, s.registry.value) else Finished
    ensures var f := Next(s, HealthDecide(seen, up, running), c);
      && f.shared == s
      && (seen == Some(Disabled) || seen == Some(Limited) ==> f.pc == Finished && f.spawned == [])
      && (seen != Some(Disabled) && seen != Some(Limited) ==>
            if up && running && c.ok then f.pc == HealthConfirm && f.spawned == []
            else f.pc == Finished
                 && f.spawned == if seen == Some(Error) && !(up && running) then (if c.cooled then [ConnectStart(true)] else [])
                                 else if up then [RestartStart] else [ConnectStart(false)])
  {}

  /** The mark of a connect in progress: set when the handle is chosen, cleared at the end, and left alone by every
      other step. */
  lemma MarkWritten(s: Shared, pc: Pc, c: Choice)
    ensures Next(s, pc, c).shared.connecting == if pc.ConnectOpen? then true else if pc.ConnectEnd? then false else s.connecting
  {}

  /** Which handles have a session after the steps that talk to the node: the handle gets one when the call goes
      through, or fails on a node that is up; otherwise, and after a disconnect, it may or may not keep it.
      Probing it changes that only if it is not reached. */
  lemma SessionsWritten(s: Shared, c: Choice, node: nat)
    ensures var kept := if c.keeps then s.live else s.live - {node};
      && Next(s, ConnectRun(node), c).shared.live == (if c.ok || c.up then s.live + {node} else kept)
      && Next(s, RestartRun(node), c).shared.live == (if c.ok || c.up then s.live + {node} else kept)
      && Next(s, RestartDrop(node), c).shared.live == kept
      && (s.registry == Some(node) ==>
            && Next(s, NodeRemove, c).shared.live == kept && Next(s, NodeRemove, c).shared.registry == None
            && Next(s, UsageStart, c).shared.live == (if node in s.live && c.up then s.live else kept))
      && forall seen: Option<Status> ::
           Next(s, HealthProbe(seen, node), c).shared.live == if node in s.live && c.up then s.live else kept
  {}

  /** What the steps set off, besides reports: a restart of a node that is not connected asks for a connect, not a
      forced one; usage that limits the node has it removed, usage that ends the limit has it connected; a
      health check decides by what its probe saw. */
  lemma FollowUps(s: Shared, c: Choice, seen: Option<Status>, node: nat)
    ensures var reports := if c.reports then [ErrorReport] else [];
      && (!(s.registry.Some? && s.registry.value in s.live && c.up) ==>
            Next(s, RestartOpen, c).spawned == reports + [ConnectStart(false)])
      && Next(s, HealthProbe(seen, node), c).pc
         == HealthDecide(seen, node in s.live && c.up, node in s.live && c.up && c.running)
    ensures var f := Next(s, UsageRecord, c);
      if s.row.Some? && c.traffic > 0 && s.dataLimit.Some? && s.used + c.traffic >= s.dataLimit.value && s.row != Some(Limited)
      then f.pc == NodeRemove && f.spawned == []
      else
        && f.pc == Finished
        && f.spawned == if s.row == Some(Limited) && c.traffic > 0
                           && (s.dataLimit.None? || s.used + c.traffic < s.dataLimit.value)
                        then [ConnectStart(false)] else []
  {}

  /** A whole connect that nothing interrupts, whatever the outside decides in each of its steps: on a node that
      is neither disabled nor limited nor being connected it ends connected if the start goes through, or
      if the node proves connected and running after all, and in error otherwise. */
  lemma ConnectEndsIn(s: Shared, force: bool, open: Choice, mark: Choice, run: Choice, last: Choice)
    requires s.row.Some? && s.row != Some(Disabled) && s.row != Some(Limited) && (force || !s.connecting)
    ensures var s1 := Next(s, ConnectOpen(force), open);
      && Next(s, ConnectStart(force), open).pc == ConnectOpen(force) && s1.pc.ConnectMark?
      && var node := s1.pc.node;
      var s2 := Next(s1.shared, ConnectMark(node), mark);
      var s3 := Next(s2.shared, s2.pc, run);
      var s4 := Next(s3.shared, s3.pc, last);
      && s2.shared.row == Some(Connecting) && s4.pc == ConnectEnd
      && s4.shared.row == (if run.ok || (node in s3.shared.live && last.up && last.running) then Some(Connected) else Some(Error))
  {
    var s1 := Next(s, ConnectOpen(force), open);
    assert s1.shared.row == s.row;
    StatusWritten(s1.shared, s1.pc, mark);
    var s2 := Next(s1.shared, s1.pc, mark);
    StatusWritten(s2.shared, s2.pc, run);
    var s3 := Next(s2.shared, s2.pc, run);
    StatusWritten(s3.shared, s3.pc, last);
  }

  /** So does a restart of a registered node that answers: connected if the core runs afterwards, in error if it
      fails, and as before if the version cannot be read. */
  lemma RestartEndsIn(s: Shared, open: Choice, run: Choice, last: Choice)
    requires s.row.Some? && s.row != Some(Disabled) && s.row != Some(Limited)
    requires s.registry.Some? && s.registry.value in s.live && open.up
    ensures var s1 := Next(s, RestartOpen, open);
      var s2 := Next(s1.shared, s1.pc, run);
      var s3 := Next(s2.shared, s2.pc, last);
      && Next(s, RestartStart, open).pc == RestartOpen
      && s3.shared.row == if !run.ok then Some(Error) else if run.running then Some(Connected) else s.row
  {
    var s1 := Next(s, RestartOpen, open);
    var s2 := Next(s1.shared, s1.pc, run);
    StatusWritten(s1.shared, s1.pc, run);
    StatusWritten(s2.shared, s2.pc, last);
  }

  // ---------- disabled ----------

  /** The traffic that usage sessions could record in a run. */
  function Traffic(events: seq<Event>): nat {
    if events == [] then 0
    else (if events[0].Advance? then events[0].choice.traffic else 0) + Traffic(events[1..])
  }

  /** The data limit is out of reach of the run. */
  predicate BelowLimit(s: Shared, events: seq<Event>) {
    s.dataLimit.None? || s.used + Traffic(events) < s.dataLimit.value
  }

  /** Once a node is disabled it stays so, whatever operations are in flight, wherever they are, and
      however they interleave, as long as the traffic of the run does not reach the data limit. */
  lemma {:induction false} DisabledIsAbsorbing(sys: Sys, events: seq<Event>)
    requires sys.shared.row == Some(Disabled) && forall e <- events :: Runtime(e)
    requires BelowLimit(sys.shared, events)
    ensures Run(sys, events).shared.row == Some(Disabled)
    decreases |events|
  {
    if events != [] {
      assert events[0] in events;
      assert forall e <- events[1..] :: e in events;
      StepKeepsDisabled(sys, events[0]);
      DisabledIsAbsorbing(Step(sys, events[0]), events[1..]);
    }
  }

  lemma StepKeepsDisabled(sys: Sys, e: Event)
    requires sys.shared.row == Some(Disabled) && Runtime(e)
    ensures var s, s' := sys.shared, Step(sys, e).shared;
            var traffic := if e.Advance? then e.choice.traffic else 0;
            && s'.dataLimit == s.dataLimit && s'.used <= s.used + traffic
            && (!OverLimit(s, traffic) ==> s'.row == Some(Disabled))
  {
    if e.Advance? && e.thread < |sys.threads| {
      NextKeepsDisabled(sys.shared, sys.threads[e.thread], e.choice);
    }
  }

  lemma NextKeepsDisabled(s: Shared, pc: Pc, c: Choice)
    requires s.row == Some(Disabled)
    ensures var s' := Next(s, pc, c).shared;
            && s'.dataLimit == s.dataLimit && s'.used <= s.used + c.traffic
            && (!OverLimit(s, c.traffic) || pc != UsageRecord ==> s'.row == Some(Disabled))
  {}

  /** An administrator disabling the node anywhere in a run has the last word, under the same condition
      on what follows. */
  lemma DisablingWins(sys: Sys, before: seq<Event>, after: seq<Event>)
    requires forall e <- after :: Runtime(e)
    requires BelowLimit(Run(sys, before).shared, after)
    ensures Run(sys, before + [Admin(Some(Disabled))] + after).shared.row == Some(Disabled)
  {
    RunAppend(sys, before + [Admin(Some(Disabled))], after);
    RunAppend(sys, before, [Admin(Some(Disabled))]);
    var mid := Run(sys, before);
    RunOne(mid, Admin(Some(Disabled)));
    DisabledIsAbsorbing(Step(mid, Admin(Some(Disabled))), after);
  }

  /** The operation is about to give a session to the registered handle. */
  predicate Revives(s: Shared, pc: Pc) {
    (pc.ConnectRun? || pc.RestartRun?) && s.registry == Some(pc.node)
  }

  /** A usage session is under way on a disabled node, or can begin. */
  predicate UsageThreatens(sys: Sys) {
    UsageRecord in sys.threads || LiveNode(sys.shared) || exists pc <- sys.threads :: Revives(sys.shared, pc)
  }

  predicate Calm(s: Shared, pc: Pc) {
    !pc.UsageRecord? && !Revives(s, pc)
  }

  /** What a calm step on a disabled node may lead to. */
  predicate LeadsToCalm(s: Shared, f: Effect) {
    && f.shared.row == Some(Disabled) && !LiveNode(f.shared)
    && Calm(f.shared, f.pc) && (forall x <- f.spawned :: Calm(f.shared, x))
    && (f.shared.registry == s.registry || f.shared.registry == None || f.shared.registry == Some(s.handles))
  }

  predicate MadeInOrder(s: Shared, pc: Pc) {
    (s.registry.Some? ==> s.registry.value < s.handles) && (forall node <- s.live :: node < s.handles) && Made(s, pc)
  }

  lemma ConnectStaysCalm(s: Shared, pc: Pc, c: Choice)
    requires s.row == Some(Disabled) && !LiveNode(s) && Calm(s, pc) && MadeInOrder(s, pc)
    requires pc.ConnectOpen? || pc.ConnectMark? || pc.ConnectRun? || pc.ConnectWrite? || pc.ConnectFail?
    ensures LeadsToCalm(s, Next(s, pc, c))
  {}

  lemma RestartStaysCalm(s: Shared, pc: Pc, c: Choice)
    requires s.row == Some(Disabled) && !LiveNode(s) && Calm(s, pc) && MadeInOrder(s, pc)
    requires pc.RestartOpen? || pc.RestartRun? || pc.RestartWrite?
    ensures LeadsToCalm(s, Next(s, pc, c))
  {}

  lemma NextStaysCalm(s: Shared, pc: Pc, c: Choice)
    requires s.row == Some(Disabled) && !LiveNode(s) && Calm(s, pc) && MadeInOrder(s, pc)
    ensures LeadsToCalm(s, Next(s, pc, c))
  {
    if pc.ConnectOpen? || pc.ConnectMark? || pc.ConnectRun? || pc.ConnectWrite? || pc.ConnectFail? {
      ConnectStaysCalm(s, pc, c);
    } else if pc.RestartOpen? || pc.RestartRun? || pc.RestartWrite? {
      RestartStaysCalm(s, pc, c);
    }
  }

  lemma StepStaysCalm(sys: Sys, e: Event)
    requires WellFormed(sys) && Runtime(e) && sys.shared.row == Some(Disabled) && !UsageThreatens(sys)
    ensures Step(sys, e).shared.row == Some(Disabled) && !UsageThreatens(Step(sys, e))
  {
    var s, s' := sys.shared, Step(sys, e).shared;
    if e.Advance? && e.thread < |sys.threads| {
      var pc := sys.threads[e.thread];
      assert pc in sys.threads;
      var f := Next(s, pc, e.choice);
      NextStaysCalm(s, pc, e.choice);
      forall x | x in Step(sys, e).threads ensures Calm(s', x) {
        ThreadsAfter(sys, e.thread, f, x);
        if x in sys.threads {
          assert Made(s, x) && Calm(s, x);
        }
      }
    }
  }

  lemma {:induction false} DisabledStaysCalm(sys: Sys, events: seq<Event>)
    requires WellFormed(sys) && sys.shared.row == Some(Disabled) && !UsageThreatens(sys)
    requires forall e <- events :: Runtime(e)
    ensures Run(sys, events).shared.row == Some(Disabled)
    decreases |events|
  {
    if events != [] {
      assert events[0] in events;
      assert forall e <- events[1..] :: e in events;
      StepKeepsWellFormed(sys, events[0]);
      StepStaysCalm(sys, events[0]);
      DisabledStaysCalm(Step(sys, events[0]), events[1..]);
    }
  }

  /** When runtime code can do nothing to a disabled node: exactly when it has no data limit, or no usage
      session is under way and none can begin, because the registered handle, if any, has no session
      and no connect or restart is about to give it one. */
  lemma DisabledForeverIff(sys: Sys)
    requires WellFormed(sys) && sys.shared.row == Some(Disabled)
    ensures (forall events: seq<Event> :: (forall e <- events :: Runtime(e)) ==> Run(sys, events).shared.row == Some(Disabled))
       <==> sys.shared.dataLimit.None? || !UsageThreatens(sys)
  {
    if sys.shared.dataLimit.None? || !UsageThreatens(sys) {
      forall events: seq<Event> | forall e <- events :: Runtime(e)
        ensures Run(sys, events).shared.row == Some(Disabled)
      {
        if sys.shared.dataLimit.None? {
          DisabledIsAbsorbing(sys, events);
        } else {
          DisabledStaysCalm(sys, events);
        }
      }
    } else {
      var events := UsageLimits(sys);
    }
  }

  /** The run that moves a disabled node with a limit to `limited`. */
  lemma UsageLimits(sys: Sys) returns (events: seq<Event>)
    requires sys.shared.row.Some? && sys.shared.dataLimit.Some? && UsageThreatens(sys)
    ensures (forall e <- events :: Runtime(e)) && Run(sys, events).shared.row == Some(Limited)
  {
    var enough := 1 + sys.shared.dataLimit.value;
    if LiveNode(sys.shared) {
      events := UsageEvents(|sys.threads|, enough);
      UsageRuns(sys, enough);
    } else if UsageRecord in sys.threads {
      var i: nat :| i < |sys.threads| && sys.threads[i] == UsageRecord;
      events := [Go(i, enough)];
      RunOne(sys, Go(i, enough));
    } else {
      var pc :| pc in sys.threads && Revives(sys.shared, pc);
      var i: nat :| i < |sys.threads| && sys.threads[i] == pc;
      var one := Step(sys, Go(i, 0));
      ReviveGoes(sys.shared, pc, Go(i, 0).choice);
      var usage := UsageEvents(|one.threads|, enough);
      UsageRuns(one, enough);
      events := [Go(i, 0)] + usage;
      RunCons(sys, Go(i, 0), usage);
    }
  }

  lemma ReviveGoes(s: Shared, pc: Pc, c: Choice)
    requires Revives(s, pc) && c.ok
    ensures var s' := Next(s, pc, c).shared;
            LiveNode(s') && s'.row == s.row && s'.used == s.used && s'.dataLimit == s.dataLimit
  {}

  // ---------- limited ----------

  /** The operation has passed its status check and can still change the status: it will in any case, or
      once its own handle, or the registered one, proves to be connected. */
  predicate Overwrites(s: Shared, pc: Pc) {
    || pc.ConnectOpen? || pc.ConnectMark? || pc.ConnectRun? || pc.ConnectWrite? || pc.RestartRun? || pc.RestartWrite?
    || (pc.ConnectFail? && pc.node in s.live)
    || (pc.RestartOpen? && LiveNode(s))
  }

  /** No traffic can end the limit: one more byte is over it already. */
  predicate OverForGood(s: Shared) {
    OverLimit(s, 1)
  }

  /** A usage session is under way or can begin on a limited node. */
  predicate UsageCanRecord(sys: Sys) {
    UsageRecord in sys.threads || LiveNode(sys.shared)
  }

  predicate Settled(sys: Sys) {
    && sys.shared.row == Some(Limited)
    && (forall pc <- sys.threads :: !Overwrites(sys.shared, pc))
    && (OverForGood(sys.shared) || !UsageCanRecord(sys))
  }

  /** Without an operation that overwrites, handles only lose sessions, and a new one has none. */
  lemma SettledNext(s: Shared, pc: Pc, c: Choice)
    requires s.row == Some(Limited) && !Overwrites(s, pc)
    requires OverForGood(s) || (!LiveNode(s) && pc != UsageRecord)
    requires forall node <- s.live :: node < s.handles
    ensures var f := Next(s, pc, c);
            && f.shared.row == Some(Limited) && f.shared.live <= s.live
            && !Overwrites(f.shared, f.pc) && (forall x <- f.spawned :: !Overwrites(f.shared, x) && x != UsageRecord)
            && (LiveNode(f.shared) ==> LiveNode(s))
            && (OverForGood(s) ==> OverForGood(f.shared))
            && (!OverForGood(s) ==> f.pc != UsageRecord)
  {}

  lemma SettledStep(sys: Sys, e: Event)
    requires WellFormed(sys) && Settled(sys) && Runtime(e)
    ensures Settled(Step(sys, e))
  {
    if e.Advance? && e.thread < |sys.threads| {
      var pc := sys.threads[e.thread];
      assert pc in sys.threads;
      var f := Next(sys.shared, pc, e.choice);
      SettledNext(sys.shared, pc, e.choice);
      forall x | x in Step(sys, e).threads
        ensures !Overwrites(f.shared, x) && (!OverForGood(sys.shared) ==> x != UsageRecord)
      {
        ThreadsAfter(sys, e.thread, f, x);
      }
    }
  }

  lemma {:induction false} SettledForever(sys: Sys, events: seq<Event>)
    requires WellFormed(sys) && Settled(sys) && forall e <- events :: Runtime(e)
    ensures Run(sys, events).shared.row == Some(Limited)
    decreases |events|
  {
    if events != [] {
      assert events[0] in events;
      assert forall e <- events[1..] :: e in events;
      StepKeepsWellFormed(sys, events[0]);
      SettledStep(sys, events[0]);
      SettledForever(Step(sys, events[0]), events[1..]);
    }
  }

  /** How many steps an operation that overwrites is away from doing so. */
  function StepsLeft(pc: Pc): nat {
    match pc
    case ConnectOpen(_) => 2
    case ConnectRun(_) => 2
    case RestartOpen => 3
    case RestartRun(_) => 2
    case _ => 1
  }

  function Going(i: nat, steps: nat): seq<Event> {
    if steps == 0 then [] else [Go(i, 0)] + Going(i, steps - 1)
  }

  lemma OverwriteGoes(s: Shared, pc: Pc, c: Choice)
    requires (s.row == Some(Limited) || s.row == Some(Connecting)) && Overwrites(s, pc)
    requires c.ok && c.up && c.running
    ensures var f := Next(s, pc, c);
            if StepsLeft(pc) == 1 then f.shared.row == Some(Connecting) || f.shared.row == Some(Connected)
            else f.shared.row == s.row && Overwrites(f.shared, f.pc) && StepsLeft(f.pc) == StepsLeft(pc) - 1
  {}

  lemma {:induction false} GoingOverwrites(sys: Sys, i: nat)
    requires sys.shared.row == Some(Limited) || sys.shared.row == Some(Connecting)
    requires i < |sys.threads| && Overwrites(sys.shared, sys.threads[i])
    ensures var row := Run(sys, Going(i, StepsLeft(sys.threads[i]))).shared.row; row == Some(Connecting) || row == Some(Connected)
    decreases StepsLeft(sys.threads[i])
  {
    var pc, go := sys.threads[i], Go(i, 0);
    var one := Step(sys, go);
    OverwriteGoes(sys.shared, pc, go.choice);
    RunCons(sys, go, Going(i, StepsLeft(pc) - 1));
    if StepsLeft(pc) == 1 {
      assert Run(one, Going(i, 0)) == one;
    } else {
      assert one.threads[i] == Next(sys.shared, pc, go.choice).pc;
      GoingOverwrites(one, i);
    }
  }

  lemma {:induction false} GoingIsRuntime(i: nat, steps: nat)
    ensures forall e <- Going(i, steps) :: Runtime(e)
  {
    if steps > 0 {
      GoingIsRuntime(i, steps - 1);
    }
  }

  /** A limited node stays limited under all further runtime events exactly when no operation in flight has
      passed its check and can still overwrite it, and either one more byte is over the limit or the
      usage job cannot record any: no recording is under way, and the registered handle, if any, has no
      session. */
  lemma LimitedIsKeptIff(sys: Sys)
    requires WellFormed(sys) && sys.shared.row == Some(Limited)
    ensures (forall events: seq<Event> :: (forall e <- events :: Runtime(e)) ==> Run(sys, events).shared.row == Some(Limited))
       <==> (forall pc <- sys.threads :: !Overwrites(sys.shared, pc)) && (OverForGood(sys.shared) || !UsageCanRecord(sys))
  {
    if Settled(sys) {
      forall events: seq<Event> | forall e <- events :: Runtime(e)
        ensures Run(sys, events).shared.row == Some(Limited)
      {
        SettledForever(sys, events);
      }
    } else if pc :| pc in sys.threads && Overwrites(sys.shared, pc) {
      var i: nat :| i < |sys.threads| && sys.threads[i] == pc;
      GoingOverwrites(sys, i);
      GoingIsRuntime(i, StepsLeft(pc));
    } else {
      var events := UsageClears(sys);
    }
  }

  /** A limit that was raised or removed is noticed by the usage job. */
  lemma UsageClears(sys: Sys) returns (events: seq<Event>)
    requires sys.shared.row == Some(Limited) && !OverForGood(sys.shared) && UsageCanRecord(sys)
    ensures (forall e <- events :: Runtime(e)) && Run(sys, events).shared.row == Some(Connecting)
  {
    if LiveNode(sys.shared) {
      events := UsageEvents(|sys.threads|, 1);
      UsageRuns(sys, 1);
    } else {
      var i: nat :| i < |sys.threads| && sys.threads[i] == UsageRecord;
      events := [Go(i, 1)];
      RunOne(sys, Go(i, 1));
    }
  }

  /** The race that loses `limited`: a connect has checked a node in error, the node is limited, and
      the connect then writes its own status. */
  lemma LimitedLostMidConnect()
    ensures var start := Sys(Shared(Some(Error), None, {}, 0, false, 0, None), []);
            Run(start, [Call(ConnectStart(false)), Go(0, 0), Admin(Some(Limited)), Go(0, 0), Go(0, 0)]).shared.row == Some(Connecting)
  {
    var start := Sys(Shared(Some(Error), None, {}, 0, false, 0, None), []);
    var go, call, limit := Go(0, 0), Call(ConnectStart(false)), Admin(Some(Limited));
    assert [call, go, limit, go, go] == [call, go, limit] + [go, go];
    RunAppend(start, [call, go, limit], [go, go]);
    RunThree(start, call, go, limit);
    var a := Step(start, call);
    assert a.threads == [ConnectStart(false)];
    var b := Step(a, go);
    assert b.threads == [ConnectOpen(false)];
    var c := Step(b, limit);
    assert [go, go] == [go] + [go];
    RunCons(c, go, [go]);
    var d := Step(c, go);
    assert d.threads == [ConnectMark(0)];
    RunOne(d, go);
  }

  // ---------- the sessions and the error reports ----------

  const COOLDOWN := 60

  /** The sequential side: the node's row, its registry entry, and the last error that was notified. */
  class NodeOperations {
    var row: Option<Status>
    var registry: Option<nat>
    var live: set<nat>
    var handles: nat
    var connecting: bool
    var used: nat
    var dataLimit: Option<nat>
    var lastReport: Option<(string, int)>
    var notified: seq<(string, int)>

    constructor (row: Option<Status>, used: nat, dataLimit: Option<nat>)
      ensures Current() == Shared(row, None, {}, 0, false, used, dataLimit) && lastReport == None && notified == []
    {
      this.row, registry, live, handles, connecting, this.used, this.dataLimit := row, None, {}, 0, false, used, dataLimit;
      lastReport, notified := None, [];
    }

    function Current(): Shared
      reads this
    {
      Shared(row, registry, live, handles, connecting, used, dataLimit)
    }

    method ChangeNodeStatus(status: Status, keeps: bool)
      modifies this`row, this`registry, this`live
      ensures Current() == ChangeStatus(old(Current()), status, keeps)
      ensures row == if old(row).None? then None else if old(row) == Some(Disabled) then Some(Disabled) else Some(status)
      ensures old(row) == Some(Disabled) ==> registry == None
    {
      if row.None? {
        return;
      }
      if row == Some(Disabled) {
        RemoveHandle(keeps);
        return;
      }
      row := Some(status);
    }

    /** `remove_node`; `keeps` tells whether the handle's session survives the disconnect. */
    method RemoveHandle(keeps: bool)
      modifies this`registry, this`live
      ensures Current() == RemoveNode(old(Current()), keeps)
      ensures registry == None
      ensures live == if old(registry).Some? && !keeps then old(live) - {old(registry).value} else old(live)
    {
      if registry.Some? {
        if !keeps {
          live := live - {registry.value};
        }
        registry := None;
      }
    }

    /** `add_node` */
    method AddHandle(keeps: bool) returns (node: nat)
      modifies this`registry, this`live, this`handles
      ensures Current() == AddNode(old(Current()), keeps) && node == old(handles)
      ensures registry == Some(node) && handles == node + 1 && live <= old(live)
    {
      RemoveHandle(keeps);
      node := handles;
      registry, handles := Some(node), handles + 1;
    }

    /** `_update_node_limits`, called with traffic on an existing row only. */
    method UpdateNodeLimits(traffic: nat) returns (limitedTriggered: bool, limitCleared: bool)
      requires row.Some? && traffic > 0
      modifies this`row, this`used
      ensures Current() == RecordUsage(old(Current()), traffic)
      ensures used == old(used) + traffic
      ensures row == if dataLimit.Some? && used >= dataLimit.value then Some(Limited)
                     else if old(row) == Some(Limited) then Some(Connecting) else old(row)
      ensures limitedTriggered <==> row == Some(Limited) && old(row) != Some(Limited)
      ensures limitCleared <==> row != Some(Limited) && old(row) == Some(Limited)
    {
      limitedTriggered, limitCleared := false, false;
      used := used + traffic;
      if dataLimit.Some? && used >= dataLimit.value {
        if row != Some(Limited) {
          row, limitedTriggered := Some(Limited), true;
        }
      } else if row == Some(Limited) {
        row, limitCleared := Some(Connecting), true;
      }
    }

    /** Identical errors in a row are notified once per cooldown. */
    predicate Spaced()
      reads this
    {
      && (lastReport.Some? <==> notified != [])
      && (lastReport.Some? ==> notified[|notified| - 1] == lastReport.value)
      && forall i :: 0 < i < |notified| && notified[i].0 == notified[i - 1].0 ==> notified[i].1 - notified[i - 1].1 >= COOLDOWN
    }

    method RegisterNodeRuntimeError(error: string, now: int)
      requires Spaced()
      modifies this`row, this`lastReport, this`notified
      ensures Current() == ReportError(old(Current()))
      ensures row == if old(row).None? || old(row) == Some(Disabled) || old(row) == Some(Limited) then old(row) else Some(Error)
      ensures Spaced()
      ensures forall i :: 0 < i < |notified| && notified[i].0 == notified[i - 1].0 ==> notified[i].1 - notified[i - 1].1 >= 60
      ensures notified == old(notified) || notified == old(notified) + [(error, now)]
      ensures notified == old(notified) ==>
                old(lastReport).Some? && old(lastReport).value.0 == error && now - old(lastReport).value.1 < 60
    {
      if row.Some? && row != Some(Disabled) && row != Some(Limited) {
        row := Some(Error);
      }
      if lastReport.Some? && lastReport.value.0 == error && now - lastReport.value.1 < COOLDOWN {
        return;
      }
      lastReport := Some((error, now));
      notified := notified + [(error, now)];
    }
  }
}
