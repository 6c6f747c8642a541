/** The worker supervisor as a state machine: one event per arm of its select loop.

    An arm that awaits database actors is split in two: it starts by cancelling what it will
    wait for and moves to `Closing`, and `Resume` finishes it once every awaited actor and
    every one-shot data task has ended.  Between the two only the environment moves (actors,
    the tasks that deliver a commit or rollback, data tasks), exactly as in the loop, where
    no other arm runs during an await. */
module Supervisor {
  import opened Common
  import opened TxActor

  type InvocationId = nat
  type RequestId = nat
  type MessageId = int
  type InvokeId = nat
  type TxId = nat
  type TaskId = nat

  datatype Kind = Ordinary | Public | Approved

  datatype Config = Config(kind: Kind, scoped: bool)

  datatype Status = Starting | Running | Stopping | Stopped | Crashed

  datatype Process = Process(status: Status, child: bool, reader: bool, writer: bool, protocol: nat)

  /** A job id that parses as a queue message id, or one that does not. */
  datatype JobId = Numeric(n: MessageId) | Other

  datatype Jobs = Jobs(invocations: map<MessageId, InvocationId>, leases: set<MessageId>, payloads: set<MessageId>)

  datatype Agents = Agents(runs: set<InvokeId>, streams: set<InvokeId>)

  /** How a session left the table of open transactions. */
  datatype Fate = CommitAsked | RollbackAsked | Abandoned

  /** What was true when a transaction was opened: the invocation the worker quoted, whether
      the worker was held to the echo, and whether the begin timed out and left no session. */
  datatype Birth = Birth(quoted: Option<InvocationId>, echoed: bool, orphan: bool)

  /** `open` and `owner` are the loop's two tables, `tracked` the approved actors it owns,
      `finishing` the spawned tasks still carrying a commit (true) or a rollback to an actor.
      `born` and `fate` record history and are never read by the loop. */
  datatype Txs = Txs(
    open: set<TxId>,
    owner: map<TxId, InvocationId>,
    tracked: map<TxId, InvocationId>,
    actors: map<TxId, Actor>,
    finishing: map<TxId, bool>,
    born: map<TxId, Birth>,
    fate: map<TxId, Fate>)

  /** How the crash arm ends, after its backoff. */
  datatype Recovery = GaveUp | StoppedInBackoff | Respawned | RespawnFailed

  datatype After =
    | Resolve(invocation: InvocationId)
    | Expire(request: RequestId, invocation: InvocationId)
    | StopNow
    | KillApproved
    | Recover(how: Recovery)

  datatype Pc = Ready | Closing(awaited: set<TxId>, after: After) | Exited

  datatype State = State(
    cfg: Config,
    process: Process,
    active: set<InvocationId>,
    rpcs: map<RequestId, InvocationId>,
    jobs: Jobs,
    agents: Agents,
    txs: Txs,
    tasks: map<TaskId, Option<InvocationId>>,
    pc: Pc,
    minted: set<InvocationId>,
    resolved: set<InvocationId>)

  const INVOCATION_PROTOCOL_VERSION: nat := 4
  const MAX_OPEN_TRANSACTIONS: nat := 4

  const NoJobs := Jobs(map[], {}, {})
  const NoAgents := Agents({}, {})
  const Down := Process(Stopped, false, false, false, 1)

  function Init(cfg: Config): State
  {
    State(cfg, Down, {}, map[], NoJobs, NoAgents,
          Txs({}, map[], map[], map[], map[], map[], map[]), map[], Ready, {}, {})
  }

  // ---- Pure rules of the loop ----

  function CapabilityContext(s: State, quoted: Option<InvocationId>): bool
  {
    if !s.cfg.scoped then true
    else if s.process.protocol < INVOCATION_PROTOCOL_VERSION then true
    else quoted.Some? && quoted.value in s.active
  }

  predicate EchoesInvocation(s: State)
  {
    s.cfg.scoped && s.process.protocol >= INVOCATION_PROTOCOL_VERSION
  }

  function Lookup(m: map<TxId, InvocationId>, tx: TxId): Option<InvocationId>
  {
    if tx in m then Some(m[tx]) else None
  }

  predicate TxMessageAdmitted(s: State, tx: TxId, quoted: Option<InvocationId>)
  {
    EchoesInvocation(s) ==> quoted == Lookup(s.txs.owner, tx) && CapabilityContext(s, quoted)
  }

  predicate JobAlreadyInFlight(jobs: Jobs, id: JobId)
  {
    id.Numeric? && id.n in jobs.leases
  }

  predicate NoWorkInFlight(s: State)
  {
    s.active == {} && s.txs.open == {} && s.jobs.leases == {} && s.agents.streams == {}
  }

  // ---- Transaction tables ----

  function OwnedBy(m: map<TxId, InvocationId>, inv: InvocationId): set<TxId>
  {
    set x | x in m && m[x] == inv
  }

  function CancelActors(actors: map<TxId, Actor>, ids: set<TxId>): map<TxId, Actor>
  {
    map x | x in actors :: if x in ids then Cancel(actors[x]) else actors[x]
  }

  /** Dropping a session cancels its actor. */
  function Abandon(t: Txs, ids: set<TxId>): Txs
  {
    var gone := t.open * ids;
    t.(open := t.open - ids, owner := t.owner - ids,
       actors := CancelActors(t.actors, gone),
       fate := t.fate + map x | x in gone :: Abandoned)
  }

  /** `finish_tx` and `abort_tx`: the session moves to a spawned task that will deliver the command. */
  function Ask(t: Txs, tx: TxId, commit: bool): Txs
  {
    t.(open := t.open - {tx}, owner := t.owner - {tx},
       finishing := t.finishing[tx := commit],
       fate := t.fate[tx := if commit then CommitAsked else RollbackAsked])
  }

  /** An approved actor is cancelled through the table it is tracked in, then its session dropped. */
  function DropDenied(t: Txs, tx: TxId): Txs
  {
    Abandon(t.(actors := CancelActors(t.actors, if tx in t.tracked then {tx} else {})), {tx})
  }

  function Untrack(t: Txs, ids: set<TxId>): Txs
  {
    t.(tracked := t.tracked - ids, actors := CancelActors(t.actors, ids))
  }

  function Push(t: Txs, tx: TxId, c: Command): Txs
    requires tx in t.actors
  {
    t.(actors := t.actors[tx := t.actors[tx].(queue := t.actors[tx].queue + [c])])
  }

  predicate CanQueue(t: Txs, tx: TxId)
  {
    tx in t.actors && t.actors[tx].phase != Finished && |t.actors[tx].queue| < QUEUE_CAPACITY
  }

  predicate IsFinished(t: Txs, tx: TxId)
  {
    tx in t.actors && t.actors[tx].phase == Finished
  }

  // ---- Events ----

  datatype BeginOutcome = Opened | Refused | TimedOut

  datatype Message =
    | Discover(protocol: nat)
    | RpcResponse(id: RequestId)
    | JobResult(job: JobId)
    | AgentEnd(invoke: InvokeId)
    | DataOp(quoted: Option<InvocationId>, task: TaskId)
    | SqlBegin(quoted: Option<InvocationId>, tx: TxId, outcome: BeginOutcome)
    | SqlExec(quoted: Option<InvocationId>, tx: TxId, withinRate: bool, queued: bool)
    | SqlCommit(quoted: Option<InvocationId>, tx: TxId)
    | SqlRollback(quoted: Option<InvocationId>, tx: TxId)
    | Log
    | Replying
    | Silent

  datatype Event =
    | StartCmd(spawned: bool)
    | StopCmd
    | RpcCmd(request: RequestId, invocation: InvocationId, sent: bool)
    | JobCmd(jobId: JobId, invocation: InvocationId, sent: bool)
    | AgentCmd(agent: InvokeId, sent: bool)
    | Inbound(msg: Message, backlog: bool)
    | Eof(how: Recovery)
    | ResponseUndeliverable
    | Expiry(request: RequestId, invocation: InvocationId)
    | TxDone(txId: TxId)
    | Resume
    | ActorMove(txId: TxId, move: Move)
    | Deliver(txId: TxId)
    | TaskEnds(taskId: TaskId)

  /** What the capability gate of an approved or public worker decides. */
  datatype Verdict = Pass | Deny | Kill

  function ApprovedGate(s: State, msg: Message): Verdict
  {
    match msg
    case Discover(p) => if p >= INVOCATION_PROTOCOL_VERSION then Pass else Kill
    case Log => Pass
    case RpcResponse(id) =>
      if s.process.protocol >= INVOCATION_PROTOCOL_VERSION && s.active != {} && id in s.rpcs then Pass else Kill
    case DataOp(q, _) => LiveQuote(s, q)
    case SqlBegin(q, _, _) => LiveQuote(s, q)
    case SqlExec(q, _, _, _) => LiveQuote(s, q)
    case SqlCommit(q, _) => LiveQuote(s, q)
    case SqlRollback(q, _) => LiveQuote(s, q)
    case Replying => Deny
    case _ => Kill
  }

  function LiveQuote(s: State, quoted: Option<InvocationId>): Verdict
  {
    if s.process.protocol >= INVOCATION_PROTOCOL_VERSION && quoted.Some? && quoted.value in s.active then Pass else Deny
  }

  function PublicGate(msg: Message): Verdict
  {
    match msg
    case Discover(_) => Pass
    case RpcResponse(_) => Pass
    case Log => Pass
    case JobResult(_) => Kill
    case AgentEnd(_) => Kill
    case Silent => Kill
    case _ => Deny
  }

  function Gate(s: State, msg: Message): Verdict
  {
    match s.cfg.kind
    case Ordinary => Pass
    case Approved => ApprovedGate(s, msg)
    case Public => PublicGate(msg)
  }

  /** The freshness of generated ids and the outcomes the environment may pick. */
  predicate Enabled(s: State, e: Event)
  {
    match e
    case Resume =>
      s.pc.Closing? && s.tasks == map[] && forall x | x in s.pc.awaited :: IsFinished(s.txs, x)
    case ActorMove(x, m) =>
      && x in s.txs.actors && Can(s.txs.actors[x], m)
      && (m == ChannelClosed ==> x !in s.txs.open && x !in s.txs.finishing)
    case Deliver(x) => x in s.txs.finishing && (CanQueue(s.txs, x) || IsFinished(s.txs, x))
    case TaskEnds(t) => t in s.tasks
    case StartCmd(_) => s.pc.Ready?
    case StopCmd => s.pc.Ready?
    case RpcCmd(_, inv, _) => s.pc.Ready? && inv !in s.minted
    case JobCmd(_, inv, _) => s.pc.Ready? && inv !in s.minted && s.cfg.kind.Ordinary?
    case AgentCmd(_, _) => s.pc.Ready? && s.cfg.kind.Ordinary?
    case Inbound(msg, _) => s.pc.Ready? && s.process.reader && MessageEnabled(s, msg)
    case Eof(_) => s.pc.Ready? && s.process.reader
    case ResponseUndeliverable => s.pc.Ready? && s.process.writer && s.cfg.kind.Approved?
    case Expiry(_, _) => s.pc.Ready?
    case TxDone(x) => s.pc.Ready? && IsFinished(s.txs, x)
  }

  predicate MessageEnabled(s: State, msg: Message)
  {
    match msg
    case DataOp(_, task) => task !in s.tasks
    case SqlBegin(_, tx, outcome) =>
      tx !in s.txs.actors && (outcome.TimedOut? ==> s.cfg.kind.Approved?)
    case SqlExec(_, tx, _, queued) =>
      && (queued ==> CanQueue(s.txs, tx))
      && (!queued && CanQueue(s.txs, tx) ==> s.txs.actors[tx].stage.Settled?)
    case _ => true
  }

  // ---- Arms ----

  /** Start of an arm that closes approved actors: take them out of the table and cancel them all. */
  function StartClosing(s: State, ids: set<TxId>, after: After): State
  {
    s.(txs := Untrack(s.txs, ids), pc := Closing(ids, after))
  }

  function CloseInvocation(s: State, inv: InvocationId): State
  {
    s.(active := s.active - {inv}, txs := Abandon(s.txs, OwnedBy(s.txs.owner, inv)))
  }

  /** What a stop, a crash and a killed approved worker clear. */
  function ClearWork(s: State): State
  {
    s.(active := {}, rpcs := map[], txs := Abandon(s.txs, s.txs.open))
  }

  function Start(s: State, spawned: bool): State
  {
    if s.process.status == Running || s.process.status == Starting || s.process.status == Crashed then s
    else if spawned then s.(process := Process(Running, true, true, true, 1))
    else s.(process := s.process.(status := Crashed))
  }

  function Rpc(s: State, id: RequestId, inv: InvocationId, sent: bool): State
  {
    if s.process.status != Running then s
    else if sent || !s.process.writer then
      s.(minted := s.minted + {inv}, active := s.active + {inv}, rpcs := s.rpcs[id := inv])
    else s.(minted := s.minted + {inv}, active := s.active - {inv}, rpcs := s.rpcs - {id})
  }

  function Job(s: State, id: JobId, inv: InvocationId, sent: bool): State
  {
    if s.process.status != Running || JobAlreadyInFlight(s.jobs, id) then s
    else if !s.process.writer then s.(minted := s.minted + {inv}, active := s.active + {inv})
    else if !sent then s.(minted := s.minted + {inv}, active := s.active - {inv})
    else
      var s' := s.(minted := s.minted + {inv}, active := s.active + {inv});
      if id.Numeric? then
        s'.(jobs := Jobs(s.jobs.invocations[id.n := inv], s.jobs.leases + {id.n}, s.jobs.payloads + {id.n}))
      else s'
  }

  function AgentInvoke(s: State, id: InvokeId, sent: bool): State
  {
    if s.process.status != Running then s
    else if sent || !s.process.writer then
      s.(agents := Agents(s.agents.runs + {id}, s.agents.streams + {id}))
    else s.(agents := Agents(s.agents.runs - {id}, s.agents.streams - {id}))
  }

  function Begin(s: State, quoted: Option<InvocationId>, tx: TxId, outcome: BeginOutcome): State
  {
    if |s.txs.open| >= MAX_OPEN_TRANSACTIONS || !CapabilityContext(s, quoted) || outcome.Refused? then s
    else
      var born := s.txs.born[tx := Birth(quoted, EchoesInvocation(s), outcome.TimedOut?)];
      var actors := s.txs.actors[tx := Fresh];
      if outcome.TimedOut? then
        s.(txs := s.txs.(born := born, actors := actors, fate := s.txs.fate[tx := Abandoned]))
      else
        s.(txs := s.txs.(
             born := born, actors := actors, open := s.txs.open + {tx},
             owner := if quoted.Some? then s.txs.owner[tx := quoted.value] else s.txs.owner,
             tracked := if s.cfg.kind.Approved? && quoted.Some? then s.txs.tracked[tx := quoted.value] else s.txs.tracked))
  }

  /** A message against an open transaction: `Some(c)` queues or delivers `c`. */
  function TxMessage(s: State, quoted: Option<InvocationId>, tx: TxId, msg: Message): State
    requires MessageEnabled(s, msg)
    requires msg.SqlExec? || msg.SqlCommit? || msg.SqlRollback?
    requires tx == msg.tx
  {
    if tx !in s.txs.open then s
    else if !TxMessageAdmitted(s, tx, quoted) then s.(txs := Ask(s.txs, tx, false))
    else match msg
      case SqlExec(_, _, withinRate, queued) =>
        if queued then s.(txs := Push(s.txs, tx, if withinRate then Exec else Poison))
        else s.(txs := Ask(s.txs, tx, false))
      case SqlCommit(_, _) => s.(txs := Ask(s.txs, tx, true))
      case _ => s.(txs := Ask(s.txs, tx, false))
  }

  function Dispatch(s: State, msg: Message): State
    requires MessageEnabled(s, msg)
  {
    match msg
    case Discover(p) => s.(process := s.process.(protocol := p))
    case RpcResponse(id) =>
      if id !in s.rpcs then s
      else
        var inv := s.rpcs[id];
        StartClosing(s.(rpcs := s.rpcs - {id}, active := s.active - {inv}), OwnedBy(s.txs.tracked, inv), Resolve(inv))
    case JobResult(id) =>
      if id.Numeric? && id.n in s.jobs.invocations then
        CloseInvocation(s, s.jobs.invocations[id.n]).(jobs := ForgetJob(s.jobs, id.n))
      else if id.Numeric? then s.(jobs := ForgetJob(s.jobs, id.n))
      else s
    case AgentEnd(id) => s.(agents := Agents(s.agents.runs - {id}, s.agents.streams - {id}))
    case DataOp(q, task) => if s.cfg.kind.Approved? then s.(tasks := s.tasks[task := q]) else s
    case SqlBegin(q, tx, outcome) => Begin(s, q, tx, outcome)
    case SqlExec(q, tx, _, _) => TxMessage(s, q, tx, msg)
    case SqlCommit(q, tx) => TxMessage(s, q, tx, msg)
    case SqlRollback(q, tx) => TxMessage(s, q, tx, msg)
    case _ => s
  }

  function ForgetJob(j: Jobs, n: MessageId): Jobs
  {
    Jobs(j.invocations - {n}, j.leases - {n}, j.payloads - {n})
  }

  /** A denied transaction message costs the approved worker the transaction it named. */
  function Denied(s: State, msg: Message): State
  {
    if s.cfg.kind.Approved? && (msg.SqlExec? || msg.SqlCommit? || msg.SqlRollback?) then s.(txs := DropDenied(s.txs, msg.tx)) else s
  }

  function Killed(s: State): State
  {
    if s.cfg.kind.Approved? then StartClosing(s, s.txs.tracked.Keys, KillApproved)
    else s.(active := {}, rpcs := map[], process := Process(Crashed, false, false, false, s.process.protocol))
  }

  function Receive(s: State, msg: Message, backlog: bool): State
    requires MessageEnabled(s, msg)
  {
    match Gate(s, msg)
    case Pass => Dispatch(s, msg)
    case Kill => Killed(s)
    case Deny => if backlog then Killed(Denied(s, msg)) else Denied(s, msg)
  }

  function AfterResume(s: State, after: After): State
  {
    match after
    case Resolve(inv) =>
      CloseInvocation(s, inv).(resolved := s.resolved + {inv}, pc := Ready)
    case Expire(id, inv) =>
      CloseInvocation(s.(rpcs := s.rpcs - {id}), inv).(pc := Ready)
    case StopNow =>
      ClearWork(s).(jobs := NoJobs, agents := NoAgents,
                    process := Process(Stopped, false, false, false, s.process.protocol),
                    pc := if s.cfg.kind.Approved? then Exited else Ready)
    case KillApproved =>
      ClearWork(s).(resolved := s.resolved + s.rpcs.Values,
                    process := Process(Crashed, false, false, false, s.process.protocol), pc := Ready)
    case Recover(how) =>
      ClearWork(s).(jobs := NoJobs, agents := NoAgents,
                    resolved := if s.cfg.kind.Approved? then s.resolved + s.rpcs.Values else s.resolved,
                    process := match how
                      case GaveUp => Process(Crashed, false, false, false, 1)
                      case StoppedInBackoff => Process(Stopped, false, false, false, 1)
                      case Respawned => Process(Running, true, true, true, 1)
                      case RespawnFailed => Process(Crashed, false, false, false, 1),
                    pc := if how.StoppedInBackoff? && s.cfg.kind.Approved? then Exited else Ready)
  }

  function Apply(s: State, e: Event): State
    requires Enabled(s, e)
  {
    match e
    case StartCmd(spawned) => Start(s, spawned)
    case StopCmd => StartClosing(s, s.txs.tracked.Keys, StopNow)
    case RpcCmd(id, inv, sent) => Rpc(s, id, inv, sent)
    case JobCmd(id, inv, sent) => Job(s, id, inv, sent)
    case AgentCmd(id, sent) => AgentInvoke(s, id, sent)
    case Inbound(msg, backlog) => Receive(s, msg, backlog)
    case Eof(how) => StartClosing(s, s.txs.tracked.Keys, Recover(how))
    case ResponseUndeliverable => StartClosing(s, s.txs.tracked.Keys, KillApproved)
    case Expiry(id, inv) =>
      if id in s.rpcs && s.rpcs[id] == inv then StartClosing(s, OwnedBy(s.txs.tracked, inv), Expire(id, inv)) else s
    case TxDone(x) => s.(txs := Abandon(s.txs.(tracked := s.txs.tracked - {x}), {x}))
    case Resume => AfterResume(s, s.pc.after)
    case ActorMove(x, m) => s.(txs := s.txs.(actors := s.txs.actors[x := Do(s.txs.actors[x], m)]))
    case Deliver(x) =>
      var t := s.txs.(finishing := s.txs.finishing - {x});
      s.(txs := if CanQueue(s.txs, x) then Push(t, x, if s.txs.finishing[x] then Commit else Rollback) else t)
    case TaskEnds(t) => s.(tasks := s.tasks - {t})
  }

  predicate StepAt(states: seq<State>, events: seq<Event>, i: nat)
    requires i < |events| && i + 1 < |states|
  {
    Enabled(states[i], events[i]) && states[i + 1] == Apply(states[i], events[i])
  }

  /** A run: states joined by enabled events, from a supervisor that has just started. */
  ghost predicate IsRun(cfg: Config, states: seq<State>, events: seq<Event>)
  {
    && |states| == |events| + 1
    && states[0] == Init(cfg)
    && forall i: nat | i < |events| :: StepAt(states, events, i)
  }
}
