/** The job queue, the scheduler's bounded dispatch pool and the tasks it starts, as one state
    machine.  Each event is one queue call or one step of a task; a crash may come between any
    two and takes everything with it that is not in the database. */
module Delivery {
  import opened Common

  type MsgId = nat

  /** What was sent.  `Legacy` has no trusted provenance; a cron message that names no workflow goes
      to an agent or to the app, whichever its app has when it is delivered. */
  datatype Kind = AppJob | Workflow | AgentJob | Cron | Legacy

  /** Where one delivery is routed. */
  datatype Route = ToApp | ToRunner | ToAgent | Refused

  function RouteOf(kind: Kind, hasAgent: bool): Route
  {
    match kind
    case AppJob => ToApp
    case Workflow => ToRunner
    case AgentJob => ToAgent
    case Cron => if hasAgent then ToAgent else ToApp
    case Legacy => Refused
  }

  datatype Message = Message(kind: Kind, readCt: nat)

  const MAX_DELIVERIES := 5
  const MAX_CONCURRENT_DISPATCH := 8

  predicate DeliveryExhausted(readCt: nat)
  {
    readCt > MAX_DELIVERIES
  }

  /** One `Dispatcher::handle` call: the delivery it holds and how far it got. */
  datatype Stage = Routing | Copied | Handed | Settled
  datatype Task = Task(msg: MsgId, route: Route, readCt: nat, stage: Stage)

  /** A delivery given to a worker or a runner. */
  datatype Handoff = Handoff(msg: MsgId, readCt: nat, route: Route)

  datatype Holder = LoopHolds(loop: nat) | TaskHolds(task: nat)

  datatype State = State(
    queue: map<MsgId, Message>,
    archived: set<MsgId>,
    deadLetters: set<MsgId>,
    deleted: set<MsgId>,
    completed: set<MsgId>,
    kinds: map<MsgId, Kind>,
    handoffs: seq<Handoff>,
    loops: set<nat>,
    tasks: map<nat, Task>,
    runs: map<nat, MsgId>,
    inFlight: set<MsgId>,
    free: nat,
    holders: set<Holder>,
    nextId: nat)

  const INITIAL := State(map[], {}, {}, {}, {}, map[], [], {}, map[], map[], {}, MAX_CONCURRENT_DISPATCH, {}, 0)

  datatype Event =
    | Send(kind: Kind)
    | LoopStarts
    | LoopTakesPermit(loop: nat)
    | LoopReads(loop: nat, msg: MsgId, hasAgent: bool)
    | LoopReadFails(loop: nat, msg: MsgId)
    | LoopReleases(loop: nat)
    | LoopDies(loop: nat)
    | TaskCopies(task: nat)
    | TaskArchives(task: nat)
    | TaskDeletes(task: nat)
    | TaskHandsToWorker(task: nat)
    | TaskStartsRun(task: nat)
    | TaskEnds(task: nat)
    | WorkerCompletes(msg: MsgId)
    | WorkerDeletes(msg: MsgId)
    | WorkerCopies(msg: MsgId)
    | WorkerArchives(msg: MsgId)
    | RunCompletes(run: nat)
    | RunEnds(run: nat)
    | Uninstall(gone: set<MsgId>)
    | Crash

  // ---- Queue calls ----

  /** `pgmq.archive`: no effect on a message that is not on the queue. */
  function Archive(s: State, m: MsgId): State
  {
    if m in s.queue then s.(queue := s.queue - {m}, archived := s.archived + {m}) else s
  }

  function DeleteMessage(s: State, m: MsgId): State
  {
    if m in s.queue then s.(queue := s.queue - {m}, deleted := s.deleted + {m}) else s
  }

  /** Uninstalling an app deletes its messages from the queue and from the archive.  Which of them are
      found is left open, because the two deletions are not one transaction. */
  function Purge(s: State, gone: set<MsgId>): State
  {
    s.(queue := s.queue - gone, archived := s.archived - gone, deleted := s.deleted + (s.queue.Keys + s.archived) * gone)
  }

  function Complete(s: State, m: MsgId): State
  {
    Archive(s.(completed := s.completed + {m}), m)
  }

  function Read(s: State, m: MsgId): State
    requires m in s.queue
  {
    s.(queue := s.queue[m := s.queue[m].(readCt := s.queue[m].readCt + 1)])
  }

  // ---- When each step is taken ----

  predicate WasHanded(s: State, m: MsgId)
  {
    exists i :: 0 <= i < |s.handoffs| && s.handoffs[i].msg == m
  }

  /** Dead-lettering: a message without provenance, one delivered too often, or a workflow whose
      execution is not bound to it.  Agent jobs have no such check. */
  predicate MayDeadLetter(t: Task)
  {
    match t.route
    case Refused => true
    case ToApp => DeliveryExhausted(t.readCt)
    case ToRunner => true
    case ToAgent => false
  }

  /** Deleting by `jobs::fail`: refused authority, missing owner, failed dispatch. */
  predicate MayDelete(t: Task)
  {
    match t.route
    case Refused => false
    case ToApp => !DeliveryExhausted(t.readCt)
    case ToRunner => true
    case ToAgent => true
  }

  predicate MayHandToWorker(t: Task)
  {
    t.route == ToAgent || (t.route == ToApp && !DeliveryExhausted(t.readCt))
  }

  predicate MayRun(s: State, t: Task)
  {
    t.route == ToRunner && !DeliveryExhausted(t.readCt) && t.msg !in s.inFlight
  }

  predicate At(s: State, t: nat, stage: Stage)
  {
    t in s.tasks && s.tasks[t].stage == stage
  }

  predicate Enabled(s: State, e: Event)
  {
    match e
    case Send(_) => true
    case LoopStarts => true
    case LoopTakesPermit(l) => l in s.loops && s.free > 0 && LoopHolds(l) !in s.holders
    case LoopReads(l, m, _) => l in s.loops && LoopHolds(l) in s.holders && m in s.queue
    case LoopReadFails(l, m) => l in s.loops && LoopHolds(l) in s.holders && m in s.queue
    case LoopReleases(l) => l in s.loops && LoopHolds(l) in s.holders
    case LoopDies(l) => l in s.loops
    case TaskCopies(t) => At(s, t, Routing) && MayDeadLetter(s.tasks[t])
    case TaskArchives(t) => At(s, t, Copied)
    case TaskDeletes(t) => (At(s, t, Routing) || At(s, t, Handed)) && MayDelete(s.tasks[t])
    case TaskHandsToWorker(t) => At(s, t, Routing) && MayHandToWorker(s.tasks[t])
    case TaskStartsRun(t) => At(s, t, Routing) && MayRun(s, s.tasks[t])
    case TaskEnds(t) => t in s.tasks
    case WorkerCompletes(m) => true
    case WorkerDeletes(m) => true
    case WorkerCopies(m) => WasHanded(s, m)
    case WorkerArchives(m) => m in s.deadLetters
    case RunCompletes(r) => r in s.runs
    case RunEnds(r) => r in s.runs
    case Uninstall(_) => true
    case Crash => true
  }

  function HandoffOf(t: Task): Handoff
  {
    Handoff(t.msg, t.readCt, t.route)
  }

  function MoveTask(s: State, t: nat, stage: Stage): State
    requires t in s.tasks
  {
    s.(tasks := s.tasks[t := s.tasks[t].(stage := stage)])
  }

  /** A permit changes hands without touching the semaphore. */
  function ReadInto(s: State, l: nat, m: MsgId, hasAgent: bool): State
    requires m in s.queue
  {
    var s' := Read(s, m);
    s'.(tasks := s.tasks[s.nextId := Task(m, RouteOf(s.queue[m].kind, hasAgent), s'.queue[m].readCt, Routing)],
        holders := s.holders - {LoopHolds(l)} + {TaskHolds(s.nextId)},
        nextId := s.nextId + 1)
  }

  function Release(s: State, h: Holder): State
  {
    if h in s.holders then s.(holders := s.holders - {h}, free := s.free + 1) else s
  }

  /** Everything in memory is gone; the tables stay. */
  function Crashed(s: State): State
  {
    s.(loops := {}, tasks := map[], runs := map[], inFlight := {}, free := MAX_CONCURRENT_DISPATCH, holders := {})
  }

  function Apply(s: State, e: Event): State
    requires Enabled(s, e)
  {
    match e
    case Send(kind) => s.(queue := s.queue[s.nextId := Message(kind, 0)], kinds := s.kinds[s.nextId := kind], nextId := s.nextId + 1)
    case LoopStarts => s.(loops := s.loops + {s.nextId}, nextId := s.nextId + 1)
    case LoopTakesPermit(l) => s.(free := s.free - 1, holders := s.holders + {LoopHolds(l)})
    case LoopReads(l, m, hasAgent) => ReadInto(s, l, m, hasAgent)
    case LoopReadFails(_, m) => Read(s, m)
    case LoopReleases(l) => Release(s, LoopHolds(l))
    case LoopDies(l) => Release(s.(loops := s.loops - {l}), LoopHolds(l))
    case TaskCopies(t) => MoveTask(s.(deadLetters := s.deadLetters + {s.tasks[t].msg}), t, Copied)
    case TaskArchives(t) => MoveTask(Archive(s, s.tasks[t].msg), t, Settled)
    case TaskDeletes(t) => MoveTask(DeleteMessage(s, s.tasks[t].msg), t, Settled)
    case TaskHandsToWorker(t) => MoveTask(s.(handoffs := s.handoffs + [HandoffOf(s.tasks[t])]), t, Handed)
    case TaskStartsRun(t) =>
      var m := s.tasks[t].msg;
      MoveTask(s.(handoffs := s.handoffs + [HandoffOf(s.tasks[t])], inFlight := s.inFlight + {m},
                  runs := s.runs[s.nextId := m], nextId := s.nextId + 1), t, Settled)
    case TaskEnds(t) => Release(s.(tasks := s.tasks - {t}), TaskHolds(t))
    case WorkerCompletes(m) => Complete(s, m)
    case WorkerDeletes(m) => DeleteMessage(s, m)
    case WorkerCopies(m) => s.(deadLetters := s.deadLetters + {m})
    case WorkerArchives(m) => Archive(s, m)
    case RunCompletes(r) => Complete(s, s.runs[r])
    case RunEnds(r) => s.(runs := s.runs - {r}, inFlight := s.inFlight - {s.runs[r]})
    case Uninstall(gone) => Purge(s, gone)
    case Crash => Crashed(s)
  }

  // ---- Runs ----

  ghost predicate StepAt(states: seq<State>, es: seq<Event>, k: nat)
    requires k < |es| && |states| == |es| + 1
  {
    Enabled(states[k], es[k]) && states[k + 1] == Apply(states[k], es[k])
  }

  ghost predicate IsRun(states: seq<State>, es: seq<Event>)
  {
    |states| == |es| + 1 && states[0] == INITIAL && forall k | 0 <= k < |es| :: StepAt(states, es, k)
  }
}
