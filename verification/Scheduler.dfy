/** The scheduler as it runs: queue tables, semaphore and in-flight set updated in place by the
    queue calls, by the poll loop and by the tasks it starts.  Every call takes steps of the machine
    in `Delivery`; `Serve` and `Replay` show that both reach the same states. */
module Scheduler {
  import opened Common
  import opened Delivery
  import opened DeliveryProofs

  class Core {
    var queue: map<MsgId, Message>
    var archived: set<MsgId>
    var deadLetters: set<MsgId>
    var deleted: set<MsgId>
    var completed: set<MsgId>
    var kinds: map<MsgId, Kind>
    var handoffs: seq<Handoff>
    var loops: set<nat>
    var tasks: map<nat, Task>
    var runs: map<nat, MsgId>
    var inFlight: set<MsgId>
    var free: nat
    var holders: set<Holder>
    var nextId: nat

    function View(): State
      reads this
    {
      State(queue, archived, deadLetters, deleted, completed, kinds, handoffs, loops, tasks, runs, inFlight, free, holders, nextId)
    }

    constructor ()
      ensures View() == INITIAL && Inv(View())
    {
      queue, archived, deadLetters, deleted, completed, kinds := map[], {}, {}, {}, {}, map[];
      handoffs, loops, tasks, runs, inFlight := [], {}, map[], map[], {};
      free, holders, nextId := MAX_CONCURRENT_DISPATCH, {}, 0;
    }

    method Enqueue(kind: Kind) returns (m: MsgId)
      modifies `queue, `kinds, `nextId
      ensures View() == Apply(old(View()), Send(kind)) && m in queue && queue[m] == Message(kind, 0)
    {
      m := nextId;
      queue, kinds, nextId := queue[m := Message(kind, 0)], kinds[m := kind], nextId + 1;
    }

    /** `acquire_slot`: a permit is taken before a message is read. */
    method AcquireSlot(l: nat) returns (ok: bool)
      requires l in loops && LoopHolds(l) !in holders
      modifies `free, `holders
      ensures ok <==> old(free) > 0
      ensures View() == if ok then Apply(old(View()), LoopTakesPermit(l)) else old(View())
    {
      ok := free > 0;
      if ok { free, holders := free - 1, holders + {LoopHolds(l)}; }
    }

    /** `pgmq.read`: the message is leased and its delivery counted. */
    method LeaseMessage(m: MsgId)
      requires m in queue
      modifies `queue
      ensures View() == Read(old(View()), m)
    {
      queue := queue[m := queue[m].(readCt := queue[m].readCt + 1)];
    }

    /** The permit goes back to the semaphore. */
    method DropPermit(h: Holder)
      modifies `holders, `free
      ensures View() == Release(old(View()), h)
    {
      if h in holders { holders, free := holders - {h}, free + 1; }
    }

    /** A message was found: it is leased and its task takes the loop's permit over. */
    method SpawnHandler(l: nat, m: MsgId, hasAgent: bool) returns (t: nat)
      requires l in loops && LoopHolds(l) in holders && m in queue
      modifies `queue, `tasks, `holders, `nextId
      ensures View() == Apply(old(View()), LoopReads(l, m, hasAgent)) && t == old(nextId)
    {
      LeaseMessage(m);
      t := nextId;
      tasks := tasks[t := Task(m, RouteOf(queue[m].kind, hasAgent), queue[m].readCt, Routing)];
      holders := holders - {LoopHolds(l)} + {TaskHolds(t)};
      nextId := nextId + 1;
    }

    /** One turn of the poll loop with a permit in hand: the permit passes to the task of the message
        or goes back, whatever was found.  A message that does not decode has been leased all the
        same. */
    method PollOnce(l: nat, found: Option<MsgId>, decodes: bool, hasAgent: bool) returns (t: Option<nat>)
      requires Inv(View()) && l in loops && LoopHolds(l) in holders && (found.Some? ==> found.value in queue)
      modifies this
      ensures Inv(View()) && LoopHolds(l) !in holders
      ensures free == if found.Some? && decodes then old(free) else old(free) + 1
      ensures found.None? ==> t.None? && View() == Apply(old(View()), LoopReleases(l))
      ensures found.Some? && decodes ==> t == Some(old(nextId)) && View() == Apply(old(View()), LoopReads(l, found.value, hasAgent))
      ensures found.Some? && !decodes ==> t.None? && View() == Apply(Apply(old(View()), LoopReadFails(l, found.value)), LoopReleases(l))
    {
      t := None;
      if found.Some? && decodes {
        StepKeeps(View(), LoopReads(l, found.value, hasAgent));
        var id := SpawnHandler(l, found.value, hasAgent);
        return Some(id);
      }
      if found.Some? {
        StepKeeps(View(), LoopReadFails(l, found.value));
        LeaseMessage(found.value);
      }
      StepKeeps(View(), LoopReleases(l));
      DropPermit(LoopHolds(l));
    }

    method ArchiveMessage(m: MsgId)
      modifies `queue, `archived
      ensures View() == Archive(old(View()), m)
    {
      if m in queue { queue, archived := queue - {m}, archived + {m}; }
    }

    /** `jobs::fail`. */
    method FailMessage(m: MsgId)
      modifies `queue, `deleted
      ensures View() == DeleteMessage(old(View()), m)
    {
      if m in queue { queue, deleted := queue - {m}, deleted + {m}; }
    }

    /** The two deletions of an uninstall. */
    method PurgeMessages(gone: set<MsgId>)
      modifies `queue, `archived, `deleted
      ensures View() == Purge(old(View()), gone)
    {
      deleted := deleted + (queue.Keys + archived) * gone;
      queue := queue - gone;
      archived := archived - gone;
    }

    /** `jobs::complete`. */
    method CompleteMessage(m: MsgId)
      modifies `queue, `archived, `completed
      ensures View() == Complete(old(View()), m)
    {
      completed := completed + {m};
      ArchiveMessage(m);
    }

    method Advance(t: nat, stage: Stage)
      requires t in tasks
      modifies `tasks
      ensures View() == MoveTask(old(View()), t, stage)
    {
      tasks := tasks[t := tasks[t].(stage := stage)];
    }

    /** First half of `jobs::dead_letter`: the copy. */
    method CopyToDeadLetters(t: nat)
      requires t in tasks && tasks[t].stage == Routing && MayDeadLetter(tasks[t])
      modifies `deadLetters, `tasks
      ensures View() == Apply(old(View()), TaskCopies(t))
    {
      deadLetters := deadLetters + {tasks[t].msg};
      Advance(t, Copied);
    }

    /** Second half: the original leaves the queue. */
    method ArchiveOriginal(t: nat)
      requires t in tasks && tasks[t].stage == Copied
      modifies `queue, `archived, `tasks
      ensures View() == Apply(old(View()), TaskArchives(t))
    {
      ArchiveMessage(tasks[t].msg);
      Advance(t, Settled);
    }

    method CrashProcess()
      modifies `loops, `tasks, `runs, `inFlight, `free, `holders
      ensures View() == Crashed(old(View()))
    {
      loops, tasks, runs, inFlight := {}, map[], map[], {};
      free, holders := MAX_CONCURRENT_DISPATCH, {};
    }

    method HandToWorker(t: nat)
      requires t in tasks && tasks[t].stage == Routing && MayHandToWorker(tasks[t])
      modifies `handoffs, `tasks
      ensures View() == Apply(old(View()), TaskHandsToWorker(t))
    {
      var k := tasks[t];
      handoffs := handoffs + [Handoff(k.msg, k.readCt, k.route)];
      Advance(t, Handed);
    }

    /** The task gives its message up. */
    method GiveUp(t: nat)
      requires Enabled(View(), TaskDeletes(t))
      modifies `queue, `deleted, `tasks
      ensures View() == Apply(old(View()), TaskDeletes(t))
    {
      FailMessage(tasks[t].msg);
      Advance(t, Settled);
    }

    /** Single-flight: the insert into the in-flight set decides whether a run task starts. */
    method SpawnWorkflowRun(t: nat)
      requires t in tasks && tasks[t].stage == Routing && tasks[t].route == ToRunner && !DeliveryExhausted(tasks[t].readCt)
      modifies `inFlight, `handoffs, `runs, `nextId, `tasks
      ensures View() == if old(tasks)[t].msg in old(inFlight) then old(View()) else Apply(old(View()), TaskStartsRun(t))
    {
      var k := tasks[t];
      if k.msg in inFlight { return; }
      inFlight := inFlight + {k.msg};
      handoffs := handoffs + [Handoff(k.msg, k.readCt, k.route)];
      runs := runs[nextId := k.msg];
      nextId := nextId + 1;
      Advance(t, Settled);
    }

    /** `jobs::dead_letter`: the copy first, then the original. */
    method DeadLetter(t: nat)
      requires At(View(), t, Routing) && MayDeadLetter(tasks[t])
      modifies `deadLetters, `queue, `archived, `tasks
      ensures StepsThrough(old(View()), [TaskCopies(t), TaskArchives(t)], View())
    {
      ghost var before := View();
      CopyToDeadLetters(t);
      ghost var copied := View();
      ArchiveOriginal(t);
      TwoSteps(before, TaskCopies(t), copied, TaskArchives(t), View());
    }

    /** The worker gets the message; if it does not take it, the message is given up. */
    method HandOver(t: nat, accepted: bool)
      requires At(View(), t, Routing) && MayHandToWorker(tasks[t])
      modifies `handoffs, `queue, `deleted, `tasks
      ensures StepsThrough(old(View()), [TaskHandsToWorker(t)] + if accepted then [] else [TaskDeletes(t)], View())
    {
      ghost var before := View();
      HandToWorker(t);
      ghost var handed := View();
      OneStep(before, TaskHandsToWorker(t), handed);
      if !accepted {
        GiveUp(t);
        TwoSteps(before, TaskHandsToWorker(t), handed, TaskDeletes(t), View());
      }
    }

    /** `Dispatcher::handle` for one delivery.  `known` says whether a workflow's definition was
        found, `allowed` is the outcome of the owner and authority checks, and `accepted` whether
        the worker took the job. */
    method Dispatch(t: nat, known: bool, allowed: bool, accepted: bool)
      requires Inv(View()) && At(View(), t, Routing)
      modifies this
      ensures Inv(View())
      ensures StepsThrough(old(View()), Handling(old(tasks)[t], t, known, allowed, accepted, old(tasks)[t].msg in old(inFlight)), View())
    {
      ghost var before := View();
      var k := tasks[t];
      if k.route == Refused || (k.route == ToRunner && known && DeliveryExhausted(k.readCt)) || (k.route == ToApp && DeliveryExhausted(k.readCt)) {
        DeadLetter(t);
      } else if !allowed || (k.route == ToRunner && !known) {
        GiveUp(t);
        OneStep(before, TaskDeletes(t), View());
      } else if k.route == ToRunner {
        SpawnWorkflowRun(t);
        if k.msg !in before.inFlight { OneStep(before, TaskStartsRun(t), View()); }
      } else {
        HandOver(t, accepted);
      }
      StepsKeep(before, Handling(k, t, known, allowed, accepted, k.msg in before.inFlight), View());
    }

    /** And what that comes to, for every kind of message. */
    method Handle(t: nat, known: bool, allowed: bool, accepted: bool)
      requires Inv(View()) && At(View(), t, Routing)
      modifies this
      ensures Inv(View()) && ComesTo(old(View()), t, known, allowed, accepted, View())
    {
      ghost var before := View();
      Dispatch(t, known, allowed, accepted);
      HandlingComesTo(before, t, known, allowed, accepted, View());
    }

    /** A handler returns or panics: its permit is dropped either way. */
    method FinishTask(t: nat)
      requires t in tasks
      modifies `tasks, `holders, `free
      ensures View() == Apply(old(View()), TaskEnds(t))
    {
      tasks := tasks - {t};
      DropPermit(TaskHolds(t));
    }

    /** A run task ends, by success, error or panic: the guard clears its mark. */
    method EndRun(r: nat)
      requires r in runs
      modifies `runs, `inFlight
      ensures View() == Apply(old(View()), RunEnds(r))
    {
      runs, inFlight := runs - {r}, inFlight - {runs[r]};
    }

    method OnTaskEvent(e: Event)
      requires Enabled(View(), e) && OfTask(e)
      modifies this
      ensures View() == Apply(old(View()), e)
    {
      match e
      case TaskCopies(t) => CopyToDeadLetters(t);
      case TaskArchives(t) => ArchiveOriginal(t);
      case TaskDeletes(t) => GiveUp(t);
      case TaskHandsToWorker(t) => HandToWorker(t);
      case TaskStartsRun(t) => SpawnWorkflowRun(t);
      case TaskEnds(t) => FinishTask(t);
    }

    method OnLoopEvent(e: Event)
      requires Enabled(View(), e) && OfLoop(e)
      modifies `queue, `tasks, `loops, `free, `holders, `nextId
      ensures View() == Apply(old(View()), e)
    {
      match e
      case LoopStarts => loops, nextId := loops + {nextId}, nextId + 1;
      case LoopTakesPermit(l) => var _ := AcquireSlot(l);
      case LoopReads(l, m, hasAgent) => var _ := SpawnHandler(l, m, hasAgent);
      case LoopReadFails(_, m) => LeaseMessage(m);
      case LoopReleases(l) => DropPermit(LoopHolds(l));
      case LoopDies(l) =>
        loops := loops - {l};
        DropPermit(LoopHolds(l));
    }

    /** Each call of the queue, of a loop or of a task keeps every book. */
    method OnEvent(e: Event)
      requires Inv(View()) && Enabled(View(), e)
      modifies this
      ensures Inv(View()) && View() == Apply(old(View()), e)
    {
      StepKeeps(View(), e);
      if OfTask(e) {
        OnTaskEvent(e);
      } else if OfLoop(e) {
        OnLoopEvent(e);
      } else {
        match e
        case Send(kind) => var _ := Enqueue(kind);
        case WorkerCompletes(m) => CompleteMessage(m);
        case WorkerDeletes(m) => FailMessage(m);
        case WorkerCopies(m) => deadLetters := deadLetters + {m};
        case WorkerArchives(m) => ArchiveMessage(m);
        case RunCompletes(r) => CompleteMessage(runs[r]);
        case RunEnds(r) => EndRun(r);
        case Uninstall(gone) => PurgeMessages(gone);
        case Crash => CrashProcess();
      }
    }
  }

  predicate OfTask(e: Event)
  {
    e.TaskCopies? || e.TaskArchives? || e.TaskDeletes? || e.TaskHandsToWorker? || e.TaskStartsRun? || e.TaskEnds?
  }

  predicate OfLoop(e: Event)
  {
    e.LoopStarts? || e.LoopTakesPermit? || e.LoopReads? || e.LoopReadFails? || e.LoopReleases? || e.LoopDies?
  }

  // ---- What one delivery goes through ----

  /** The steps of one delivery, by where it is routed and what the checks say. */
  function Handling(k: Task, t: nat, known: bool, allowed: bool, accepted: bool, flying: bool): seq<Event>
  {
    match k.route
    case Refused => [TaskCopies(t), TaskArchives(t)]
    case ToApp =>
      if DeliveryExhausted(k.readCt) then [TaskCopies(t), TaskArchives(t)]
      else if !allowed then [TaskDeletes(t)]
      else if accepted then [TaskHandsToWorker(t)]
      else [TaskHandsToWorker(t), TaskDeletes(t)]
    case ToRunner =>
      if !known then [TaskDeletes(t)]
      else if DeliveryExhausted(k.readCt) then [TaskCopies(t), TaskArchives(t)]
      else if !allowed then [TaskDeletes(t)]
      else if flying then []
      else [TaskStartsRun(t)]
    case ToAgent =>
      if !allowed then [TaskDeletes(t)]
      else if accepted then [TaskHandsToWorker(t)]
      else [TaskHandsToWorker(t), TaskDeletes(t)]
  }

  // ---- What that comes to for the message ----

  predicate DeadLettered(s: State, s': State, m: MsgId)
  {
    && s'.deadLetters == s.deadLetters + {m} && s'.queue == s.queue - {m} && (m in s.queue ==> m in s'.archived)
    && s'.deleted == s.deleted && s'.handoffs == s.handoffs
  }

  predicate GivenUp(s: State, s': State, m: MsgId)
  {
    s'.queue == s.queue - {m} && (m in s.queue ==> m in s'.deleted) && s'.archived == s.archived && s'.deadLetters == s.deadLetters
  }

  predicate Kept(s: State, s': State)
  {
    s'.queue == s.queue && s'.archived == s.archived && s'.deleted == s.deleted && s'.deadLetters == s.deadLetters && s'.completed == s.completed
  }

  predicate HandedOnce(s: State, s': State, m: MsgId, readCt: nat)
  {
    && |s'.handoffs| == |s.handoffs| + 1 && s'.handoffs[..|s.handoffs|] == s.handoffs
    && s'.handoffs[|s.handoffs|].msg == m && s'.handoffs[|s.handoffs|].readCt == readCt
  }

  /** What a caller can tell of one handling: the message's kind, whether its app has an agent, how
      often it was read, and what the checks said. */
  datatype Case = Case(kind: Kind, hasAgent: bool, readCt: nat, known: bool, allowed: bool, accepted: bool)

  /** Handed to a worker unless it was read too often or is not allowed: it stays on the queue until
      the worker reports, and is given up if the worker did not take it. */
  predicate JobOutcome(c: Case, tooOften: bool, m: MsgId, s: State, s': State)
  {
    if tooOften then DeadLettered(s, s', m)
    else if !c.allowed then GivenUp(s, s', m) && s'.handoffs == s.handoffs
    else HandedOnce(s, s', m, c.readCt) && if c.accepted then Kept(s, s') else GivenUp(s, s', m)
  }

  /** Started as a run unless its definition is unknown, it was read too often, it is not allowed, or
      a run of it is in flight: then nothing changes. */
  predicate WorkflowOutcome(c: Case, m: MsgId, s: State, s': State)
  {
    if !c.known then GivenUp(s, s', m) && s'.handoffs == s.handoffs
    else if c.readCt > 5 then DeadLettered(s, s', m)
    else if !c.allowed then GivenUp(s, s', m) && s'.handoffs == s.handoffs
    else if m in s.inFlight then s' == s
    else HandedOnce(s, s', m, c.readCt) && Kept(s, s') && s'.inFlight == s.inFlight + {m} && exists r :: r in s'.runs && r !in s.runs && s'.runs[r] == m
  }

  /** A message without provenance is dead-lettered; an app job, or a cron message of an app without an
      agent, read more than five times is; and a job for an agent never is. */
  predicate Outcome(c: Case, m: MsgId, s: State, s': State)
  {
    match c.kind
    case Legacy => DeadLettered(s, s', m)
    case AppJob => JobOutcome(c, c.readCt > 5, m, s, s')
    case AgentJob => JobOutcome(c, false, m, s, s')
    case Cron => JobOutcome(c, c.readCt > 5 && !c.hasAgent, m, s, s')
    case Workflow => WorkflowOutcome(c, m, s, s')
  }

  ghost predicate Handled(s: State, t: nat, c: Case, s': State)
  {
    && At(s, t, Routing) && s.tasks[t].readCt == c.readCt && s.tasks[t].route == RouteOf(c.kind, c.hasAgent)
    && StepsThrough(s, Handling(s.tasks[t], t, c.known, c.allowed, c.accepted, s.tasks[t].msg in s.inFlight), s')
  }

  lemma JobHandled(s: State, t: nat, c: Case, s': State)
    requires Handled(s, t, c, s') && c.kind in [AppJob, AgentJob, Cron]
    ensures Outcome(c, s.tasks[t].msg, s, s')
  {
    var steps := Handling(s.tasks[t], t, c.known, c.allowed, c.accepted, s.tasks[t].msg in s.inFlight);
    if steps == [TaskCopies(t), TaskArchives(t)] {
      CopyAndArchive(s, t, s');
    } else if steps == [TaskHandsToWorker(t), TaskDeletes(t)] {
      HandAndDelete(s, t, s');
    } else if steps == [TaskDeletes(t)] {
      OnlyDelete(s, t, s');
    } else {
      OnlyHand(s, t, s');
    }
  }

  lemma WorkflowHandled(s: State, t: nat, c: Case, s': State)
    requires Inv(s) && Handled(s, t, c, s') && c.kind == Workflow
    ensures Outcome(c, s.tasks[t].msg, s, s')
  {
    var steps := Handling(s.tasks[t], t, c.known, c.allowed, c.accepted, s.tasks[t].msg in s.inFlight);
    if steps == [TaskCopies(t), TaskArchives(t)] {
      CopyAndArchive(s, t, s');
    } else if steps != [] {
      LastStep(s, steps[0], s');
      if steps[0].TaskStartsRun? { assert s'.runs[s.nextId] == s.tasks[t].msg; }
    }
  }

  /** The steps of a delivery add up to that. */
  lemma HandlingDoes(s: State, t: nat, c: Case, s': State)
    requires Inv(s) && Handled(s, t, c, s')
    ensures Outcome(c, s.tasks[t].msg, s, s')
  {
    if c.kind == Workflow {
      WorkflowHandled(s, t, c, s');
    } else if c.kind == Legacy {
      CopyAndArchive(s, t, s');
    } else {
      JobHandled(s, t, c, s');
    }
  }

  /** The task's message has a kind, and comes to what that kind says, whichever answer about the agent
      its route fits. */
  ghost predicate ComesTo(s: State, t: nat, known: bool, allowed: bool, accepted: bool, s': State)
  {
    && t in s.tasks && s.tasks[t].msg in s.kinds
    && var k, kind := s.tasks[t], s.kinds[s.tasks[t].msg];
       && (exists hasAgent :: k.route == RouteOf(kind, hasAgent))
       && forall hasAgent | k.route == RouteOf(kind, hasAgent) :: Outcome(Case(kind, hasAgent, k.readCt, known, allowed, accepted), k.msg, s, s')
  }

  lemma HandlingComesTo(s: State, t: nat, known: bool, allowed: bool, accepted: bool, s': State)
    requires Inv(s) && At(s, t, Routing)
    requires StepsThrough(s, Handling(s.tasks[t], t, known, allowed, accepted, s.tasks[t].msg in s.inFlight), s')
    ensures ComesTo(s, t, known, allowed, accepted, s')
  {
    assert TaskOk(s, t);
    var k, kind := s.tasks[t], s.kinds[s.tasks[t].msg];
    forall hasAgent | k.route == RouteOf(kind, hasAgent)
      ensures Outcome(Case(kind, hasAgent, k.readCt, known, allowed, accepted), k.msg, s, s')
    {
      HandlingDoes(s, t, Case(kind, hasAgent, k.readCt, known, allowed, accepted), s');
    }
  }

  lemma LastStep(s: State, e: Event, s': State)
    requires StepsThrough(s, [e], s')
    ensures Enabled(s, e) && s' == Apply(s, e)
  {
    assert [e][1..] == [];
  }

  lemma OnlyDelete(s: State, t: nat, s': State)
    requires StepsThrough(s, [TaskDeletes(t)], s') && t in s.tasks
    ensures GivenUp(s, s', s.tasks[t].msg) && s'.handoffs == s.handoffs
  {
    LastStep(s, TaskDeletes(t), s');
  }

  lemma OnlyHand(s: State, t: nat, s': State)
    requires StepsThrough(s, [TaskHandsToWorker(t)], s') && t in s.tasks
    ensures HandedOnce(s, s', s.tasks[t].msg, s.tasks[t].readCt) && Kept(s, s')
  {
    LastStep(s, TaskHandsToWorker(t), s');
  }

  lemma CopyAndArchive(s: State, t: nat, s': State)
    requires StepsThrough(s, [TaskCopies(t), TaskArchives(t)], s') && t in s.tasks
    ensures DeadLettered(s, s', s.tasks[t].msg)
  {
    assert [TaskCopies(t), TaskArchives(t)][1..] == [TaskArchives(t)];
    LastStep(Apply(s, TaskCopies(t)), TaskArchives(t), s');
  }

  lemma HandAndDelete(s: State, t: nat, s': State)
    requires StepsThrough(s, [TaskHandsToWorker(t), TaskDeletes(t)], s') && t in s.tasks
    ensures HandedOnce(s, s', s.tasks[t].msg, s.tasks[t].readCt) && GivenUp(s, s', s.tasks[t].msg)
  {
    assert [TaskHandsToWorker(t), TaskDeletes(t)][1..] == [TaskDeletes(t)];
    LastStep(Apply(s, TaskHandsToWorker(t)), TaskDeletes(t), s');
  }

  /** A message that is read and handled goes where its kind, and for a cron message its app's agent,
      say, with the delivery counted. */
  lemma ReadThenHandled(s: State, l: nat, m: MsgId, c: Case, s': State)
    requires Inv(s) && Enabled(s, LoopReads(l, m, c.hasAgent))
    requires c.kind == s.queue[m].kind && c.readCt == s.queue[m].readCt + 1
    requires var read := Apply(s, LoopReads(l, m, c.hasAgent));
             StepsThrough(read, Handling(read.tasks[s.nextId], s.nextId, c.known, c.allowed, c.accepted, m in s.inFlight), s')
    ensures Outcome(c, m, Apply(s, LoopReads(l, m, c.hasAgent)), s')
  {
    var read := Apply(s, LoopReads(l, m, c.hasAgent));
    StepKeeps(s, LoopReads(l, m, c.hasAgent));
    assert Placed(s, m);
    HandlingDoes(read, s.nextId, c, s');
  }

  ghost predicate StepsThrough(s: State, es: seq<Event>, last: State)
    decreases |es|
  {
    if es == [] then last == s
    else Enabled(s, es[0]) && StepsThrough(Apply(s, es[0]), es[1..], last)
  }

  lemma OneStep(s: State, e: Event, last: State)
    requires Enabled(s, e) && last == Apply(s, e)
    ensures StepsThrough(s, [e], last)
  {
    assert [e][1..] == [] && StepsThrough(last, [], last);
  }

  lemma TwoSteps(s: State, e: Event, mid: State, f: Event, last: State)
    requires Enabled(s, e) && mid == Apply(s, e) && Enabled(mid, f) && last == Apply(mid, f)
    ensures StepsThrough(s, [e, f], last)
  {
    assert [e, f][1..] == [f];
    OneStep(mid, f, last);
  }

  lemma {:induction false} StepsKeep(s: State, es: seq<Event>, last: State)
    requires Inv(s) && StepsThrough(s, es, last)
    ensures Inv(last)
    decreases |es|
  {
    if es != [] {
      StepKeeps(s, es[0]);
      StepsKeep(Apply(s, es[0]), es[1..], last);
    }
  }

  // ---- The scheduler and the machine reach the same states ----

  /** Whatever script of events the scheduler is given, taking those that are possible when their
      turn comes is a run of the machine. */
  method Serve(script: seq<Event>) returns (core: Core, ghost states: seq<State>, ghost events: seq<Event>)
    ensures fresh(core) && Inv(core.View())
    ensures IsRun(states, events) && states[|events|] == core.View()
  {
    core := new Core();
    states, events := [core.View()], [];
    for i := 0 to |script|
      invariant fresh(core) && Inv(core.View())
      invariant IsRun(states, events) && states[|events|] == core.View()
    {
      if Enabled(core.View(), script[i]) {
        states, events := Extend(states, events, script[i]);
        core.OnEvent(script[i]);
      }
    }
  }

  /** And every run of the machine is one the scheduler can be led through. */
  method Replay(ghost states: seq<State>, events: seq<Event>) returns (core: Core)
    requires IsRun(states, events)
    ensures fresh(core) && core.View() == states[|events|]
  {
    core := new Core();
    for i := 0 to |events|
      invariant fresh(core) && core.View() == states[i]
    {
      RunKeeps(states, events, i);
      assert StepAt(states, events, i);
      core.OnEvent(events[i]);
    }
  }
}
