/** What the supervisor's tables hold, told by what happened in the run: each entry is there exactly
    since the event that opened it, until one of the events that close it.  Nothing here speaks of
    the arms themselves. */
module SupervisorHistory {
  import opened Common
  import opened TxActor
  import opened Supervisor
  import opened SupervisorInvariants
  import opened SupervisorRuns

  // ---- What a worker may say ----

  predicate Live(s: State, quoted: Option<InvocationId>)
  {
    quoted.Some? && quoted.value in s.active
  }

  predicate DataMessage(msg: Message)
  {
    msg.DataOp? || msg.SqlBegin? || msg.SqlExec? || msg.SqlCommit? || msg.SqlRollback?
  }

  predicate Speaks4(s: State)
  {
    s.process.protocol >= 4
  }

  /** A message of an approved worker gets through only under protocol 4 and for live work, a public
      worker may only answer calls, and what would get no reply ends them. */
  lemma GateIff(s: State, msg: Message)
    ensures Gate(s, msg) == Pass <==>
            || s.cfg.kind.Ordinary? || msg.Log?
            || (s.cfg.kind.Public? && (msg.Discover? || msg.RpcResponse?))
            || (s.cfg.kind.Approved? && msg.Discover? && msg.protocol >= 4)
            || (s.cfg.kind.Approved? && Speaks4(s) && msg.RpcResponse? && msg.id in s.rpcs && s.active != {})
            || (s.cfg.kind.Approved? && Speaks4(s) && DataMessage(msg) && Live(s, msg.quoted))
    ensures Gate(s, msg) == Deny <==> Gate(s, msg) != Pass && (DataMessage(msg) || msg.Replying?)
  {
  }

  /** The worker is ended by this message. */
  predicate Fatal(s: State, e: Event)
  {
    e.Inbound? && (Gate(s, e.msg) == Kill || (Gate(s, e.msg) == Deny && e.backlog))
  }

  predicate Hears(s: State, e: Event)
  {
    e.Inbound? && Gate(s, e.msg) == Pass
  }

  predicate Ends(s: State, e: Event, after: After)
  {
    e.Resume? && s.pc.Closing? && s.pc.after == after
  }

  /** The wait of a stop, a kill or a crash is over. */
  predicate Clearing(s: State, e: Event)
  {
    e.Resume? && s.pc.Closing? && (s.pc.after.StopNow? || s.pc.after.KillApproved? || s.pc.after.Recover?)
  }

  // ---- Which arm touches what ----

  /** Everything but the transaction tables is the same. */
  predicate SameWork(s: State, u: State)
  {
    && u.process == s.process && u.active == s.active && u.rpcs == s.rpcs && u.jobs == s.jobs && u.agents == s.agents
    && u.tasks == s.tasks && u.pc == s.pc && u.minted == s.minted && u.resolved == s.resolved && u.cfg == s.cfg
  }

  predicate AboutTx(msg: Message)
  {
    msg.SqlBegin? || msg.SqlExec? || msg.SqlCommit? || msg.SqlRollback?
  }

  lemma TxMessagesKeepWork(s: State, msg: Message)
    requires MessageEnabled(s, msg) && (AboutTx(msg) || msg.Log? || msg.Replying? || msg.Silent?)
    ensures SameWork(s, Dispatch(s, msg))
  {
  }

  lemma DenialKeepsWork(s: State, msg: Message)
    ensures SameWork(s, Denied(s, msg))
  {
  }

  /** What a message that does not get through does. */
  lemma Rebuffed(s: State, e: Event) returns (d: State)
    requires Enabled(s, e) && e.Inbound? && !Hears(s, e)
    ensures SameWork(s, d) && Apply(s, e) == if Fatal(s, e) then Killed(d) else d
    ensures d == if Gate(s, e.msg) == Deny then Denied(s, e.msg) else s
  {
    DenialKeepsWork(s, e.msg);
    d := if Gate(s, e.msg) == Deny then Denied(s, e.msg) else s;
  }

  lemma Heard(s: State, e: Event)
    requires Enabled(s, e) && Hears(s, e)
    ensures MessageEnabled(s, e.msg) && Apply(s, e) == Dispatch(s, e.msg)
  {
  }

  /** Events that leave all work as it is. */
  predicate Environment(e: Event)
  {
    e.ActorMove? || e.Deliver? || e.TxDone?
  }

  lemma EnvironmentKeepsWork(s: State, e: Event)
    requires Enabled(s, e) && Environment(e)
    ensures SameWork(s, Apply(s, e))
  {
  }

  predicate ClosesActors(e: Event)
  {
    e.StopCmd? || e.Eof? || e.ResponseUndeliverable? || e.Expiry?
  }

  lemma ClosingKeepsWork(s: State, e: Event)
    requires Enabled(s, e) && ClosesActors(e)
    ensures SameWork(s, Apply(s, e).(pc := s.pc))
  {
  }

  // ---- The process ----

  predicate ComesUp(s: State, e: Event)
  {
    (e.StartCmd? && e.spawned && s.process.status == Stopped) || Ends(s, e, Recover(Respawned))
  }

  predicate GoesDown(s: State, e: Event)
  {
    (Clearing(s, e) && s.pc.after != Recover(Respawned)) || (Fatal(s, e) && !s.cfg.kind.Approved?)
  }

  predicate Up(s: State)
  {
    s.process.status == Running
  }

  lemma HearingKeepsProcess(s: State, msg: Message)
    requires MessageEnabled(s, msg)
    ensures Dispatch(s, msg).process.status == s.process.status
  {
  }

  lemma RunningByMessage(s: State, e: Event)
    requires ProcessOk(s.process) && Enabled(s, e) && e.Inbound?
    ensures Up(Apply(s, e)) <==> ComesUp(s, e) || (Up(s) && !GoesDown(s, e))
  {
    if Hears(s, e) {
      Heard(s, e);
      HearingKeepsProcess(s, e.msg);
    } else {
      var d := Rebuffed(s, e);
    }
  }

  lemma RunningOtherwise(s: State, e: Event)
    requires ProcessOk(s.process) && Enabled(s, e) && !e.Inbound? && !e.Resume?
    ensures Up(Apply(s, e)) <==> ComesUp(s, e) || Up(s)
  {
    if Environment(e) { EnvironmentKeepsWork(s, e); } else if ClosesActors(e) { ClosingKeepsWork(s, e); }
  }

  lemma RunningStep(s: State, e: Event)
    requires ProcessOk(s.process) && Enabled(s, e)
    ensures Up(Apply(s, e)) <==> ComesUp(s, e) || (Up(s) && !GoesDown(s, e))
  {
    match e
    case Inbound(_, _) => RunningByMessage(s, e);
    case Resume => RunningAfter(s);
    case _ => RunningOtherwise(s, e);
  }

  lemma RunningAfter(s: State)
    requires s.pc.Closing?
    ensures var u := AfterResume(s, s.pc.after);
            Up(u) <==> if Clears(s.pc.after) then s.pc.after == Recover(Respawned) else Up(s)
  {
  }

  /** The worker is given up: it did not start, a message cost it its life, or it was not started again. */
  predicate GivesUp(s: State, e: Event)
  {
    || (e == StartCmd(false) && s.process.status == Stopped) || (Fatal(s, e) && !s.cfg.kind.Approved?)
    || Ends(s, e, KillApproved) || Ends(s, e, Recover(GaveUp)) || Ends(s, e, Recover(RespawnFailed))
  }

  /** Only a stop, before a restart or otherwise, or a restart brings it out of that. */
  predicate Revives(s: State, e: Event)
  {
    Ends(s, e, StopNow) || Ends(s, e, Recover(StoppedInBackoff)) || Ends(s, e, Recover(Respawned))
  }

  lemma CrashedByMessage(s: State, e: Event)
    requires ProcessOk(s.process) && Enabled(s, e) && e.Inbound?
    ensures Apply(s, e).process.status == Crashed <==> GivesUp(s, e) || s.process.status == Crashed
  {
    if Hears(s, e) {
      Heard(s, e);
      HearingKeepsProcess(s, e.msg);
    } else {
      var d := Rebuffed(s, e);
    }
  }

  lemma CrashedAfter(s: State)
    requires s.pc.Closing? && Enabled(s, Resume)
    ensures Apply(s, Resume).process.status == Crashed <==> GivesUp(s, Resume) || (s.process.status == Crashed && !Revives(s, Resume))
  {
  }

  lemma CrashedStep(s: State, e: Event)
    requires ProcessOk(s.process) && Enabled(s, e)
    ensures Apply(s, e).process.status == Crashed <==> GivesUp(s, e) || (s.process.status == Crashed && !Revives(s, e))
  {
    if e.Inbound? {
      CrashedByMessage(s, e);
    } else if e.Resume? {
      CrashedAfter(s);
    } else {
      CrashedOtherwise(s, e);
    }
  }

  lemma CrashedOtherwise(s: State, e: Event)
    requires ProcessOk(s.process) && Enabled(s, e) && !e.Inbound? && !e.Resume?
    ensures Apply(s, e).process.status == Crashed <==> GivesUp(s, e) || s.process.status == Crashed
  {
    if Environment(e) { EnvironmentKeepsWork(s, e); } else if ClosesActors(e) { ClosingKeepsWork(s, e); }
  }

  lemma ProtocolByMessage(s: State, e: Event)
    requires Enabled(s, e) && e.Inbound?
    ensures Apply(s, e).process.protocol == if Hears(s, e) && e.msg.Discover? then e.msg.protocol else s.process.protocol
  {
    if Hears(s, e) {
      Heard(s, e);
      if AboutTx(e.msg) || e.msg.Log? || e.msg.Replying? || e.msg.Silent? { TxMessagesKeepWork(s, e.msg); }
    } else {
      var d := Rebuffed(s, e);
    }
  }

  /** A worker speaks the protocol it last announced, and protocol 1 from each start or crash on. */
  lemma ProtocolStep(s: State, e: Event)
    requires ProcessOk(s.process) && Enabled(s, e)
    ensures Apply(s, e).process.protocol ==
            if Hears(s, e) && e.msg.Discover? then e.msg.protocol
            else if (e == StartCmd(true) && s.process.status == Stopped) || (e.Resume? && s.pc.after.Recover?) then 1
            else s.process.protocol
  {
    if e.Inbound? {
      ProtocolByMessage(s, e);
    } else if Environment(e) {
      EnvironmentKeepsWork(s, e);
    } else if ClosesActors(e) {
      ClosingKeepsWork(s, e);
    }
  }

  // ---- Calls, jobs and agent runs ----

  predicate SendsCall(s: State, e: Event, id: RequestId, inv: InvocationId)
  {
    e == RpcCmd(id, inv, true) && Up(s)
  }

  predicate AnswersCall(s: State, e: Event, id: RequestId)
  {
    Hears(s, e) && e.msg == RpcResponse(id) && id in s.rpcs
  }

  predicate StartsJob(s: State, e: Event, inv: InvocationId)
  {
    e.JobCmd? && e.sent && e.invocation == inv && Up(s) && !(e.jobId.Numeric? && e.jobId.n in s.jobs.leases)
  }

  predicate AnswersJob(s: State, e: Event, n: MessageId)
  {
    Hears(s, e) && e.msg == JobResult(Numeric(n))
  }

  /** A call or a job brings its invocation to life. */
  predicate Invokes(s: State, e: Event, inv: InvocationId)
  {
    StartsJob(s, e, inv) || (e.RpcCmd? && SendsCall(s, e, e.request, inv))
  }

  predicate AnsweredBy(s: State, e: Event, inv: InvocationId)
  {
    && e.Inbound?
    && (|| (e.msg.RpcResponse? && AnswersCall(s, e, e.msg.id) && s.rpcs[e.msg.id] == inv)
        || (e.msg.JobResult? && e.msg.job.Numeric? && AnswersJob(s, e, e.msg.job.n)
            && e.msg.job.n in s.jobs.invocations && s.jobs.invocations[e.msg.job.n] == inv))
  }

  predicate Expires(s: State, e: Event, id: RequestId, inv: InvocationId)
  {
    e.Resume? && s.pc.Closing? && s.pc.after == Expire(id, inv)
  }

  /** The worker is gone. */
  predicate Wipes(s: State, e: Event)
  {
    Clearing(s, e) || (Fatal(s, e) && !s.cfg.kind.Approved?)
  }

  /** An invocation ends with its answer, the timeout of its call, or the worker. */
  predicate Retires(s: State, e: Event, inv: InvocationId)
  {
    || AnsweredBy(s, e, inv)
    || (e.Resume? && s.pc.Closing? && s.pc.after.Expire? && Expires(s, e, s.pc.after.request, inv))
    || Wipes(s, e)
  }

  lemma ActiveWhenHeard(s: State, msg: Message, inv: InvocationId)
    requires MessageEnabled(s, msg)
    ensures inv in Dispatch(s, msg).active <==>
            && inv in s.active && !(msg.RpcResponse? && msg.id in s.rpcs && s.rpcs[msg.id] == inv)
            && !(msg.JobResult? && msg.job.Numeric? && msg.job.n in s.jobs.invocations && s.jobs.invocations[msg.job.n] == inv)
  {
    if AboutTx(msg) { TxMessagesKeepWork(s, msg); }
  }

  lemma ActiveAfter(s: State, inv: InvocationId)
    requires s.pc.Closing? && IdsOk(s)
    ensures inv in AfterResume(s, s.pc.after).active <==>
            inv in s.active && !Clears(s.pc.after) && !(s.pc.after.Expire? && s.pc.after.invocation == inv)
  {
  }

  lemma ActiveByCommand(s: State, e: Event, inv: InvocationId)
    requires ProcessOk(s.process) && IdsOk(s) && Enabled(s, e) && (e.StartCmd? || e.RpcCmd? || e.JobCmd? || e.AgentCmd? || e.TaskEnds?)
    ensures inv in Apply(s, e).active <==> Invokes(s, e, inv) || inv in s.active
  {
  }

  lemma ActiveByMessage(s: State, e: Event, inv: InvocationId)
    requires ProcessOk(s.process) && IdsOk(s) && Enabled(s, e) && e.Inbound?
    ensures inv in Apply(s, e).active <==> Invokes(s, e, inv) || (inv in s.active && !Retires(s, e, inv))
  {
    if Hears(s, e) {
      Heard(s, e);
      ActiveWhenHeard(s, e.msg, inv);
    } else {
      var d := Rebuffed(s, e);
    }
  }

  lemma ActiveByResume(s: State, inv: InvocationId)
    requires IdsOk(s) && Enabled(s, Resume)
    ensures inv in Apply(s, Resume).active <==> inv in s.active && !Retires(s, Resume, inv)
  {
    ActiveAfter(s, inv);
  }

  lemma ActiveQuietly(s: State, e: Event, inv: InvocationId)
    requires Enabled(s, e) && (Environment(e) || ClosesActors(e))
    ensures Apply(s, e).active == s.active && !Invokes(s, e, inv) && !Retires(s, e, inv)
  {
    if Environment(e) { EnvironmentKeepsWork(s, e); } else { ClosingKeepsWork(s, e); }
  }

  lemma ActiveStep(s: State, e: Event, inv: InvocationId)
    requires ProcessOk(s.process) && IdsOk(s) && Enabled(s, e)
    ensures inv in Apply(s, e).active <==> Invokes(s, e, inv) || (inv in s.active && !Retires(s, e, inv))
  {
    match e
    case Inbound(_, _) => ActiveByMessage(s, e, inv);
    case Resume => ActiveByResume(s, inv);
    case _ => if Environment(e) || ClosesActors(e) { ActiveQuietly(s, e, inv); } else { ActiveByCommand(s, e, inv); }
  }

  predicate Waits(s: State, id: RequestId, inv: InvocationId)
  {
    id in s.rpcs && s.rpcs[id] == inv
  }

  predicate StopsWaiting(s: State, e: Event, id: RequestId)
  {
    || AnswersCall(s, e, id)
    || (e.RpcCmd? && e.request == id && Up(s))
    || (e.Resume? && s.pc.Closing? && s.pc.after.Expire? && s.pc.after.request == id)
    || Wipes(s, e)
  }

  lemma WaitingWhenHeard(s: State, msg: Message)
    requires MessageEnabled(s, msg)
    ensures Dispatch(s, msg).rpcs == if msg.RpcResponse? then s.rpcs - {msg.id} else s.rpcs
  {
    if AboutTx(msg) { TxMessagesKeepWork(s, msg); }
  }

  lemma WaitingAfter(s: State)
    requires s.pc.Closing?
    ensures AfterResume(s, s.pc.after).rpcs ==
            if Clears(s.pc.after) then map[] else if s.pc.after.Expire? then s.rpcs - {s.pc.after.request} else s.rpcs
  {
  }

  lemma WaitingByCommand(s: State, e: Event, id: RequestId, inv: InvocationId)
    requires ProcessOk(s.process) && Enabled(s, e) && (e.StartCmd? || e.RpcCmd? || e.JobCmd? || e.AgentCmd? || e.TaskEnds?)
    ensures Waits(Apply(s, e), id, inv) <==> SendsCall(s, e, id, inv) || (Waits(s, id, inv) && !(e.RpcCmd? && e.request == id && Up(s)))
  {
  }

  lemma WaitingByMessage(s: State, e: Event, id: RequestId, inv: InvocationId)
    requires ProcessOk(s.process) && Enabled(s, e) && e.Inbound?
    ensures Waits(Apply(s, e), id, inv) <==> SendsCall(s, e, id, inv) || (Waits(s, id, inv) && !StopsWaiting(s, e, id))
  {
    if Hears(s, e) {
      Heard(s, e);
      WaitingWhenHeard(s, e.msg);
    } else {
      var d := Rebuffed(s, e);
    }
  }

  lemma WaitingOtherwise(s: State, e: Event, id: RequestId, inv: InvocationId)
    requires ProcessOk(s.process) && Enabled(s, e) && !e.Inbound? && !e.Resume?
    ensures Waits(Apply(s, e), id, inv) <==> SendsCall(s, e, id, inv) || (Waits(s, id, inv) && !(e.RpcCmd? && e.request == id && Up(s)))
  {
    if Environment(e) { EnvironmentKeepsWork(s, e); } else if ClosesActors(e) { ClosingKeepsWork(s, e); } else { WaitingByCommand(s, e, id, inv); }
  }

  lemma WaitingStep(s: State, e: Event, id: RequestId, inv: InvocationId)
    requires ProcessOk(s.process) && Enabled(s, e)
    ensures Waits(Apply(s, e), id, inv) <==> SendsCall(s, e, id, inv) || (Waits(s, id, inv) && !StopsWaiting(s, e, id))
  {
    match e
    case Inbound(_, _) => WaitingByMessage(s, e, id, inv);
    case Resume => WaitingAfter(s);
    case _ => WaitingOtherwise(s, e, id, inv);
  }

  /** The invocation a queue message was sent under, while it is in flight. */
  predicate InFlight(s: State, n: MessageId, inv: InvocationId)
  {
    n in s.jobs.leases && n in s.jobs.invocations && s.jobs.invocations[n] == inv
  }

  predicate SendsMessage(s: State, e: Event, n: MessageId, inv: InvocationId)
  {
    StartsJob(s, e, inv) && e.jobId == Numeric(n)
  }

  /** It is answered, or its worker is stopped or found dead. */
  predicate EndsMessage(s: State, e: Event, n: MessageId)
  {
    AnswersJob(s, e, n) || (Clearing(s, e) && !s.pc.after.KillApproved?)
  }

  lemma JobsWhenHeard(s: State, msg: Message)
    requires MessageEnabled(s, msg)
    ensures Dispatch(s, msg).jobs == if msg.JobResult? && msg.job.Numeric? then ForgetJob(s.jobs, msg.job.n) else s.jobs
  {
    if AboutTx(msg) { TxMessagesKeepWork(s, msg); }
  }

  lemma JobsByCommand(s: State, e: Event, n: MessageId, inv: InvocationId)
    requires ProcessOk(s.process) && Enabled(s, e) && (e.StartCmd? || e.RpcCmd? || e.JobCmd? || e.AgentCmd? || e.TaskEnds?)
    ensures InFlight(Apply(s, e), n, inv) <==> SendsMessage(s, e, n, inv) || InFlight(s, n, inv)
  {
  }

  lemma InFlightByMessage(s: State, e: Event, n: MessageId, inv: InvocationId)
    requires ProcessOk(s.process) && Enabled(s, e) && e.Inbound?
    ensures InFlight(Apply(s, e), n, inv) <==> SendsMessage(s, e, n, inv) || (InFlight(s, n, inv) && !EndsMessage(s, e, n))
  {
    if Hears(s, e) {
      Heard(s, e);
      JobsWhenHeard(s, e.msg);
    } else {
      var d := Rebuffed(s, e);
    }
  }

  lemma InFlightOtherwise(s: State, e: Event, n: MessageId, inv: InvocationId)
    requires ProcessOk(s.process) && Enabled(s, e) && !e.Inbound? && !e.Resume?
    ensures InFlight(Apply(s, e), n, inv) <==> SendsMessage(s, e, n, inv) || InFlight(s, n, inv)
  {
    if Environment(e) { EnvironmentKeepsWork(s, e); } else if ClosesActors(e) { ClosingKeepsWork(s, e); } else { JobsByCommand(s, e, n, inv); }
  }

  lemma WorkAfter(s: State)
    requires s.pc.Closing?
    ensures var u, forgets := AfterResume(s, s.pc.after), s.pc.after.StopNow? || s.pc.after.Recover?;
            u.jobs == (if forgets then NoJobs else s.jobs) && u.agents == if forgets then NoAgents else s.agents
  {
  }

  lemma InFlightStep(s: State, e: Event, n: MessageId, inv: InvocationId)
    requires ProcessOk(s.process) && Enabled(s, e)
    ensures InFlight(Apply(s, e), n, inv) <==> SendsMessage(s, e, n, inv) || (InFlight(s, n, inv) && !EndsMessage(s, e, n))
  {
    match e
    case Inbound(_, _) => InFlightByMessage(s, e, n, inv);
    case Resume => WorkAfter(s);
    case _ => InFlightOtherwise(s, e, n, inv);
  }

  predicate StartsAgent(s: State, e: Event, a: InvokeId)
  {
    e == AgentCmd(a, true) && Up(s)
  }

  predicate EndsAgent(s: State, e: Event, a: InvokeId)
  {
    || (Hears(s, e) && e.msg == AgentEnd(a))
    || (e == AgentCmd(a, false) && Up(s))
    || (Clearing(s, e) && !s.pc.after.KillApproved?)
  }

  lemma AgentByMessage(s: State, e: Event, a: InvokeId)
    requires ProcessOk(s.process) && Enabled(s, e) && e.Inbound?
    ensures a in Apply(s, e).agents.streams <==> StartsAgent(s, e, a) || (a in s.agents.streams && !EndsAgent(s, e, a))
  {
    if Hears(s, e) {
      Heard(s, e);
      if AboutTx(e.msg) { TxMessagesKeepWork(s, e.msg); }
    } else {
      var d := Rebuffed(s, e);
    }
  }

  lemma AgentOtherwise(s: State, e: Event, a: InvokeId)
    requires ProcessOk(s.process) && Enabled(s, e) && !e.Inbound? && !e.Resume?
    ensures a in Apply(s, e).agents.streams <==> StartsAgent(s, e, a) || (a in s.agents.streams && !(e == AgentCmd(a, false) && Up(s)))
  {
    if Environment(e) { EnvironmentKeepsWork(s, e); } else if ClosesActors(e) { ClosingKeepsWork(s, e); }
  }

  lemma AgentStep(s: State, e: Event, a: InvokeId)
    requires ProcessOk(s.process) && Enabled(s, e)
    ensures a in Apply(s, e).agents.streams <==> StartsAgent(s, e, a) || (a in s.agents.streams && !EndsAgent(s, e, a))
  {
    match e
    case Inbound(_, _) => AgentByMessage(s, e, a);
    case Resume => WorkAfter(s);
    case _ => AgentOtherwise(s, e, a);
  }

  // ---- One-shot data tasks ----

  predicate StartsTask(s: State, e: Event, t: TaskId)
  {
    Hears(s, e) && e.msg.DataOp? && e.msg.task == t && s.cfg.kind.Approved?
  }

  lemma TaskStep(s: State, e: Event, t: TaskId)
    requires Enabled(s, e)
    ensures t in Apply(s, e).tasks <==> StartsTask(s, e, t) || (t in s.tasks && e != TaskEnds(t))
    ensures StartsTask(s, e, t) ==> Apply(s, e).tasks[t] == e.msg.quoted
    ensures t in s.tasks && t in Apply(s, e).tasks && !StartsTask(s, e, t) ==> Apply(s, e).tasks[t] == s.tasks[t]
  {
  }
}
