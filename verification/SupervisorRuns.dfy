/** Safety of the supervisor over whole runs. */
module SupervisorRuns {
  import opened Common
  import opened TxActor
  import opened Supervisor
  import opened SupervisorInvariants

  lemma InitKeeps(cfg: Config)
    ensures Inv(Init(cfg))
  {
    forall x ensures TxOk(Init(cfg), x) {}
    forall k ensures TaskOk(Init(cfg), k) {}
  }

  lemma StepKeepsConfig(s: State, e: Event)
    requires Enabled(s, e)
    ensures Apply(s, e).cfg == s.cfg
  {
  }

  /** Every reachable state satisfies the invariant. */
  lemma {:induction false} RunKeeps(cfg: Config, states: seq<State>, events: seq<Event>, i: nat)
    requires IsRun(cfg, states, events) && i < |states|
    ensures Inv(states[i]) && states[i].cfg == cfg
    decreases i
  {
    if i == 0 {
      InitKeeps(cfg);
    } else {
      RunKeeps(cfg, states, events, i - 1);
      assert StepAt(states, events, i - 1);
      var s, e := states[i - 1], events[i - 1];
      StepKeeps(s, e);
      StepKeepsConfig(s, e);
    }
  }

  lemma RunGrows(cfg: Config, states: seq<State>, events: seq<Event>, e: Event)
    requires IsRun(cfg, states, events) && Enabled(states[|events|], e)
    ensures IsRun(cfg, states + [Apply(states[|events|], e)], events + [e])
  {
    var more, longer := states + [Apply(states[|events|], e)], events + [e];
    forall i: nat | i < |longer| ensures StepAt(more, longer, i) {
      if i < |events| { assert StepAt(states, events, i); }
    }
  }

  // ---- Bookkeeping ----

  lemma IdleIsEmpty(s: State)
    requires Inv(s) && s.pc.Ready? && NoWorkInFlight(s)
    ensures s.rpcs == map[] && s.jobs == NoJobs && s.agents == NoAgents && s.txs.open == {} && s.txs.owner == map[]
    ensures forall x | x in s.txs.actors :: x in s.txs.fate
  {
    forall x ensures x !in s.txs.owner && (x in s.txs.actors ==> x in s.txs.fate) { assert TxOk(s, x); }
  }

  /** No table of live work holds anything. */
  ghost predicate Emptied(s: State)
  {
    && s.active == {} && s.rpcs == map[] && s.tasks == map[]
    && s.txs.open == {} && s.txs.owner == map[] && s.txs.tracked == map[]
  }

  /** Every arm that clears the worker leaves those tables empty. */
  lemma ClearedIsEmptied(s: State)
    requires Inv(s) && Enabled(s, Resume) && Clears(s.pc.after)
    ensures Emptied(Apply(s, Resume))
  {
    var u := Abandon(s.txs, s.txs.open);
    ClearFacts(s, Apply(s, Resume));
    forall x ensures x !in s.txs.tracked && x !in u.owner { assert TxOk(s, x); }
  }

  /** What a stop leaves, once everything it waits for has ended. */
  lemma StopMeans(s: State)
    requires Inv(s) && Enabled(s, Resume) && s.pc.after == StopNow
    ensures var s' := Apply(s, Resume);
            && Inv(s') && Emptied(s') && s'.jobs == NoJobs && s'.agents == NoAgents && s'.process.status == Stopped
            && (s'.cfg.kind.Approved? ==> AllOver(s'))
  {
    StepKeeps(s, Resume);
    ClearedIsEmptied(s);
    if s.cfg.kind.Approved? { ExitedIsOver(Apply(s, Resume)); }
  }

  lemma CrashForgetsWork(s: State, how: Recovery)
    ensures var s' := AfterResume(s, Recover(how));
            s'.jobs == NoJobs && s'.agents == NoAgents && (s'.process.status == Running <==> how.Respawned?)
  {
  }

  lemma CrashMeans(s: State, how: Recovery)
    requires Inv(s) && Enabled(s, Resume) && s.pc.after == Recover(how)
    ensures var s' := Apply(s, Resume);
            && Inv(s') && Emptied(s') && s'.jobs == NoJobs && s'.agents == NoAgents
            && (s'.process.status == Running <==> how.Respawned?)
  {
    CrashForgetsWork(s, how);
    StepKeeps(s, Resume);
    ClearedIsEmptied(s);
  }

  ghost predicate AllOver(s: State)
  {
    forall x | x in s.txs.born :: Over(s.txs, x)
  }

  lemma ExitedIsOver(s: State)
    requires Inv(s) && s.pc.Exited?
    ensures AllOver(s)
  {
    forall x | x in s.txs.born ensures Over(s.txs, x) { assert TxOk(s, x); }
  }

  /** Nothing is live under this invocation: no session, no data task and, for an approved worker,
      no actor that could still act. */
  ghost predicate Retired(s: State, inv: InvocationId)
  {
    && inv !in s.active
    && (forall x | x in s.txs.open && x in s.txs.born && s.txs.born[x].echoed :: s.txs.born[x].quoted != Some(inv))
    && (forall k | k in s.tasks :: s.tasks[k] != Some(inv))
    && (s.cfg.kind.Approved? ==> forall x | x in s.txs.born && s.txs.born[x].quoted == Some(inv) :: Over(s.txs, x))
  }

  lemma ResolvedIsRetired(s: State, inv: InvocationId)
    requires Inv(s) && s.pc.Ready? && inv in s.resolved
    ensures Retired(s, inv)
  {
    forall x | x in s.txs.open && x in s.txs.born && s.txs.born[x].echoed ensures s.txs.born[x].quoted != Some(inv) { assert TxOk(s, x); }
    forall k | k in s.tasks ensures s.tasks[k] != Some(inv) { assert TaskOk(s, k); }
    if s.cfg.kind.Approved? {
      forall x | x in s.txs.born && s.txs.born[x].quoted == Some(inv) ensures Over(s.txs, x) { assert TxOk(s, x); }
    }
  }

  /** A worker that answers "idle" tracks no call, no job, no transaction and no agent run. */
  lemma IdleMeansNothingTracked(cfg: Config, states: seq<State>, events: seq<Event>, i: nat)
    requires IsRun(cfg, states, events) && i < |states| && states[i].pc.Ready?
    ensures var s := states[i];
            NoWorkInFlight(s) ==>
              && s.rpcs == map[] && s.jobs == NoJobs && s.agents == NoAgents
              && s.txs.open == {} && s.txs.owner == map[]
              && (forall x | x in s.txs.actors :: x in s.txs.fate)
  {
    RunKeeps(cfg, states, events, i);
    if NoWorkInFlight(states[i]) { IdleIsEmpty(states[i]); }
  }

  /** At most four transactions are open, each still served or finished by an actor of its own,
      and the process handles exist exactly while the worker is running. */
  lemma TablesStayBounded(cfg: Config, states: seq<State>, events: seq<Event>, i: nat)
    requires IsRun(cfg, states, events) && i < |states|
    ensures var s := states[i];
            && |s.txs.open| <= 4
            && (forall x | x in s.txs.owner :: x in s.txs.open)
            && (forall x | x in s.txs.open :: x in s.txs.actors && !CommitStarted(s.txs.actors[x]))
            && s.jobs.leases == s.jobs.invocations.Keys == s.jobs.payloads
            && s.agents.runs == s.agents.streams
            && (s.process.status == Running <==> s.process.child && s.process.reader && s.process.writer)
            && (s.process.status != Running ==> !s.process.child && !s.process.reader && !s.process.writer)
  {
    RunKeeps(cfg, states, events, i);
    var s := states[i];
    forall x ensures x in s.txs.owner ==> x in s.txs.open {
      assert TxOk(s, x);
    }
    forall x | x in s.txs.open ensures x in s.txs.actors && !CommitStarted(s.txs.actors[x]) {
      assert TxOk(s, x);
    }
  }

  // ---- One step, seen by one transaction ----

  /** Between `t` and `u`, one transaction kept its origin and its fate, and an actor that had
      finished kept its outcome. */
  predicate Kept(t: Txs, u: Txs, x: TxId)
    requires x in t.born && x in t.actors
  {
    && x in u.born && u.born[x] == t.born[x]
    && x in u.actors
    && (t.actors[x].phase == Finished ==> u.actors[x].phase == Finished && u.actors[x].stage == t.actors[x].stage)
    && (x in t.fate ==> x in u.fate && u.fate[x] == t.fate[x])
  }

  lemma KeptTwice(t: Txs, u: Txs, v: Txs, x: TxId)
    requires x in t.born && x in t.actors && Kept(t, u, x) && Kept(u, v, x)
    ensures Kept(t, v, x)
  {
  }

  lemma KeptByAbandon(t: Txs, ids: set<TxId>, x: TxId)
    requires x in t.born && x in t.actors && (x in t.open ==> x !in t.fate)
    ensures Kept(t, Abandon(t, ids), x)
  {
  }

  lemma KeptByUntrack(t: Txs, ids: set<TxId>, x: TxId)
    requires x in t.born && x in t.actors
    ensures Kept(t, Untrack(t, ids), x)
  {
  }

  lemma KeptByMove(t: Txs, y: TxId, m: Move, x: TxId)
    requires RowOk(t, x) && x in t.born && y in t.actors && Can(t.actors[y], m)
    ensures Kept(t, t.(actors := t.actors[y := Do(t.actors[y], m)]), x)
  {
  }

  lemma KeptByAsk(t: Txs, y: TxId, commit: bool, x: TxId)
    requires RowOk(t, x) && x in t.born && y in t.open
    ensures Kept(t, Ask(t, y, commit), x)
  {
  }

  lemma KeptByTxMessage(s: State, q: Option<InvocationId>, y: TxId, msg: Message, x: TxId)
    requires RowOk(s.txs, x) && x in s.txs.born && MessageEnabled(s, msg)
    requires msg.SqlExec? || msg.SqlCommit? || msg.SqlRollback?
    requires y == msg.tx
    ensures Kept(s.txs, TxMessage(s, q, y, msg).txs, x)
  {
    if y in s.txs.open {
      KeptByAsk(s.txs, y, true, x);
      KeptByAsk(s.txs, y, false, x);
    }
  }

  lemma KeptByDispatch(s: State, msg: Message, x: TxId)
    requires RowOk(s.txs, x) && x in s.txs.born && MessageEnabled(s, msg)
    ensures Kept(s.txs, Dispatch(s, msg).txs, x)
  {
    var u := Dispatch(s, msg).txs;
    match msg
    case SqlExec(q, y, _, _) => KeptByTxMessage(s, q, y, msg, x);
    case SqlCommit(q, y) => KeptByTxMessage(s, q, y, msg, x);
    case SqlRollback(q, y) => KeptByTxMessage(s, q, y, msg, x);
    case JobResult(id) =>
      if id.Numeric? && id.n in s.jobs.invocations {
        var ids := OwnedBy(s.txs.owner, s.jobs.invocations[id.n]);
        assert u == Abandon(s.txs, ids);
        KeptByAbandon(s.txs, ids, x);
      }
    case _ =>
  }

  lemma KeptByCancel(t: Txs, ids: set<TxId>, x: TxId)
    requires x in t.born && x in t.actors
    ensures Kept(t, t.(actors := CancelActors(t.actors, ids)), x)
  {
  }

  lemma KeptByDropDenied(t: Txs, tx: TxId, x: TxId)
    requires x in t.born && x in t.actors && (x in t.open ==> x !in t.fate)
    ensures Kept(t, DropDenied(t, tx), x)
  {
    var cancelled := if tx in t.tracked then {tx} else {};
    var u := t.(actors := CancelActors(t.actors, cancelled));
    KeptByCancel(t, cancelled, x);
    KeptByAbandon(u, {tx}, x);
    KeptTwice(t, u, Abandon(u, {tx}), x);
  }

  lemma KeptByDenied(s: State, msg: Message, x: TxId)
    requires x in s.txs.born && x in s.txs.actors && (x in s.txs.open ==> x !in s.txs.fate)
    ensures Kept(s.txs, Denied(s, msg).txs, x)
  {
    if Denied(s, msg) != s { KeptByDropDenied(s.txs, msg.tx, x); }
  }

  lemma KeptByKilled(s: State, x: TxId)
    requires x in s.txs.born && x in s.txs.actors
    ensures Kept(s.txs, Killed(s).txs, x)
  {
    KeptByUntrack(s.txs, s.txs.tracked.Keys, x);
  }

  lemma KeptByReceive(s: State, msg: Message, backlog: bool, x: TxId)
    requires RowOk(s.txs, x) && x in s.txs.born && MessageEnabled(s, msg)
    ensures Kept(s.txs, Receive(s, msg, backlog).txs, x)
  {
    match Gate(s, msg)
    case Pass => KeptByDispatch(s, msg, x);
    case Kill => KeptByKilled(s, x);
    case Deny =>
      var d := Denied(s, msg);
      KeptByDenied(s, msg, x);
      if backlog { KeptByKilled(d, x); }
  }

  lemma KeptByResume(s: State, x: TxId)
    requires RowOk(s.txs, x) && x in s.txs.born && s.pc.Closing?
    ensures Kept(s.txs, AfterResume(s, s.pc.after).txs, x)
  {
    var u := AfterResume(s, s.pc.after).txs;
    var ids := if s.pc.after.Resolve? || s.pc.after.Expire? then OwnedBy(s.txs.owner, s.pc.after.invocation) else s.txs.open;
    assert u == Abandon(s.txs, ids);
    KeptByAbandon(s.txs, ids, x);
  }

  lemma KeptByTxDone(s: State, y: TxId, x: TxId)
    requires RowOk(s.txs, x) && x in s.txs.born && Enabled(s, TxDone(y))
    ensures Kept(s.txs, Apply(s, TxDone(y)).txs, x)
  {
    KeptByAbandon(s.txs.(tracked := s.txs.tracked - {y}), {y}, x);
  }

  lemma KeptByDeliver(s: State, y: TxId, x: TxId)
    requires RowOk(s.txs, x) && x in s.txs.born && Enabled(s, Deliver(y))
    ensures Kept(s.txs, Apply(s, Deliver(y)).txs, x)
  {
  }

  /** Commands and the end of a data task do not touch the transaction tables. */
  predicate LeavesTxsAlone(e: Event)
  {
    e.StartCmd? || e.RpcCmd? || e.JobCmd? || e.AgentCmd? || e.TaskEnds?
  }

  lemma TxsLeftAlone(s: State, e: Event)
    requires Enabled(s, e) && LeavesTxsAlone(e)
    ensures Apply(s, e).txs == s.txs
  {
  }

  lemma KeptByClosing(s: State, e: Event, x: TxId)
    requires RowOk(s.txs, x) && x in s.txs.born && Enabled(s, e) && (e.StopCmd? || e.Eof? || e.ResponseUndeliverable? || e.Expiry?)
    ensures Kept(s.txs, Apply(s, e).txs, x)
  {
    KeptByUntrack(s.txs, s.txs.tracked.Keys, x);
    if e.Expiry? { KeptByUntrack(s.txs, OwnedBy(s.txs.tracked, e.invocation), x); }
  }

  lemma KeptByStep(s: State, e: Event, x: TxId)
    requires RowOk(s.txs, x) && Enabled(s, e) && x in s.txs.born
    ensures Kept(s.txs, Apply(s, e).txs, x)
  {
    match e
    case Inbound(msg, backlog) => KeptByReceive(s, msg, backlog, x);
    case Resume => KeptByResume(s, x);
    case TxDone(y) => KeptByTxDone(s, y, x);
    case ActorMove(y, m) => KeptByMove(s.txs, y, m, x);
    case Deliver(y) => KeptByDeliver(s, y, x);
    case _ => if LeavesTxsAlone(e) { TxsLeftAlone(s, e); } else { KeptByClosing(s, e, x); }
  }

  lemma RowOverRun(cfg: Config, states: seq<State>, events: seq<Event>, i: nat, x: TxId)
    requires IsRun(cfg, states, events) && i < |states|
    ensures RowOk(states[i].txs, x)
  {
    RunKeeps(cfg, states, events, i);
    assert TxOk(states[i], x);
  }

  lemma KeptAt(cfg: Config, states: seq<State>, events: seq<Event>, i: nat, x: TxId)
    requires IsRun(cfg, states, events) && i < |events| && x in states[i].txs.born
    ensures x in states[i].txs.actors && Kept(states[i].txs, states[i + 1].txs, x)
  {
    RowOverRun(cfg, states, events, i, x);
    assert StepAt(states, events, i);
    KeptByStep(states[i], events[i], x);
  }

  lemma {:induction false} KeptOverRun(cfg: Config, states: seq<State>, events: seq<Event>, i: nat, j: nat, x: TxId)
    requires IsRun(cfg, states, events) && i <= j < |states| && x in states[i].txs.born
    ensures x in states[i].txs.actors && Kept(states[i].txs, states[j].txs, x)
    decreases j
  {
    RowOverRun(cfg, states, events, i, x);
    if i < j {
      KeptOverRun(cfg, states, events, i, j - 1, x);
      KeptAt(cfg, states, events, j - 1, x);
      KeptTwice(states[i].txs, states[j - 1].txs, states[j].txs, x);
    }
  }

  /** A step never forgets that a call was resolved, and opens a transaction or a data task of
      an approved worker only under an invocation that is live. */
  lemma OpensOnlyLive(s: State, e: Event)
    requires Enabled(s, e)
    ensures s.resolved <= Apply(s, e).resolved
    ensures s.pc.Exited? ==> Apply(s, e).pc.Exited?
    ensures forall x | x in Apply(s, e).txs.born && x !in s.txs.born ::
              && s.pc.Ready?
              && (s.cfg.kind.Approved? ==>
                    var q := Apply(s, e).txs.born[x].quoted;
                    q.Some? && q.value in s.active)
  {
    match e
    case Inbound(msg, backlog) => ReceiveOpensOnlyLive(s, msg, backlog);
    case _ =>
  }

  lemma ReceiveOpensOnlyLive(s: State, msg: Message, backlog: bool)
    requires MessageEnabled(s, msg)
    ensures s.resolved <= Receive(s, msg, backlog).resolved
    ensures forall x | x in Receive(s, msg, backlog).txs.born && x !in s.txs.born ::
              s.cfg.kind.Approved? ==>
                var q := Receive(s, msg, backlog).txs.born[x].quoted;
                q.Some? && q.value in s.active
  {
    match Gate(s, msg)
    case Pass => DispatchOpensOnlyLive(s, msg);
    case _ =>
  }

  lemma DispatchOpensOnlyLive(s: State, msg: Message)
    requires MessageEnabled(s, msg) && Gate(s, msg) == Pass
    ensures s.resolved <= Dispatch(s, msg).resolved
    ensures forall x | x in Dispatch(s, msg).txs.born && x !in s.txs.born ::
              s.cfg.kind.Approved? ==>
                var q := Dispatch(s, msg).txs.born[x].quoted;
                q.Some? && q.value in s.active
  {
  }

  // ---- Approved actions are final ----

  ghost predicate OpenedUnder(s: State, inv: InvocationId, x: TxId)
  {
    x in s.txs.born && s.txs.born[x].quoted == Some(inv)
  }

  lemma {:induction false} NothingOpensAfter(cfg: Config, states: seq<State>, events: seq<Event>, i: nat, j: nat, inv: InvocationId)
    requires IsRun(cfg, states, events) && cfg.kind.Approved? && i <= j < |states|
    requires inv in states[i].resolved
    ensures inv in states[j].resolved
    ensures forall x | OpenedUnder(states[j], inv, x) :: OpenedUnder(states[i], inv, x)
    decreases j
  {
    if i < j {
      var s, e := states[j - 1], events[j - 1];
      NothingOpensAfter(cfg, states, events, i, j - 1, inv);
      RunKeeps(cfg, states, events, j - 1);
      assert StepAt(states, events, j - 1);
      OpensOnlyLive(s, e);
      assert inv !in s.active;
      forall x | OpenedUnder(states[j], inv, x) ensures OpenedUnder(s, inv, x) {
        if x in s.txs.born { KeptOverRun(cfg, states, events, j - 1, j, x); }
      }
    }
  }

  /** Once the call of an approved action is resolved, the outcome of everything done under its
      invocation is fixed: no commit is still in flight (one that had started was awaited), no
      transaction opened under it commits later, none is opened under it later, and no
      one-shot data task admitted under it is still running or will run. */
  lemma ApprovedActionIsFinal(cfg: Config, states: seq<State>, events: seq<Event>, i: nat, j: nat, inv: InvocationId)
    requires IsRun(cfg, states, events) && cfg.kind.Approved? && i <= j < |states|
    requires inv in states[i].resolved
    ensures forall x | OpenedUnder(states[j], inv, x) ::
              && x in states[i].txs.actors && x in states[j].txs.actors
              && states[i].txs.actors[x].stage != Committing
              && (CommitStarted(states[j].txs.actors[x]) <==> states[i].txs.actors[x].stage == Settled(true))
    ensures forall k | k in states[j].tasks :: states[j].tasks[k] != Some(inv)
  {
    NothingOpensAfter(cfg, states, events, i, j, inv);
    RunKeeps(cfg, states, events, i);
    RunKeeps(cfg, states, events, j);
    forall x | OpenedUnder(states[j], inv, x)
      ensures x in states[i].txs.actors && x in states[j].txs.actors
      ensures states[i].txs.actors[x].stage != Committing
      ensures CommitStarted(states[j].txs.actors[x]) <==> states[i].txs.actors[x].stage == Settled(true)
    {
      assert OpenedUnder(states[i], inv, x);
      KeptOverRun(cfg, states, events, i, j, x);
      assert TxOk(states[i], x) && TxOk(states[j], x);
    }
    forall k | k in states[j].tasks ensures states[j].tasks[k] != Some(inv) {
      assert TaskOk(states[j], k);
    }
  }

  lemma {:induction false} ExitedStays(cfg: Config, states: seq<State>, events: seq<Event>, i: nat, j: nat)
    requires IsRun(cfg, states, events) && i <= j < |states| && states[i].pc.Exited?
    ensures states[j].pc.Exited?
    ensures forall x | x in states[j].txs.born :: x in states[i].txs.born
    decreases j
  {
    if i < j {
      ExitedStays(cfg, states, events, i, j - 1);
      assert StepAt(states, events, j - 1);
      OpensOnlyLive(states[j - 1], events[j - 1]);
    }
  }

  /** When the Stop of an approved worker is answered, everything has been closed and drained:
      no data task runs, and no transaction it ever opened can commit any more. */
  lemma StopIsFinal(cfg: Config, states: seq<State>, events: seq<Event>, i: nat, j: nat)
    requires IsRun(cfg, states, events) && i <= j < |states| && states[i].pc.Exited?
    ensures states[j].tasks == map[]
    ensures forall x | x in states[j].txs.born ::
              && x in states[i].txs.actors && x in states[j].txs.actors
              && states[i].txs.actors[x].stage != Committing
              && (CommitStarted(states[j].txs.actors[x]) <==> states[i].txs.actors[x].stage == Settled(true))
  {
    ExitedStays(cfg, states, events, i, j);
    RunKeeps(cfg, states, events, i);
    RunKeeps(cfg, states, events, j);
    forall x | x in states[j].txs.born
      ensures x in states[i].txs.actors && x in states[j].txs.actors
      ensures states[i].txs.actors[x].stage != Committing
      ensures CommitStarted(states[j].txs.actors[x]) <==> states[i].txs.actors[x].stage == Settled(true)
    {
      KeptOverRun(cfg, states, events, i, j, x);
      assert TxOk(states[i], x) && TxOk(states[j], x);
    }
    forall k ensures k !in states[j].tasks {
      assert TaskOk(states[j], k);
    }
  }

  // ---- One approved action, from start to stop ----

  /** The manager that runs an approved action gives its worker no other work than this one call. */
  ghost predicate OnlyCall(events: seq<Event>, inv: InvocationId)
  {
    forall i | 0 <= i < |events| && events[i].RpcCmd? :: events[i].invocation == inv
  }

  lemma MintsOnlyCalls(s: State, e: Event)
    requires Enabled(s, e) && s.cfg.kind.Approved?
    ensures Apply(s, e).minted <= s.minted + if e.RpcCmd? then {e.invocation} else {}
  {
  }

  lemma {:induction false} OneInvocation(cfg: Config, states: seq<State>, events: seq<Event>, inv: InvocationId, i: nat)
    requires IsRun(cfg, states, events) && cfg.kind.Approved? && OnlyCall(events, inv) && i < |states|
    ensures states[i].minted <= {inv}
    decreases i
  {
    if i > 0 {
      OneInvocation(cfg, states, events, inv, i - 1);
      RunKeeps(cfg, states, events, i - 1);
      assert StepAt(states, events, i - 1);
      MintsOnlyCalls(states[i - 1], events[i - 1]);
    }
  }

  predicate Stops(e: Event)
  {
    e.StopCmd? || e == Eof(StoppedInBackoff)
  }

  /** Is the loop over, or on its way out? */
  predicate Leaves(s: State)
  {
    s.pc.Exited? || (s.pc.Closing? && (s.pc.after.StopNow? || s.pc.after == Recover(StoppedInBackoff)))
  }

  lemma OnlyStopsLeave(s: State, e: Event)
    requires Enabled(s, e) && Leaves(Apply(s, e))
    ensures Leaves(s) || Stops(e)
  {
  }

  lemma {:induction false} LeavingWasAsked(cfg: Config, states: seq<State>, events: seq<Event>, i: nat) returns (stop: nat)
    requires IsRun(cfg, states, events) && i < |states| && Leaves(states[i])
    ensures stop < i && Stops(events[stop])
    decreases i
  {
    assert i > 0;
    assert StepAt(states, events, i - 1);
    OnlyStopsLeave(states[i - 1], events[i - 1]);
    if Stops(events[i - 1]) { stop := i - 1; } else { stop := LeavingWasAsked(cfg, states, events, i - 1); }
  }

  /** The execution of an approved action: start, one call, and a stop whatever became of the call.
      When the stop is answered, everything the worker ever opened was opened under that call and is
      decided for good, and nothing of it runs; and if the call had been resolved by then, what was
      committed at that moment is what stays committed. */
  lemma ApprovedExecutionIsSettled(cfg: Config, states: seq<State>, events: seq<Event>, inv: InvocationId, i: nat, j: nat) returns (stop: nat)
    requires IsRun(cfg, states, events) && cfg.kind.Approved? && OnlyCall(events, inv)
    requires i <= j < |states| && states[i].pc.Exited?
    ensures stop < i && Stops(events[stop]) && states[j].tasks == map[]
    ensures forall x | x in states[j].txs.born ::
              && OpenedUnder(states[i], inv, x) && x in states[i].txs.actors && x in states[j].txs.actors
              && states[i].txs.actors[x].stage != Committing
              && (CommitStarted(states[j].txs.actors[x]) <==> states[i].txs.actors[x].stage == Settled(true))
    ensures forall c, x | 0 <= c <= i && inv in states[c].resolved && x in states[j].txs.born ::
              && x in states[c].txs.actors && states[c].txs.actors[x].stage != Committing
              && (CommitStarted(states[j].txs.actors[x]) <==> states[c].txs.actors[x].stage == Settled(true))
  {
    stop := LeavingWasAsked(cfg, states, events, i);
    StopIsFinal(cfg, states, events, i, j);
    ExitedStays(cfg, states, events, i, j);
    forall x | x in states[j].txs.born ensures OpenedUnder(states[i], inv, x) && OpenedUnder(states[j], inv, x) {
      OpenedUnderTheCall(cfg, states, events, inv, i, x);
      OpenedUnderTheCall(cfg, states, events, inv, j, x);
    }
    forall c, x | 0 <= c <= i && inv in states[c].resolved && x in states[j].txs.born
      ensures x in states[c].txs.actors && states[c].txs.actors[x].stage != Committing
      ensures CommitStarted(states[j].txs.actors[x]) <==> states[c].txs.actors[x].stage == Settled(true)
    {
      ApprovedActionIsFinal(cfg, states, events, c, j, inv);
    }
  }

  lemma OpenedUnderTheCall(cfg: Config, states: seq<State>, events: seq<Event>, inv: InvocationId, i: nat, x: TxId)
    requires IsRun(cfg, states, events) && cfg.kind.Approved? && OnlyCall(events, inv) && i < |states| && x in states[i].txs.born
    ensures OpenedUnder(states[i], inv, x)
  {
    OneInvocation(cfg, states, events, inv, i);
    RunKeeps(cfg, states, events, i);
    assert TxOk(states[i], x);
  }

  // ---- Invocation continuity ----

  /** Is this a message about the open transaction `x`? */
  predicate Addresses(s: State, e: Event, x: TxId)
  {
    && e.Inbound? && (e.msg.SqlExec? || e.msg.SqlCommit? || e.msg.SqlRollback?) && e.msg.tx == x
    && x in s.txs.open && x in s.txs.actors
  }

  predicate Admits(s: State, e: Event, x: TxId)
    requires Addresses(s, e, x)
  {
    Gate(s, e.msg) == Pass && TxMessageAdmitted(s, x, e.msg.quoted)
  }

  /** Does this event queue a statement to the session of `x`, hand its commit over, or admit its
      rollback?  An abort has the same effect as a rollback, so only admission tells them apart. */
  predicate Serves(s: State, e: Event, x: TxId)
    requires Enabled(s, e)
  {
    && Addresses(s, e, x) && x in Apply(s, e).txs.actors
    && (|| Apply(s, e).txs.actors[x].queue != s.txs.actors[x].queue
        || (x in Apply(s, e).txs.fate && Apply(s, e).txs.fate[x] == CommitAsked)
        || (e.msg.SqlRollback? && Admits(s, e, x)))
  }

  /** A worker held to the echo is served only if it quotes the very invocation that opened the
      transaction, and that invocation is still live. */
  lemma ServedUnderItsOpener(cfg: Config, states: seq<State>, events: seq<Event>, i: nat, x: TxId)
    requires IsRun(cfg, states, events) && i < |events|
    requires Enabled(states[i], events[i]) && Serves(states[i], events[i], x)
    requires EchoesInvocation(states[i])
    ensures var q := events[i].msg.quoted;
            && q.Some? && q.value in states[i].active
            && x in states[i].txs.born && q == states[i].txs.born[x].quoted
  {
    RunKeeps(cfg, states, events, i);
    assert TxOk(states[i], x);
    ServedIsAdmitted(states[i], events[i], x);
  }

  lemma ServedIsAdmitted(s: State, e: Event, x: TxId)
    requires Enabled(s, e) && Serves(s, e, x) && RowOk(s.txs, x)
    ensures Admits(s, e, x)
  {
    if Gate(s, e.msg) == Pass {
      assert Apply(s, e) == TxMessage(s, e.msg.quoted, x, e.msg);
    } else {
      DeniedServesNothing(s, e.msg, e.backlog, x);
    }
  }

  /** Between `t` and `u` nothing was queued to the session of `x`, and it was at most dropped. */
  predicate NotServed(t: Txs, u: Txs, x: TxId)
    requires x in t.actors
  {
    x in u.actors && u.actors[x].queue == t.actors[x].queue && (x in u.fate ==> x in t.fate || u.fate[x] == Abandoned)
  }

  lemma DropServesNothing(t: Txs, tx: TxId, x: TxId)
    requires x in t.actors
    ensures NotServed(t, DropDenied(t, tx), x)
  {
    var u := t.(actors := CancelActors(t.actors, if tx in t.tracked then {tx} else {}));
    assert NotServed(t, u, x);
    assert NotServed(u, Abandon(u, {tx}), x);
  }

  lemma UntrackServesNothing(t: Txs, ids: set<TxId>, x: TxId)
    requires x in t.actors
    ensures NotServed(t, Untrack(t, ids), x) && Untrack(t, ids).fate == t.fate
  {
  }

  lemma KillServesNothing(s: State, x: TxId)
    requires x in s.txs.actors
    ensures NotServed(s.txs, Killed(s).txs, x) && Killed(s).txs.fate == s.txs.fate
  {
    var ids := s.txs.tracked.Keys;
    UntrackServesNothing(s.txs, ids, x);
    assert Killed(s).txs == if s.cfg.kind.Approved? then Untrack(s.txs, ids) else s.txs;
  }

  lemma DeniedServesNothing(s: State, msg: Message, backlog: bool, x: TxId)
    requires MessageEnabled(s, msg) && Gate(s, msg) != Pass && x in s.txs.actors
    ensures NotServed(s.txs, Receive(s, msg, backlog).txs, x)
  {
    DropServesNothing(s.txs, if Denied(s, msg) != s then msg.tx else 0, x);
    KillServesNothing(s, x);
    KillServesNothing(Denied(s, msg), x);
  }

  /** At every loop head, a transaction opened under the echo and still open belongs to an
      invocation that is still live. */
  lemma OpenMeansOwnerLive(cfg: Config, states: seq<State>, events: seq<Event>, i: nat, x: TxId)
    requires IsRun(cfg, states, events) && i < |states| && states[i].pc.Ready?
    requires x in states[i].txs.open
    ensures x in states[i].txs.born
    ensures states[i].txs.born[x].echoed ==>
              x in states[i].txs.owner && states[i].txs.owner[x] in states[i].active
  {
    RunKeeps(cfg, states, events, i);
    assert TxOk(states[i], x);
  }

  // ---- The fate of a transaction ----

  /** The one event that may ask for the commit of `x`: an admitted commit while it is open. */
  predicate AsksCommit(s: State, e: Event, x: TxId)
  {
    && e.Inbound? && e.msg.SqlCommit? && e.msg.tx == x
    && x in s.txs.open && Gate(s, e.msg) == Pass && TxMessageAdmitted(s, x, e.msg.quoted)
  }

  /** Between `t` and `u` nothing asked for the commit of `x`. */
  predicate NotAsked(t: Txs, u: Txs, x: TxId)
  {
    x in u.fate && u.fate[x] == CommitAsked ==> x in t.fate
  }

  lemma ResumeAsksNothing(s: State, x: TxId)
    requires s.pc.Closing?
    ensures NotAsked(s.txs, AfterResume(s, s.pc.after).txs, x)
  {
    var ids := if s.pc.after.Resolve? || s.pc.after.Expire? then OwnedBy(s.txs.owner, s.pc.after.invocation) else s.txs.open;
    assert AfterResume(s, s.pc.after).txs == Abandon(s.txs, ids);
  }

  lemma OnlyMessagesAsk(s: State, e: Event, x: TxId)
    requires Enabled(s, e) && !e.Inbound?
    ensures NotAsked(s.txs, Apply(s, e).txs, x)
  {
    if e.Resume? {
      ResumeAsksNothing(s, x);
    } else if e.TxDone? {
      assert Apply(s, e).txs == Abandon(s.txs.(tracked := s.txs.tracked - {e.txId}), {e.txId});
    } else {
      assert Apply(s, e).txs.fate == s.txs.fate;
    }
  }

  lemma DenialAsksNothing(s: State, msg: Message, backlog: bool, x: TxId)
    requires MessageEnabled(s, msg) && Gate(s, msg) != Pass
    ensures NotAsked(s.txs, Receive(s, msg, backlog).txs, x)
  {
    var d := Denied(s, msg);
    assert NotAsked(s.txs, d.txs, x);
    assert Killed(s).txs.fate == s.txs.fate && Killed(d).txs.fate == d.txs.fate;
  }

  lemma CommitIsAsked(s: State, e: Event, x: TxId)
    requires Enabled(s, e) && x !in s.txs.fate
    requires x in Apply(s, e).txs.fate && Apply(s, e).txs.fate[x] == CommitAsked
    ensures AsksCommit(s, e, x)
  {
    if !e.Inbound? {
      OnlyMessagesAsk(s, e, x);
      assert false;
    } else if Gate(s, e.msg) == Pass {
      DispatchAsks(s, e.msg, x);
    } else {
      DenialAsksNothing(s, e.msg, e.backlog, x);
      assert false;
    }
  }

  lemma DispatchAsks(s: State, msg: Message, x: TxId)
    requires MessageEnabled(s, msg) && x !in s.txs.fate
    requires x in Dispatch(s, msg).txs.fate && Dispatch(s, msg).txs.fate[x] == CommitAsked
    ensures msg.SqlCommit? && msg.tx == x && x in s.txs.open && TxMessageAdmitted(s, x, msg.quoted)
  {
    match msg
    case SqlExec(q, y, _, _) => TxMessageAsks(s, q, y, msg, x);
    case SqlCommit(q, y) => TxMessageAsks(s, q, y, msg, x);
    case SqlRollback(q, y) => TxMessageAsks(s, q, y, msg, x);
    case _ =>
  }

  lemma TxMessageAsks(s: State, q: Option<InvocationId>, y: TxId, msg: Message, x: TxId)
    requires MessageEnabled(s, msg) && (msg.SqlExec? || msg.SqlCommit? || msg.SqlRollback?) && y == msg.tx
    requires x !in s.txs.fate
    ensures var u := TxMessage(s, q, y, msg).txs;
            x in u.fate && u.fate[x] == CommitAsked ==>
              msg.SqlCommit? && y == x && x in s.txs.open && TxMessageAdmitted(s, x, q)
  {
    var u := TxMessage(s, q, y, msg).txs;
    if y !in s.txs.open {
      assert u == s.txs;
    } else if msg.SqlCommit? && TxMessageAdmitted(s, y, q) {
      assert u == Ask(s.txs, y, true);
    } else {
      assert u == Ask(s.txs, y, false) || u.fate == s.txs.fate;
    }
  }

  /** A transaction whose session has left the table is decided: it never comes back, its fate
      never changes, and unless that fate was a commit it never commits. */
  lemma FateIsSealed(cfg: Config, states: seq<State>, events: seq<Event>, i: nat, j: nat, x: TxId)
    requires IsRun(cfg, states, events) && i <= j < |states|
    requires x in states[i].txs.born && x !in states[i].txs.open
    ensures x in states[i].txs.fate && x !in states[j].txs.open
    ensures x in states[j].txs.fate && states[j].txs.fate[x] == states[i].txs.fate[x]
    ensures x in states[j].txs.actors && (states[i].txs.fate[x] != CommitAsked ==> !CommitStarted(states[j].txs.actors[x]))
  {
    RunKeeps(cfg, states, events, i);
    RunKeeps(cfg, states, events, j);
    KeptOverRun(cfg, states, events, i, j, x);
    assert TxOk(states[i], x) && TxOk(states[j], x);
  }

  lemma AskedIsFated(cfg: Config, states: seq<State>, events: seq<Event>, m: nat, k: nat, x: TxId)
    requires IsRun(cfg, states, events) && m < k < |states|
    requires m < |events| && AsksCommit(states[m], events[m], x)
    ensures x in states[k].txs.fate
  {
    assert StepAt(states, events, m);
    RunKeeps(cfg, states, events, m);
    assert TxOk(states[m], x);
    assert x in states[m + 1].txs.fate && x in states[m + 1].txs.born;
    KeptOverRun(cfg, states, events, m + 1, k, x);
  }

  lemma NotAskedBefore(cfg: Config, states: seq<State>, events: seq<Event>, k: nat, x: TxId)
    requires IsRun(cfg, states, events) && k < |states| && x !in states[k].txs.fate
    ensures forall m: nat | m < k :: !AsksCommit(states[m], events[m], x)
  {
    forall m: nat | m < k && AsksCommit(states[m], events[m], x) ensures false {
      AskedIsFated(cfg, states, events, m, k, x);
    }
  }

  /** A transaction that commits was asked to, by exactly one event of the run. */
  lemma {:induction false} CommittedOnce(cfg: Config, states: seq<State>, events: seq<Event>, j: nat, x: TxId) returns (k: nat)
    requires IsRun(cfg, states, events) && j < |states| && x in states[j].txs.actors
    requires x in states[j].txs.fate && states[j].txs.fate[x] == CommitAsked
    ensures k < j && AsksCommit(states[k], events[k], x)
    ensures forall m: nat | m < j && m != k :: !AsksCommit(states[m], events[m], x)
    decreases j
  {
    assert j > 0;
    var i := j - 1;
    RowOverRun(cfg, states, events, i, x);
    if x in states[i].txs.fate {
      KeptAt(cfg, states, events, i, x);
      k := CommittedOnce(cfg, states, events, i, x);
      assert !AsksCommit(states[i], events[i], x);
    } else {
      assert StepAt(states, events, i);
      CommitIsAsked(states[i], events[i], x);
      k := i;
      NotAskedBefore(cfg, states, events, k, x);
    }
  }

  /** A commit that reached PostgreSQL was admitted exactly once in the run. */
  lemma CommitsAreAdmittedOnce(cfg: Config, states: seq<State>, events: seq<Event>, j: nat, x: TxId) returns (k: nat)
    requires IsRun(cfg, states, events) && j < |states|
    requires x in states[j].txs.actors && CommitStarted(states[j].txs.actors[x])
    ensures k < j && AsksCommit(states[k], events[k], x)
    ensures forall m: nat | m < j && m != k :: !AsksCommit(states[m], events[m], x)
  {
    RunKeeps(cfg, states, events, j);
    assert TxOk(states[j], x);
    k := CommittedOnce(cfg, states, events, j, x);
  }

  // ---- Single flight ----

  /** The job with queue id `n` is written to the worker. */
  predicate SendsJob(s: State, e: Event, n: MessageId)
  {
    && e.JobCmd? && e.jobId == Numeric(n) && e.sent
    && s.process.status == Running && s.process.writer && !JobAlreadyInFlight(s.jobs, e.jobId)
  }

  /** The worker answers the job, or its process is stopped or found dead. */
  predicate EndsJob(s: State, e: Event, n: MessageId)
  {
    || (e.Inbound? && e.msg == JobResult(Numeric(n)))
    || (e.Resume? && s.pc.Closing? && (s.pc.after.StopNow? || s.pc.after.Recover?))
  }

  lemma LeaseStays(s: State, e: Event, n: MessageId)
    requires Enabled(s, e) && n in s.jobs.leases && !EndsJob(s, e, n)
    ensures n in Apply(s, e).jobs.leases
  {
  }

  /** Two sends of the same queue message to one worker are separated by its answer, by a stop
      or by a crash. */
  lemma {:induction false} SingleFlight(cfg: Config, states: seq<State>, events: seq<Event>, a: nat, b: nat, n: MessageId) returns (c: nat)
    requires IsRun(cfg, states, events) && a < b < |events|
    requires SendsJob(states[a], events[a], n) && SendsJob(states[b], events[b], n)
    ensures a < c < b && EndsJob(states[c], events[c], n)
  {
    assert StepAt(states, events, a);
    c := a + 1;
    while c < b && !EndsJob(states[c], events[c], n)
      invariant a < c <= b
      invariant n in states[c].jobs.leases
    {
      assert StepAt(states, events, c);
      LeaseStays(states[c], events[c], n);
      c := c + 1;
    }
  }
}
