/** The supervisor loop as it is written: one object, its tables updated in place, one method
    per arm.  Every arm keeps the invariant and takes a step of the state machine in `Supervisor`;
    `Serve` and `Replay` show that what the loop can reach is what the machine's runs reach. */
module SupervisorLoop {
  import opened Common
  import opened TxActor
  import opened Supervisor
  import opened SupervisorInvariants
  import opened SupervisorRuns

  lemma AbandonNone(t: Txs)
    ensures Abandon(t, {}) == t
  {
    var u := Abandon(t, {});
    assert u.actors == t.actors && u.fate == t.fate && u.owner == t.owner && u.open == t.open;
  }

  lemma CancelActorsMore(actors: map<TxId, Actor>, p: set<TxId>, q: set<TxId>)
    ensures CancelActors(CancelActors(actors, p), q) == CancelActors(actors, p + q)
  {
  }

  function AllAbandoned(ids: set<TxId>): map<TxId, Fate>
  {
    map x | x in ids :: Abandoned
  }

  lemma AbandonedMore(fate: map<TxId, Fate>, p: set<TxId>, q: set<TxId>)
    ensures fate + AllAbandoned(p) + AllAbandoned(q) == fate + AllAbandoned(p + q)
  {
  }

  lemma AbandonMore(t: Txs, ids: set<TxId>, x: TxId)
    ensures Abandon(Abandon(t, ids), {x}) == Abandon(t, ids + {x})
  {
    var p, q := t.open * ids, (t.open - ids) * {x};
    assert t.open * (ids + {x}) == p + q;
    assert t.open - ids - {x} == t.open - (ids + {x});
    assert t.owner - ids - {x} == t.owner - (ids + {x});
    CancelActorsMore(t.actors, p, q);
    AbandonedMore(t.fate, p, q);
    assert Abandon(t, ids).fate == t.fate + AllAbandoned(p);
    assert Abandon(Abandon(t, ids), {x}).fate == t.fate + AllAbandoned(p) + AllAbandoned(q);
    assert Abandon(t, ids + {x}).fate == t.fate + AllAbandoned(p + q);
  }

  lemma UntrackMore(t: Txs, ids: set<TxId>, x: TxId)
    ensures Untrack(Untrack(t, ids), {x}) == Untrack(t, ids + {x})
  {
    CancelActorsMore(t.actors, ids, {x});
    assert t.tracked - ids - {x} == t.tracked - (ids + {x});
  }

  lemma UntrackNone(t: Txs)
    ensures Untrack(t, {}) == t
  {
    assert t.tracked - {} == t.tracked;
    assert CancelActors(t.actors, {}) == t.actors;
  }

  class Loop {
    const cfg: Config
    var process: Process
    var activeInvocations: set<InvocationId>
    var rpcInvocations: map<RequestId, InvocationId>
    var jobs: Jobs
    var agents: Agents
    var txs: Txs
    var tasks: map<TaskId, Option<InvocationId>>
    var pc: Pc
    var minted: set<InvocationId>
    var resolved: set<InvocationId>

    function View(): State
      reads this
    {
      State(cfg, process, activeInvocations, rpcInvocations, jobs, agents, txs, tasks, pc, minted, resolved)
    }

    constructor (cfg: Config)
      ensures Inv(View()) && View() == Init(cfg)
    {
      this.cfg := cfg;
      process, jobs, agents := Down, NoJobs, NoAgents;
      activeInvocations, rpcInvocations := {}, map[];
      txs := Txs({}, map[], map[], map[], map[], map[], map[]);
      tasks, pc, minted, resolved := map[], Ready, {}, {};
      new;
      InitKeeps(cfg);
    }

    // ---- Helpers shared by the arms ----

    /** Dropping one session handle. */
    method DropSession(x: TxId)
      modifies this`txs
      ensures txs == Abandon(old(txs), {x})
    {
      var gone := txs.open * {x};
      txs := txs.(open := txs.open - {x}, owner := txs.owner - {x},
                  actors := CancelActors(txs.actors, gone), fate := txs.fate + map y | y in gone :: Abandoned);
    }

    method DropSessions(ids: set<TxId>)
      modifies this`txs
      ensures txs == Abandon(old(txs), ids)
    {
      var todo := ids;
      AbandonNone(txs);
      while todo != {}
        invariant todo <= ids
        invariant txs == Abandon(old(txs), ids - todo)
      {
        var x :| x in todo;
        AbandonMore(old(txs), ids - todo, x);
        assert ids - (todo - {x}) == (ids - todo) + {x};
        DropSession(x);
        todo := todo - {x};
      }
      assert ids - todo == ids;
    }

    method CloseWorkflowInvocation(inv: InvocationId)
      modifies this`activeInvocations, this`txs
      ensures View() == CloseInvocation(old(View()), inv)
    {
      activeInvocations := activeInvocations - {inv};
      DropSessions(OwnedBy(txs.owner, inv));
    }

    /** Take the approved actors of one invocation, or all of them, out of the table, cancel
        each of them, and only then wait. */
    method CloseApproved(invocation: Option<InvocationId>, after: After)
      modifies this`txs, this`pc
      ensures View() == StartClosing(old(View()),
                          if invocation.Some? then OwnedBy(old(txs).tracked, invocation.value) else old(txs).tracked.Keys, after)
    {
      var ids := if invocation.Some? then OwnedBy(txs.tracked, invocation.value) else txs.tracked.Keys;
      CancelEach(ids);
      pc := Closing(ids, after);
    }

    method CancelEach(ids: set<TxId>)
      modifies this`txs
      ensures txs == Untrack(old(txs), ids)
    {
      var todo := ids;
      UntrackNone(txs);
      while todo != {}
        invariant todo <= ids
        invariant txs == Untrack(old(txs), ids - todo)
      {
        var x :| x in todo;
        UntrackMore(old(txs), ids - todo, x);
        assert ids - (todo - {x}) == (ids - todo) + {x};
        txs := txs.(tracked := txs.tracked - {x}, actors := CancelActors(txs.actors, {x}));
        todo := todo - {x};
      }
      assert ids - todo == ids;
    }

    method ClearAll(process: Process, next: Pc)
      modifies this`activeInvocations, this`rpcInvocations, this`txs, this`process, this`pc
      ensures View() == ClearWork(old(View())).(process := process, pc := next)
    {
      activeInvocations := {};
      rpcInvocations := map[];
      DropSessions(txs.open);
      this.process, pc := process, next;
    }

    // ---- Commands ----

    method OnStart(spawned: bool)
      requires Inv(View()) && Enabled(View(), StartCmd(spawned))
      modifies this`process
      ensures Inv(View()) && View() == Apply(old(View()), StartCmd(spawned))
    {
      StepKeeps(View(), StartCmd(spawned));
      if process.status == Running || process.status == Starting || process.status == Crashed { return; }
      process := if spawned then Process(Running, true, true, true, 1) else process.(status := Crashed);
    }

    method OnStop()
      requires Inv(View()) && Enabled(View(), StopCmd)
      modifies this`txs, this`pc
      ensures Inv(View()) && View() == Apply(old(View()), StopCmd)
    {
      StepKeeps(View(), StopCmd);
      CloseApproved(None, StopNow);
    }

    /** The call is registered before it is sent, and forgotten if that fails. */
    method SendRpc(id: RequestId, inv: InvocationId, sent: bool)
      modifies this`minted, this`activeInvocations, this`rpcInvocations
      ensures View() == Rpc(old(View()), id, inv, sent)
    {
      if process.status != Running { return; }
      minted := minted + {inv};
      activeInvocations := activeInvocations + {inv};
      rpcInvocations := rpcInvocations[id := inv];
      if process.writer && !sent {
        activeInvocations := activeInvocations - {inv};
        rpcInvocations := rpcInvocations - {id};
        assert activeInvocations == old(activeInvocations) - {inv} && rpcInvocations == old(rpcInvocations) - {id};
      }
    }

    method OnRpc(id: RequestId, inv: InvocationId, sent: bool)
      requires Inv(View()) && Enabled(View(), RpcCmd(id, inv, sent))
      modifies this`minted, this`activeInvocations, this`rpcInvocations
      ensures Inv(View()) && View() == Apply(old(View()), RpcCmd(id, inv, sent))
    {
      StepKeeps(View(), RpcCmd(id, inv, sent));
      SendRpc(id, inv, sent);
    }

    /** Lease, invocation and payload are recorded together: a queue message is in flight
        afterwards exactly when it was before or was just written to a running worker. */
    method OnJob(id: JobId, inv: InvocationId, sent: bool)
      requires Inv(View()) && Enabled(View(), JobCmd(id, inv, sent))
      modifies this`minted, this`activeInvocations, this`jobs
      ensures Inv(View()) && View() == Apply(old(View()), JobCmd(id, inv, sent))
      ensures id.Numeric? ==> (id.n in jobs.leases <==> id.n in old(jobs).leases || (process.status == Running && sent))
      ensures jobs.leases == jobs.invocations.Keys == jobs.payloads
    {
      StepKeeps(View(), JobCmd(id, inv, sent));
      if process.status != Running || JobAlreadyInFlight(jobs, id) { return; }
      minted := minted + {inv};
      activeInvocations := activeInvocations + {inv};
      if process.writer {
        if !sent {
          activeInvocations := activeInvocations - {inv};
          assert activeInvocations == old(activeInvocations) - {inv};
        } else if id.Numeric? {
          jobs := jobs.(invocations := jobs.invocations[id.n := inv]);
          jobs := jobs.(leases := jobs.leases + {id.n});
          jobs := jobs.(payloads := jobs.payloads + {id.n});
        }
      }
    }

    method OnAgentInvoke(id: InvokeId, sent: bool)
      requires Inv(View()) && Enabled(View(), AgentCmd(id, sent))
      modifies this`agents
      ensures Inv(View()) && View() == Apply(old(View()), AgentCmd(id, sent))
    {
      StepKeeps(View(), AgentCmd(id, sent));
      if process.status != Running { return; }
      agents := Agents(agents.runs + {id}, agents.streams + {id});
      if process.writer && !sent {
        agents := Agents(agents.runs - {id}, agents.streams - {id});
        assert agents.runs == old(agents).runs - {id} && agents.streams == old(agents).streams - {id};
      }
    }

    /** Answered true exactly when every table is empty. */
    method IsIdle() returns (idle: bool)
      requires Inv(View()) && pc.Ready?
      ensures idle <==> && activeInvocations == {} && rpcInvocations == map[] && jobs == NoJobs && agents == NoAgents
                        && txs.open == {} && txs.owner == map[]
    {
      idle := activeInvocations == {} && txs.open == {} && jobs.leases == {} && agents.streams == {};
      if idle { IdleIsEmpty(View()); }
    }

    // ---- Messages from the worker ----

    method OnRpcResponse(id: RequestId)
      modifies this`rpcInvocations, this`activeInvocations, this`txs, this`pc
      ensures View() == Dispatch(old(View()), RpcResponse(id))
    {
      if id !in rpcInvocations { return; }
      var inv := rpcInvocations[id];
      rpcInvocations := rpcInvocations - {id};
      // Stop admitting the invocation before waiting for any database actor.
      activeInvocations := activeInvocations - {inv};
      CloseApproved(Some(inv), Resolve(inv));
    }

    method OnJobResult(id: JobId)
      modifies this`activeInvocations, this`txs, this`jobs
      ensures View() == Dispatch(old(View()), JobResult(id))
    {
      if !id.Numeric? { return; }
      if id.n in jobs.invocations {
        CloseWorkflowInvocation(jobs.invocations[id.n]);
      }
      jobs := Jobs(jobs.invocations - {id.n}, jobs.leases - {id.n}, jobs.payloads - {id.n});
    }

    method OnSqlBegin(quoted: Option<InvocationId>, x: TxId, outcome: BeginOutcome)
      modifies this`txs
      ensures View() == Begin(old(View()), quoted, x, outcome)
    {
      if |txs.open| >= MAX_OPEN_TRANSACTIONS { return; }
      if !CapabilityContext(View(), quoted) || outcome.Refused? { return; }
      txs := txs.(born := txs.born[x := Birth(quoted, EchoesInvocation(View()), outcome.TimedOut?)], actors := txs.actors[x := Fresh]);
      if outcome.TimedOut? {
        txs := txs.(fate := txs.fate[x := Abandoned]);
        return;
      }
      if cfg.kind.Approved? && quoted.Some? {
        txs := txs.(tracked := txs.tracked[x := quoted.value]);
      }
      txs := txs.(open := txs.open + {x});
      if quoted.Some? {
        txs := txs.(owner := txs.owner[x := quoted.value]);
      }
    }

    /** The session moves into a spawned task that carries the commit or rollback to its actor. */
    method SpawnFinish(x: TxId, commit: bool)
      modifies this`txs
      ensures txs == Ask(old(txs), x, commit)
    {
      txs := txs.(open := txs.open - {x}, owner := txs.owner - {x});
      txs := txs.(finishing := txs.finishing[x := commit]);
      txs := txs.(fate := txs.fate[x := if commit then CommitAsked else RollbackAsked]);
    }

    method Enqueue(x: TxId, c: Command)
      requires x in txs.actors
      modifies this`txs
      ensures txs == Push(old(txs), x, c)
    {
      var actor := txs.actors[x];
      txs := txs.(actors := txs.actors[x := actor.(queue := actor.queue + [c])]);
    }

    /** Exec, commit and rollback share one admission rule; a message that fails it costs the
        worker the transaction. */
    method OnTxMessage(quoted: Option<InvocationId>, x: TxId, msg: Message)
      requires MessageEnabled(View(), msg)
      requires msg.SqlExec? || msg.SqlCommit? || msg.SqlRollback?
      requires x == msg.tx
      modifies this`txs
      ensures View() == TxMessage(old(View()), quoted, x, msg)
    {
      if x !in txs.open { return; }
      if !TxMessageAdmitted(View(), x, quoted) {
        SpawnFinish(x, false);
        return;
      }
      match msg
      case SqlExec(_, _, withinRate, queued) =>
        if queued {
          Enqueue(x, if withinRate then Exec else Poison);
        } else {
          SpawnFinish(x, false);
        }
      case SqlCommit(_, _) => SpawnFinish(x, true);
      case SqlRollback(_, _) => SpawnFinish(x, false);
    }

    method OnDispatch(msg: Message)
      requires MessageEnabled(View(), msg)
      modifies this
      ensures View() == Dispatch(old(View()), msg)
    {
      match msg
      case Discover(p) => process := process.(protocol := p);
      case RpcResponse(id) => OnRpcResponse(id);
      case JobResult(id) => OnJobResult(id);
      case AgentEnd(id) => agents := Agents(agents.runs - {id}, agents.streams - {id});
      case DataOp(q, task) => if cfg.kind.Approved? { tasks := tasks[task := q]; }
      case SqlBegin(q, x, outcome) => OnSqlBegin(q, x, outcome);
      case SqlExec(q, x, _, _) => OnTxMessage(q, x, msg);
      case SqlCommit(q, x) => OnTxMessage(q, x, msg);
      case SqlRollback(q, x) => OnTxMessage(q, x, msg);
      case _ =>
    }

    method Deny(msg: Message)
      modifies this`txs
      ensures View() == Denied(old(View()), msg)
    {
      if cfg.kind.Approved? && (msg.SqlExec? || msg.SqlCommit? || msg.SqlRollback?) {
        if msg.tx in txs.tracked {
          txs := txs.(actors := CancelActors(txs.actors, {msg.tx}));
        } else {
          UntrackNone(txs);
        }
        DropSession(msg.tx);
      }
    }

    method KillWorker()
      modifies this`activeInvocations, this`rpcInvocations, this`process, this`txs, this`pc
      ensures View() == Killed(old(View()))
    {
      if cfg.kind.Approved? {
        CloseApproved(None, KillApproved);
      } else {
        activeInvocations := {};
        rpcInvocations := map[];
        process := Process(Crashed, false, false, false, process.protocol);
      }
    }

    /** The gate first, then the message. */
    method OnMessage(msg: Message, backlog: bool)
      requires Inv(View()) && Enabled(View(), Inbound(msg, backlog))
      modifies this
      ensures Inv(View()) && View() == Apply(old(View()), Inbound(msg, backlog))
    {
      StepKeeps(View(), Inbound(msg, backlog));
      match Gate(View(), msg)
      case Pass => OnDispatch(msg);
      case Kill => KillWorker();
      case Deny =>
        Deny(msg);
        if backlog { KillWorker(); }
    }

    /** The worker closed its side: its approved actors are taken down before anything else. */
    method OnEof(how: Recovery)
      requires Inv(View()) && Enabled(View(), Eof(how))
      modifies this`txs, this`pc
      ensures Inv(View()) && View() == Apply(old(View()), Eof(how))
    {
      StepKeeps(View(), Eof(how));
      CloseApproved(None, Recover(how));
    }

    /** A reply an approved worker cannot take ends it. */
    method OnUndeliverable()
      requires Inv(View()) && Enabled(View(), ResponseUndeliverable)
      modifies this`txs, this`pc
      ensures Inv(View()) && View() == Apply(old(View()), ResponseUndeliverable)
    {
      StepKeeps(View(), ResponseUndeliverable);
      CloseApproved(None, KillApproved);
    }

    // ---- Ends of the arms that waited ----

    /** The call is resolved only when nothing done under its invocation can change any more. */
    method FinishResponse(inv: InvocationId)
      requires Inv(View()) && Enabled(View(), Resume) && pc.after == Resolve(inv)
      modifies this`activeInvocations, this`txs, this`resolved, this`pc
      ensures Inv(View()) && View() == Apply(old(View()), Resume)
      ensures inv in resolved && Retired(View(), inv)
    {
      StepKeeps(View(), Resume);
      CloseWorkflowInvocation(inv);
      resolved := resolved + {inv};
      pc := Ready;
      ResolvedIsRetired(View(), inv);
    }

    method FinishExpiry(id: RequestId, inv: InvocationId)
      requires Inv(View()) && Enabled(View(), Resume) && pc.after == Expire(id, inv)
      modifies this`rpcInvocations, this`activeInvocations, this`txs, this`pc
      ensures Inv(View()) && View() == Apply(old(View()), Resume)
    {
      StepKeeps(View(), Resume);
      rpcInvocations := rpcInvocations - {id};
      CloseWorkflowInvocation(inv);
      pc := Ready;
    }

    method ClearStopped()
      modifies this
      ensures View() == AfterResume(old(View()), StopNow)
    {
      jobs, agents := NoJobs, NoAgents;
      ClearAll(Process(Stopped, false, false, false, process.protocol), if cfg.kind.Approved? then Exited else Ready);
    }

    /** A stop leaves no table filled, and of an approved worker no transaction undecided. */
    method FinishStop()
      requires Inv(View()) && Enabled(View(), Resume) && pc.after == StopNow
      modifies this
      ensures Inv(View()) && View() == Apply(old(View()), Resume)
      ensures Emptied(View()) && jobs == NoJobs && agents == NoAgents && process.status == Stopped
      ensures cfg.kind.Approved? ==> AllOver(View())
    {
      StopMeans(View());
      ClearStopped();
    }

    method FinishKill()
      requires Inv(View()) && Enabled(View(), Resume) && pc.after == KillApproved
      modifies this
      ensures Inv(View()) && View() == Apply(old(View()), Resume)
      ensures Emptied(View()) && process.status == Crashed
    {
      ghost var before := View();
      resolved := resolved + rpcInvocations.Values;
      ClearAll(Process(Crashed, false, false, false, process.protocol), Ready);
      assert View() == Apply(before, Resume);
      StepKeeps(before, Resume);
      ClearedIsEmptied(before);
    }

    method ClearCrashed(how: Recovery)
      modifies this
      ensures View() == AfterResume(old(View()), Recover(how))
    {
      if cfg.kind.Approved? {
        resolved := resolved + rpcInvocations.Values;
      }
      jobs, agents := NoJobs, NoAgents;
      var up, given := how.Respawned?, if how.StoppedInBackoff? then Stopped else Crashed;
      ClearAll(Process(if up then Running else given, up, up, up, 1), if given == Stopped && cfg.kind.Approved? then Exited else Ready);
    }

    /** A crash clears everything, whatever follows the backoff. */
    method FinishCrash(how: Recovery)
      requires Inv(View()) && Enabled(View(), Resume) && pc.after == Recover(how)
      modifies this
      ensures Inv(View()) && View() == Apply(old(View()), Resume)
      ensures Emptied(View()) && jobs == NoJobs && agents == NoAgents && (process.status == Running <==> how.Respawned?)
    {
      CrashMeans(View(), how);
      ClearCrashed(how);
    }

    method OnResume()
      requires Inv(View()) && Enabled(View(), Resume)
      modifies this
      ensures Inv(View()) && View() == Apply(old(View()), Resume)
    {
      match pc.after
      case Resolve(inv) => FinishResponse(inv);
      case Expire(id, inv) => FinishExpiry(id, inv);
      case StopNow => FinishStop();
      case KillApproved => FinishKill();
      case Recover(how) => FinishCrash(how);
    }

    method OnTxDone(x: TxId)
      requires Inv(View()) && Enabled(View(), TxDone(x))
      modifies this`txs
      ensures Inv(View()) && View() == Apply(old(View()), TxDone(x))
    {
      ghost var before := View();
      txs := txs.(tracked := txs.tracked - {x});
      DropSession(x);
      assert View() == Apply(before, TxDone(x));
      StepKeeps(before, TxDone(x));
    }

    method OnExpiry(id: RequestId, inv: InvocationId)
      requires Inv(View()) && Enabled(View(), Expiry(id, inv))
      modifies this`txs, this`pc
      ensures Inv(View()) && View() == Apply(old(View()), Expiry(id, inv))
    {
      StepKeeps(View(), Expiry(id, inv));
      if id in rpcInvocations && rpcInvocations[id] == inv {
        CloseApproved(Some(inv), Expire(id, inv));
      }
    }

    // ---- What runs beside the loop ----

    method OnActorMove(x: TxId, m: Move)
      requires Inv(View()) && Enabled(View(), ActorMove(x, m))
      modifies this`txs
      ensures Inv(View()) && View() == Apply(old(View()), ActorMove(x, m))
    {
      StepKeeps(View(), ActorMove(x, m));
      txs := txs.(actors := txs.actors[x := Do(txs.actors[x], m)]);
    }

    /** A spawned task hands its command over, or finds the actor gone. */
    method OnDeliver(x: TxId)
      requires Inv(View()) && Enabled(View(), Deliver(x))
      modifies this`txs
      ensures Inv(View()) && View() == Apply(old(View()), Deliver(x))
    {
      StepKeeps(View(), Deliver(x));
      var takes, commit := CanQueue(txs, x), txs.finishing[x];
      txs := txs.(finishing := txs.finishing - {x});
      if takes { Enqueue(x, if commit then Commit else Rollback); }
    }

    method OnTaskEnds(t: TaskId)
      requires Inv(View()) && Enabled(View(), TaskEnds(t))
      modifies this`tasks
      ensures Inv(View()) && View() == Apply(old(View()), TaskEnds(t))
    {
      StepKeeps(View(), TaskEnds(t));
      tasks := tasks - {t};
    }

    /** One turn of the select loop, or of what runs beside it. */
    method OnEvent(e: Event)
      requires Inv(View()) && Enabled(View(), e)
      modifies this
      ensures Inv(View()) && View() == Apply(old(View()), e)
    {
      match e
      case StartCmd(spawned) => OnStart(spawned);
      case StopCmd => OnStop();
      case RpcCmd(id, inv, sent) => OnRpc(id, inv, sent);
      case JobCmd(id, inv, sent) => OnJob(id, inv, sent);
      case AgentCmd(id, sent) => OnAgentInvoke(id, sent);
      case Inbound(msg, backlog) => OnMessage(msg, backlog);
      case Eof(how) => OnEof(how);
      case ResponseUndeliverable => OnUndeliverable();
      case Expiry(id, inv) => OnExpiry(id, inv);
      case TxDone(x) => OnTxDone(x);
      case Resume => OnResume();
      case ActorMove(x, m) => OnActorMove(x, m);
      case Deliver(x) => OnDeliver(x);
      case TaskEnds(t) => OnTaskEnds(t);
    }
  }

  // ---- The loop and the machine reach the same states ----

  /** Whatever script of events the loop is given, taking those that are possible when their turn
      comes is a run of the machine, so every theorem over runs speaks of this loop. */
  method Serve(cfg: Config, script: seq<Event>) returns (loop: Loop, ghost states: seq<State>, ghost events: seq<Event>)
    ensures fresh(loop) && Inv(loop.View())
    ensures IsRun(cfg, states, events) && states[|events|] == loop.View()
  {
    loop := new Loop(cfg);
    states, events := [loop.View()], [];
    for i := 0 to |script|
      invariant fresh(loop) && Inv(loop.View())
      invariant IsRun(cfg, states, events) && states[|events|] == loop.View()
    {
      if Enabled(loop.View(), script[i]) {
        RunGrows(cfg, states, events, script[i]);
        loop.OnEvent(script[i]);
        states, events := states + [loop.View()], events + [script[i]];
      }
    }
  }

  lemma RunStep(cfg: Config, states: seq<State>, events: seq<Event>, i: nat)
    requires IsRun(cfg, states, events) && i < |events|
    ensures Enabled(states[i], events[i]) && states[i + 1] == Apply(states[i], events[i])
  {
    assert StepAt(states, events, i);
  }

  /** And every run of the machine is one the loop can be led through. */
  method Replay(cfg: Config, ghost states: seq<State>, events: seq<Event>) returns (loop: Loop)
    requires IsRun(cfg, states, events)
    ensures fresh(loop) && loop.View() == states[|events|]
  {
    loop := new Loop(cfg);
    for i := 0 to |events|
      invariant fresh(loop) && loop.View() == states[i]
    {
      RunKeeps(cfg, states, events, i);
      RunStep(cfg, states, events, i);
      loop.OnEvent(events[i]);
    }
  }
}
