/** The tables of the supervisor over whole runs: everything in them is there because of something that
    happened, and everything that happened is in them until something ends it. */
module SupervisorLedger {
  import opened Common
  import opened TxActor
  import opened Supervisor
  import opened SupervisorInvariants
  import opened SupervisorRuns
  import opened SupervisorHistory
  import opened SupervisorTxHistory

  lemma StepOf(cfg: Config, states: seq<State>, events: seq<Event>, i: nat)
    requires IsRun(cfg, states, events) && i < |events|
    ensures Inv(states[i]) && Enabled(states[i], events[i]) && states[i + 1] == Apply(states[i], events[i])
  {
    RunKeeps(cfg, states, events, i);
    assert StepAt(states, events, i);
  }

  /** The worker runs exactly since it was last started. */
  lemma RunningIff(cfg: Config, states: seq<State>, events: seq<Event>, k: nat)
    requires IsRun(cfg, states, events) && k < |states|
    ensures Up(states[k]) <==>
            HeldSince((i: nat) => i < |events| && i < |states| && ComesUp(states[i], events[i]),
                      (i: nat) => i < |events| && i < |states| && GoesDown(states[i], events[i]), k)
  {
    var held := (i: nat) => i < |states| && Up(states[i]);
    var opens := (i: nat) => i < |events| && i < |states| && ComesUp(states[i], events[i]);
    var closes := (i: nat) => i < |events| && i < |states| && GoesDown(states[i], events[i]);
    forall i: nat | i < k ensures LedgerStep(held, opens, closes, i) {
      StepOf(cfg, states, events, i);
      RunningStep(states[i], events[i]);
    }
    LedgerIff(held, opens, closes, k);
  }

  /** It is given up exactly since something gave it up, until it is stopped. */
  lemma CrashedIff(cfg: Config, states: seq<State>, events: seq<Event>, k: nat)
    requires IsRun(cfg, states, events) && k < |states|
    ensures states[k].process.status == Crashed <==>
            HeldSince((i: nat) => i < |events| && i < |states| && GivesUp(states[i], events[i]),
                      (i: nat) => i < |events| && i < |states| && Revives(states[i], events[i]), k)
  {
    var held := (i: nat) => i < |states| && states[i].process.status == Crashed;
    var opens := (i: nat) => i < |events| && i < |states| && GivesUp(states[i], events[i]);
    var closes := (i: nat) => i < |events| && i < |states| && Revives(states[i], events[i]);
    forall i: nat | i < k ensures LedgerStep(held, opens, closes, i) {
      StepOf(cfg, states, events, i);
      CrashedStep(states[i], events[i]);
    }
    LedgerIff(held, opens, closes, k);
  }

  /** An invocation is live exactly from the call or job that was sent under it to its answer, the
      timeout of its call, or the end of the worker. */
  lemma ActiveIff(cfg: Config, states: seq<State>, events: seq<Event>, k: nat, inv: InvocationId)
    requires IsRun(cfg, states, events) && k < |states|
    ensures inv in states[k].active <==>
            HeldSince((i: nat) => i < |events| && i < |states| && Invokes(states[i], events[i], inv),
                      (i: nat) => i < |events| && i < |states| && Retires(states[i], events[i], inv), k)
  {
    var held := (i: nat) => i < |states| && inv in states[i].active;
    var opens := (i: nat) => i < |events| && i < |states| && Invokes(states[i], events[i], inv);
    var closes := (i: nat) => i < |events| && i < |states| && Retires(states[i], events[i], inv);
    forall i: nat | i < k ensures LedgerStep(held, opens, closes, i) {
      StepOf(cfg, states, events, i);
      ActiveStep(states[i], events[i], inv);
    }
    LedgerIff(held, opens, closes, k);
  }

  lemma WaitingAt(cfg: Config, states: seq<State>, events: seq<Event>, i: nat, id: RequestId, inv: InvocationId)
    requires IsRun(cfg, states, events) && i < |events|
    ensures Waits(states[i + 1], id, inv) <==>
            SendsCall(states[i], events[i], id, inv) || (Waits(states[i], id, inv) && !StopsWaiting(states[i], events[i], id))
  {
    StepOf(cfg, states, events, i);
    WaitingStep(states[i], events[i], id, inv);
  }

  /** A call waits for its answer exactly since it was sent, until the answer, its timeout, a call under the
      same id or the end of the worker. */
  lemma WaitsIff(cfg: Config, states: seq<State>, events: seq<Event>, k: nat, id: RequestId, inv: InvocationId)
    requires IsRun(cfg, states, events) && k < |states|
    ensures Waits(states[k], id, inv) <==>
            HeldSince((i: nat) => i < |events| && i < |states| && SendsCall(states[i], events[i], id, inv),
                      (i: nat) => i < |events| && i < |states| && StopsWaiting(states[i], events[i], id), k)
  {
    var held := (i: nat) => i < |states| && Waits(states[i], id, inv);
    var opens := (i: nat) => i < |events| && i < |states| && SendsCall(states[i], events[i], id, inv);
    var closes := (i: nat) => i < |events| && i < |states| && StopsWaiting(states[i], events[i], id);
    forall i: nat | i < k ensures LedgerStep(held, opens, closes, i) {
      WaitingAt(cfg, states, events, i, id, inv);
    }
    LedgerIff(held, opens, closes, k);
  }

  /** A queue message is in flight under an invocation exactly since it was written, until it is answered or
      its worker is stopped or found dead. */
  lemma InFlightIff(cfg: Config, states: seq<State>, events: seq<Event>, k: nat, n: MessageId, inv: InvocationId)
    requires IsRun(cfg, states, events) && k < |states|
    ensures InFlight(states[k], n, inv) <==>
            HeldSince((i: nat) => i < |events| && i < |states| && SendsMessage(states[i], events[i], n, inv),
                      (i: nat) => i < |events| && i < |states| && EndsMessage(states[i], events[i], n), k)
  {
    var held := (i: nat) => i < |states| && InFlight(states[i], n, inv);
    var opens := (i: nat) => i < |events| && i < |states| && SendsMessage(states[i], events[i], n, inv);
    var closes := (i: nat) => i < |events| && i < |states| && EndsMessage(states[i], events[i], n);
    forall i: nat | i < k ensures LedgerStep(held, opens, closes, i) {
      StepOf(cfg, states, events, i);
      InFlightStep(states[i], events[i], n, inv);
    }
    LedgerIff(held, opens, closes, k);
  }

  /** An agent run is streamed exactly since it was sent. */
  lemma AgentIff(cfg: Config, states: seq<State>, events: seq<Event>, k: nat, a: InvokeId)
    requires IsRun(cfg, states, events) && k < |states|
    ensures a in states[k].agents.streams <==>
            HeldSince((i: nat) => i < |events| && i < |states| && StartsAgent(states[i], events[i], a),
                      (i: nat) => i < |events| && i < |states| && EndsAgent(states[i], events[i], a), k)
  {
    var held := (i: nat) => i < |states| && a in states[i].agents.streams;
    var opens := (i: nat) => i < |events| && i < |states| && StartsAgent(states[i], events[i], a);
    var closes := (i: nat) => i < |events| && i < |states| && EndsAgent(states[i], events[i], a);
    forall i: nat | i < k ensures LedgerStep(held, opens, closes, i) {
      StepOf(cfg, states, events, i);
      AgentStep(states[i], events[i], a);
    }
    LedgerIff(held, opens, closes, k);
  }

  /** A data task runs exactly since it was admitted, until it ends. */
  lemma TaskIff(cfg: Config, states: seq<State>, events: seq<Event>, k: nat, t: TaskId)
    requires IsRun(cfg, states, events) && k < |states|
    ensures t in states[k].tasks <==>
            HeldSince((i: nat) => i < |events| && i < |states| && StartsTask(states[i], events[i], t),
                      (i: nat) => i < |events| && i < |states| && (events[i] == TaskEnds(t) && !StartsTask(states[i], events[i], t)), k)
  {
    var held := (i: nat) => i < |states| && t in states[i].tasks;
    var opens := (i: nat) => i < |events| && i < |states| && StartsTask(states[i], events[i], t);
    var closes := (i: nat) => i < |events| && i < |states| && (events[i] == TaskEnds(t) && !StartsTask(states[i], events[i], t));
    forall i: nat | i < k ensures LedgerStep(held, opens, closes, i) {
      StepOf(cfg, states, events, i);
      TaskStep(states[i], events[i], t);
    }
    LedgerIff(held, opens, closes, k);
  }

  /** A transaction is open exactly since its begin was admitted as one of at most four, until it is handed
      over to be committed or rolled back, or dropped. */
  lemma OpenIff(cfg: Config, states: seq<State>, events: seq<Event>, k: nat, x: TxId)
    requires IsRun(cfg, states, events) && k < |states|
    ensures x in states[k].txs.open <==>
            HeldSince((i: nat) => i < |events| && i < |states| && BeginsTx(states[i], events[i], x, Opened),
                      (i: nat) => i < |events| && i < |states| && (CommitsTx(states[i], events[i], x) || RollsBackTx(states[i], events[i], x) || DropsTx(states[i], events[i], x)), k)
  {
    var held := (i: nat) => i < |states| && x in states[i].txs.open;
    var opens := (i: nat) => i < |events| && i < |states| && BeginsTx(states[i], events[i], x, Opened);
    var closes := (i: nat) => i < |events| && i < |states| && (CommitsTx(states[i], events[i], x) || RollsBackTx(states[i], events[i], x) || DropsTx(states[i], events[i], x));
    forall i: nat | i < k ensures LedgerStep(held, opens, closes, i) {
      StepOf(cfg, states, events, i);
      assert TxOk(states[i], x);
      TxStep(states[i], events[i], x);
    }
    LedgerIff(held, opens, closes, k);
  }

  /** Has this happened before moment `k`? */
  ghost predicate Happened(p: nat -> bool, k: nat)
  {
    exists i: nat :: i < k && p(i)
  }

  lemma {:induction false} OnceIff(held: nat -> bool, p: nat -> bool, k: nat)
    requires !held(0) && forall i: nat | i < k :: OnceStep(held, p, i)
    ensures held(k) <==> Happened(p, k)
    decreases k
  {
    if k > 0 {
      OnceIff(held, p, k - 1);
      assert OnceStep(held, p, k - 1);
    }
  }

  ghost predicate OnceStep(held: nat -> bool, p: nat -> bool, i: nat)
  {
    held(i + 1) <==> held(i) || p(i)
  }

  /** A call is resolved exactly when the wait behind its answer has ended, or, in an approved worker, when
      the worker was lost while the call waited. */
  lemma ResolvedIff(cfg: Config, states: seq<State>, events: seq<Event>, k: nat, inv: InvocationId)
    requires IsRun(cfg, states, events) && k < |states|
    ensures inv in states[k].resolved <==>
            Happened((i: nat) => i < |events| && i < |states| && Resolves(states[i], events[i], inv), k)
  {
    var held := (i: nat) => i < |states| && inv in states[i].resolved;
    var p := (i: nat) => i < |events| && i < |states| && Resolves(states[i], events[i], inv);
    forall i: nat | i < k ensures OnceStep(held, p, i) {
      StepOf(cfg, states, events, i);
      ResolvedStep(states[i], events[i], inv);
    }
    OnceIff(held, p, k);
  }

  /** An answer is waited out and then resolved: at the first end of a wait after it. */
  lemma {:induction false} AnswerIsResolved(cfg: Config, states: seq<State>, events: seq<Event>, k: nat, m: nat, inv: InvocationId)
    requires IsRun(cfg, states, events) && k < m < |events| && BeginsWait(states[k], events[k], Resolve(inv))
    requires events[m].Resume? && forall i | k < i < m :: !events[i].Resume?
    ensures inv in states[m + 1].resolved
  {
    StillWaiting(cfg, states, events, k, m, Resolve(inv));
    StepOf(cfg, states, events, m);
    ResolvedStep(states[m], events[m], inv);
  }

  lemma {:induction false} StillWaiting(cfg: Config, states: seq<State>, events: seq<Event>, k: nat, m: nat, after: After)
    requires IsRun(cfg, states, events) && k < m < |states| && k < |events| && BeginsWait(states[k], events[k], after)
    requires forall i | k < i < m && i < |events| :: !events[i].Resume?
    ensures WaitsFor(states[m], after)
    decreases m
  {
    StepOf(cfg, states, events, m - 1);
    WaitStep(states[m - 1], events[m - 1], after);
    if k < m - 1 { StillWaiting(cfg, states, events, k, m - 1, after); }
  }

  // ---- The fate of a transaction ----

  predicate HasFate(s: State, x: TxId, f: Fate)
  {
    x in s.txs.fate && s.txs.fate[x] == f
  }

  /** A session that leaves the table gets its fate then; no other transaction gets one but a begin that
      timed out. */
  lemma FateStep(s: State, e: Event, u: State, x: TxId)
    requires TxOk(s, x) && TxLaw(s, e, u, x) && RowOk(u.txs, x) && (x in s.txs.born && x in s.txs.actors ==> Kept(s.txs, u.txs, x))
    ensures HasFate(u, x, CommitAsked) <==> HasFate(s, x, CommitAsked) || CommitsTx(s, e, x)
    ensures HasFate(u, x, RollbackAsked) <==> HasFate(s, x, RollbackAsked) || RollsBackTx(s, e, x)
  {
  }

  lemma FateAt(cfg: Config, states: seq<State>, events: seq<Event>, i: nat, x: TxId)
    requires IsRun(cfg, states, events) && i < |events|
    ensures HasFate(states[i + 1], x, CommitAsked) <==> HasFate(states[i], x, CommitAsked) || CommitsTx(states[i], events[i], x)
    ensures HasFate(states[i + 1], x, RollbackAsked) <==> HasFate(states[i], x, RollbackAsked) || RollsBackTx(states[i], events[i], x)
  {
    StepOf(cfg, states, events, i);
    assert TxOk(states[i], x);
    RowOverRun(cfg, states, events, i + 1, x);
    if x in states[i].txs.born { KeptAt(cfg, states, events, i, x); }
    TxStep(states[i], events[i], x);
    FateStep(states[i], events[i], states[i + 1], x);
  }

  /** A transaction's fate is a commit exactly when an admitted commit reached it, and a rollback exactly
      when an admitted rollback, a message that was not admitted or a statement it could not take did. */
  lemma FateIff(cfg: Config, states: seq<State>, events: seq<Event>, k: nat, x: TxId)
    requires IsRun(cfg, states, events) && k < |states|
    ensures HasFate(states[k], x, CommitAsked) <==>
            Happened((i: nat) => i < |events| && i < |states| && CommitsTx(states[i], events[i], x), k)
    ensures HasFate(states[k], x, RollbackAsked) <==>
            Happened((i: nat) => i < |events| && i < |states| && RollsBackTx(states[i], events[i], x), k)
  {
    var committed := (i: nat) => i < |states| && HasFate(states[i], x, CommitAsked);
    var rolledBack := (i: nat) => i < |states| && HasFate(states[i], x, RollbackAsked);
    var commits := (i: nat) => i < |events| && i < |states| && CommitsTx(states[i], events[i], x);
    var rollsBack := (i: nat) => i < |events| && i < |states| && RollsBackTx(states[i], events[i], x);
    forall i: nat | i < k ensures OnceStep(committed, commits, i) && OnceStep(rolledBack, rollsBack, i) { FateAt(cfg, states, events, i, x); }
    OnceIff(committed, commits, k);
    OnceIff(rolledBack, rollsBack, k);
  }

  // ---- What an actor is told, over the run ----

  ghost function TouchesOf(states: seq<State>, events: seq<Event>, x: TxId, k: nat): seq<Touch>
    requires k <= |events| < |states|
  {
    if k == 0 then []
    else
      TouchesOf(states, events, x, k - 1) +
      if x in states[k - 1].txs.actors then TouchesBy(states[k - 1], events[k - 1], x) else []
  }

  lemma {:induction false} HistoryJoins(a: Actor, ts: seq<Touch>, b: Actor, us: seq<Touch>, c: Actor)
    requires IsHistory(a, ts, b) && IsHistory(b, us, c)
    ensures IsHistory(a, ts + us, c)
    decreases |ts|
  {
    if ts == [] {
      assert ts + us == us;
    } else {
      HistoryJoins(Touched(a, ts[0]), ts[1..], b, us, c);
      assert (ts + us)[1..] == ts[1..] + us;
    }
  }

  lemma ActorAt(cfg: Config, states: seq<State>, events: seq<Event>, x: TxId, i: nat)
    requires IsRun(cfg, states, events) && i < |events|
    ensures ActorLaw(states[i], events[i], states[i + 1], x)
  {
    StepOf(cfg, states, events, i);
    assert TxOk(states[i], x);
    TxStep(states[i], events[i], x);
  }

  lemma {:induction false} NeverTold(cfg: Config, states: seq<State>, events: seq<Event>, x: TxId, k: nat)
    requires IsRun(cfg, states, events) && k < |states| && x !in states[k].txs.actors
    ensures TouchesOf(states, events, x, k) == []
    decreases k
  {
    if k > 0 {
      ActorAt(cfg, states, events, x, k - 1);
      NeverTold(cfg, states, events, x, k - 1);
    }
  }

  /** An actor is what the supervisor and PostgreSQL made of a fresh one. */
  lemma {:induction false} ActorIsItsHistory(cfg: Config, states: seq<State>, events: seq<Event>, x: TxId, k: nat)
    requires IsRun(cfg, states, events) && k < |states| && x in states[k].txs.actors
    ensures IsHistory(Fresh, TouchesOf(states, events, x, k), states[k].txs.actors[x])
    decreases k
  {
    assert k > 0;
    ActorAt(cfg, states, events, x, k - 1);
    if x in states[k - 1].txs.actors {
      ActorIsItsHistory(cfg, states, events, x, k - 1);
      HistoryJoins(Fresh, TouchesOf(states, events, x, k - 1), states[k - 1].txs.actors[x],
                   TouchesBy(states[k - 1], events[k - 1], x), states[k].txs.actors[x]);
    } else {
      NeverTold(cfg, states, events, x, k - 1);
    }
  }

  /** In every run a transaction is committed exactly when the commit it was told to make was taken before
      anything cancelled, failed or poisoned it and PostgreSQL reported it; and it is told its statements
      and its end in the order in which they were queued. */
  lemma CommittedIff(cfg: Config, states: seq<State>, events: seq<Event>, x: TxId, k: nat)
    requires IsRun(cfg, states, events) && k < |states| && x in states[k].txs.actors
    ensures var ts, a := TouchesOf(states, events, x, k), states[k].txs.actors[x];
            && (a.stage == Settled(true) <==> CommitSent(ts) && Returned(ts, true))
            && (a.stage == Committing <==> CommitSent(ts) && !Returned(ts, true) && !Returned(ts, false))
            && (a.stage == Serving <==> !Ended(ts))
            && QueuedIn(ts) == TakenIn(ts) + a.queue
  {
    var ts, a := TouchesOf(states, events, x, k), states[k].txs.actors[x];
    ActorIsItsHistory(cfg, states, events, x, k);
    OutcomeIff(ts, a);
    CommandsAreTakenInOrder(Fresh, ts, a);
    assert Fresh.queue + QueuedIn(ts) == QueuedIn(ts);
  }

  // ---- A commit that was asked for can take place ----

  predicate Willing(a: Actor)
  {
    a.stage == Serving && a.phase == Active && !a.failed && forall c | c in a.queue :: c == Exec
  }

  lemma Moves(cfg: Config, states: seq<State>, events: seq<Event>, e: Event) returns (states': seq<State>, events': seq<Event>)
    requires IsRun(cfg, states, events) && Enabled(states[|events|], e)
    ensures IsRun(cfg, states', events') && states <= states' && |events'| == |events| + 1 && states'[|events'|] == Apply(states[|events|], e)
  {
    states', events' := states + [Apply(states[|events|], e)], events + [e];
    RunGrows(cfg, states, events, e);
  }

  /** From any state in which a commit is on its way to an actor that has nothing against it, the run can go
      on to the commit, with nobody's help but the actor's and the carrying task's. */
  lemma {:induction false} CommitCanTakePlace(cfg: Config, states: seq<State>, events: seq<Event>, x: TxId)
    returns (states': seq<State>, events': seq<Event>)
    requires IsRun(cfg, states, events)
    requires var t := states[|events|].txs; x in t.finishing && t.finishing[x] && x in t.actors && x !in t.open && Willing(t.actors[x])
    ensures IsRun(cfg, states', events') && states <= states'
    ensures x in states'[|events'|].txs.actors && states'[|events'|].txs.actors[x].stage == Settled(true)
    ensures states'[|events'|].txs.actors[x].phase == Finalizing
    ensures SameWork(states[|events|], states'[|events'|]) && states'[|events'|].txs.tracked == states[|events|].txs.tracked
    decreases |states[|events|].txs.actors[x].queue|
  {
    var a := states[|events|].txs.actors[x];
    if a.queue == [] {
      states', events' := Moves(cfg, states, events, Deliver(x));
      assert states'[|events'|].txs.actors[x] == a.(queue := [Commit]);
      states', events' := Moves(cfg, states', events', ActorMove(x, TakeCommit));
      assert states'[|events'|].txs.actors[x].stage == Committing;
      states', events' := Moves(cfg, states', events', ActorMove(x, CommitReturns(true)));
    } else {
      assert a.queue[0] in a.queue && forall c | c in a.queue[1..] :: c in a.queue;
      states', events' := Moves(cfg, states, events, ActorMove(x, TakeExec(true)));
      assert states'[|events'|].txs.actors[x] == a.(queue := a.queue[1..]);
      states', events' := CommitCanTakePlace(cfg, states', events', x);
    }
  }

  // ---- A whole life ----

  /** A worker that runs and speaks protocol 4 and has one call, under which one transaction is open. */
  ghost predicate InTransaction(s: State, cfg: Config)
  {
    && s.cfg == cfg && s.pc.Ready? && s.process == Process(Running, true, true, true, 4)
    && s.active == {0} && s.rpcs == map[0 := 0] && s.tasks == map[]
    && s.txs.open == {0} && s.txs.owner == map[0 := 0] && s.txs.tracked.Keys <= {0}
    && 0 in s.txs.actors && Willing(s.txs.actors[0]) && s.txs.actors[0].queue == []
  }

  lemma TransactionBegins(cfg: Config) returns (states: seq<State>, events: seq<Event>)
    requires !cfg.kind.Public?
    ensures IsRun(cfg, states, events) && InTransaction(states[|events|], cfg)
  {
    states, events := Moves(cfg, [Init(cfg)], [], StartCmd(true));
    states, events := Moves(cfg, states, events, Inbound(Discover(4), false));
    assert states[|events|] == Init(cfg).(process := Process(Running, true, true, true, 4));
    states, events := Moves(cfg, states, events, RpcCmd(0, 0, true));
    var called := states[|events|];
    assert called.active == {0} && called.rpcs == map[0 := 0];
    states, events := Moves(cfg, states, events, Inbound(SqlBegin(Some(0), 0, Opened), false));
  }

  lemma TransactionIsAskedToCommit(cfg: Config, states: seq<State>, events: seq<Event>) returns (states': seq<State>, events': seq<Event>)
    requires IsRun(cfg, states, events) && InTransaction(states[|events|], cfg) && !cfg.kind.Public?
    ensures IsRun(cfg, states', events') && states <= states'
    ensures var s, u := states[|events|], states'[|events'|];
            && SameWork(s, u) && u.txs.tracked == s.txs.tracked && 0 !in u.txs.open && 0 in u.txs.finishing && u.txs.finishing[0]
            && 0 in u.txs.actors && Willing(u.txs.actors[0])
  {
    var a := states[|events|].txs.actors[0];
    states', events' := Moves(cfg, states, events, Inbound(SqlExec(Some(0), 0, true, true), false));
    var told := states'[|events'|];
    assert told == states[|events|].(txs := Push(states[|events|].txs, 0, Exec)) && told.txs.actors[0] == a.(queue := [Exec]);
    states', events' := Moves(cfg, states', events', Inbound(SqlCommit(Some(0), 0), false));
    assert states'[|events'|] == told.(txs := Ask(told.txs, 0, true));
  }

  lemma CallIsAnswered(cfg: Config, states: seq<State>, events: seq<Event>) returns (states': seq<State>, events': seq<Event>)
    requires IsRun(cfg, states, events) && !cfg.kind.Public?
    requires var s := states[|events|];
             && s.cfg == cfg && s.pc.Ready? && s.process == Process(Running, true, true, true, 4)
             && s.active == {0} && s.rpcs == map[0 := 0] && s.tasks == map[] && s.txs.tracked.Keys <= {0}
             && 0 in s.txs.actors && s.txs.actors[0].stage == Settled(true) && s.txs.actors[0].phase == Finalizing
    ensures IsRun(cfg, states', events') && states <= states'
    ensures var u := states'[|events'|]; 0 in u.resolved && 0 in u.txs.actors && u.txs.actors[0].stage == Settled(true)
  {
    states', events' := Moves(cfg, states, events, ActorMove(0, Finish));
    assert states'[|events'|].txs.actors[0].phase == Finished;
    states', events' := Moves(cfg, states', events', Inbound(RpcResponse(0), false));
    var waiting := states'[|events'|];
    assert waiting.pc.Closing? && waiting.pc.after == Resolve(0) && waiting.pc.awaited <= {0};
    assert IsFinished(waiting.txs, 0);
    states', events' := Moves(cfg, states', events', Resume);
  }

  /** While the loop is ready it takes any command, under a fresh invocation id.  While a process is
      attached it takes any message, a new transaction or data task under a fresh id and a statement
      queued if there is room, and the end of its output.  A data task ends and a call times out whenever
      they like, and the loop is ready again once no data task runs and every actor it waits for has
      finished. */
  predicate MayCome(s: State, e: Event)
  {
    match e
    case StartCmd(_) => s.pc.Ready?
    case StopCmd => s.pc.Ready?
    case RpcCmd(_, inv, _) => s.pc.Ready? && inv !in s.minted
    case JobCmd(_, inv, _) => s.pc.Ready? && inv !in s.minted && s.cfg.kind.Ordinary?
    case AgentCmd(_, _) => s.pc.Ready? && s.cfg.kind.Ordinary?
    case Inbound(msg, _) =>
      && s.pc.Ready? && s.process.reader
      && (msg.SqlExec? ==> msg.queued == (msg.tx in s.txs.actors && s.txs.actors[msg.tx].phase != Finished && |s.txs.actors[msg.tx].queue| < 8))
      && (msg.DataOp? ==> msg.task !in s.tasks)
      && (msg.SqlBegin? ==> msg.tx !in s.txs.actors && (msg.outcome.TimedOut? ==> s.cfg.kind.Approved?))
    case Eof(_) => s.pc.Ready? && s.process.reader
    case Expiry(_, _) => s.pc.Ready?
    case TaskEnds(t) => t in s.tasks
    case Resume =>
      s.pc.Closing? && s.tasks == map[] && forall x | x in s.pc.awaited :: x in s.txs.actors && s.txs.actors[x].phase == Finished
    case _ => false
  }

  /** Every run goes on with any of these. */
  lemma RunGoesOn(cfg: Config, states: seq<State>, events: seq<Event>, e: Event) returns (states': seq<State>)
    requires IsRun(cfg, states, events) && MayCome(states[|events|], e)
    ensures IsRun(cfg, states', events + [e]) && states' == states + [states'[|events| + 1]]
  {
    var s := states[|events|];
    assert e.Resume? ==> forall x | x in s.pc.awaited :: IsFinished(s.txs, x);
    RunGrows(cfg, states, events, e);
    states' := states + [Apply(s, e)];
  }

  /** In an ordinary and in an approved worker alike a call can open a transaction, execute in it, commit it
      and be answered: the machine is not safe by doing nothing. */
  lemma TransactionCanGoThrough(cfg: Config) returns (states: seq<State>, events: seq<Event>)
    requires !cfg.kind.Public?
    ensures IsRun(cfg, states, events)
    ensures var s := states[|events|]; 0 in s.resolved && 0 in s.txs.actors && s.txs.actors[0].stage == Settled(true)
  {
    states, events := TransactionBegins(cfg);
    states, events := TransactionIsAskedToCommit(cfg, states, events);
    states, events := CommitCanTakePlace(cfg, states, events, 0);
    states, events := CallIsAnswered(cfg, states, events);
  }
}
