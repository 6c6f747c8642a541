/** What every step of the supervisor keeps. */
module SupervisorInvariants {
  import opened Common
  import opened TxActor
  import opened Supervisor

  /** The process handles exist exactly while the status is Running; Starting and Stopping
      are never entered. */
  predicate ProcessOk(p: Process)
  {
    && (p.status == Running || p.status == Stopped || p.status == Crashed)
    && p.child == p.reader == p.writer == (p.status == Running)
  }

  predicate WorkOk(s: State)
  {
    && s.jobs.leases == s.jobs.invocations.Keys == s.jobs.payloads
    && s.agents.runs == s.agents.streams
    && (!s.cfg.kind.Ordinary? ==> s.jobs.leases == {} && s.agents.streams == {})
  }

  /** Is this invocation already refused, in the middle of the arm that resolves its call? */
  predicate Leaving(s: State, inv: InvocationId)
  {
    s.pc.Closing? && s.pc.after == Resolve(inv)
  }

  /** Every tracked call and every tracked job owns a distinct live invocation. */
  predicate IdsOk(s: State)
  {
    && (forall i | i in s.active :: i in s.minted && i !in s.resolved)
    && (forall i | i in s.resolved :: i in s.minted)
    && (forall r | r in s.rpcs :: s.rpcs[r] in s.active)
    && (forall n | n in s.jobs.invocations :: s.jobs.invocations[n] in s.active)
    && (forall r, r' | r in s.rpcs && r' in s.rpcs && s.rpcs[r] == s.rpcs[r'] :: r == r')
    && (forall n, n' | n in s.jobs.invocations && n' in s.jobs.invocations && s.jobs.invocations[n] == s.jobs.invocations[n'] :: n == n')
    && (forall r, n | r in s.rpcs && n in s.jobs.invocations :: s.rpcs[r] != s.jobs.invocations[n])
    && (s.pc.Closing? && s.pc.after.Resolve? ==>
          s.pc.after.invocation in s.minted && s.pc.after.invocation !in s.active && s.pc.after.invocation !in s.resolved)
    && (s.pc.Closing? && s.pc.after.Expire? ==>
          s.pc.after.request in s.rpcs && s.rpcs[s.pc.after.request] == s.pc.after.invocation)
    && (s.pc.Closing? && s.pc.after.KillApproved? ==> s.cfg.kind.Approved?)
  }

  /** A commit in an actor's queue or in PostgreSQL was asked for while the session was open. */
  predicate CommitTrail(t: Txs, x: TxId)
    requires x in t.actors
  {
    Commit in t.actors[x].queue || CommitStarted(t.actors[x]) ==> x in t.fate && t.fate[x] == CommitAsked
  }

  /** The tables agree about one transaction id. */
  predicate RowOk(t: Txs, x: TxId)
  {
    && (x in t.born <==> x in t.actors)
    && (x in t.actors <==> x in t.open || x in t.fate)
    && (x in t.open ==> x !in t.fate)
    && (x in t.owner ==> x in t.open)
    && (x in t.tracked ==> x in t.actors && !t.born[x].orphan)
    && (x in t.finishing ==> x in t.fate && (t.finishing[x] ==> t.fate[x] == CommitAsked))
    && (x in t.open ==> Lookup(t.owner, x) == t.born[x].quoted && !t.born[x].orphan)
    && (x in t.born && t.born[x].orphan ==> t.fate[x] == Abandoned)
    && (x in t.actors ==> WellFormed(t.actors[x]) && CommitTrail(t, x))
  }

  /** A transaction opened under the echo belongs to an invocation that is still live. */
  predicate EchoOk(s: State, x: TxId)
  {
    x in s.txs.open && x in s.txs.born && s.txs.born[x].echoed ==>
      && s.txs.born[x].quoted.Some?
      && (s.txs.born[x].quoted.value in s.active || Leaving(s, s.txs.born[x].quoted.value))
  }

  predicate Awaited(s: State, x: TxId)
  {
    s.pc.Closing? && x in s.pc.awaited
  }

  /** Nothing more can come of this transaction: its actor finished, or it never had a session. */
  predicate Over(t: Txs, x: TxId)
    requires x in t.born
  {
    IsFinished(t, x) || t.born[x].orphan
  }

  /** The actor of an approved transaction is owned by the loop until it has finished, and has
      finished once its call is resolved or the loop has exited. */
  predicate Held(s: State, x: TxId)
    requires x in s.txs.born
  {
    && s.txs.born[x].quoted.Some? && s.txs.born[x].quoted.value in s.minted
    && (Over(s.txs, x) || Lookup(s.txs.tracked, x) == s.txs.born[x].quoted || Awaited(s, x))
    && (s.txs.born[x].quoted.value in s.resolved ==> Over(s.txs, x))
    && (s.pc.Exited? ==> Over(s.txs, x))
  }

  /** While an arm closes actors, none of those it closes is still in the table. */
  predicate Taken(s: State, x: TxId)
  {
    s.pc.Closing? && x in s.txs.tracked ==>
      && (s.pc.after.Resolve? || s.pc.after.Expire?)
      && s.txs.tracked[x] != s.pc.after.invocation
  }

  predicate TxOk(s: State, x: TxId)
  {
    && RowOk(s.txs, x)
    && EchoOk(s, x)
    && (s.cfg.kind.Public? ==> x !in s.txs.open)
    && (if s.cfg.kind.Approved? then (x in s.txs.born ==> Held(s, x)) && Taken(s, x) else x !in s.txs.tracked)
  }

  predicate TaskOk(s: State, k: TaskId)
  {
    k in s.tasks ==>
      && s.cfg.kind.Approved? && !s.pc.Exited?
      && s.tasks[k].Some? && (s.tasks[k].value in s.active || Leaving(s, s.tasks[k].value))
  }

  ghost predicate Inv(s: State)
  {
    && ProcessOk(s.process) && WorkOk(s) && IdsOk(s)
    && |s.txs.open| <= MAX_OPEN_TRANSACTIONS
    && (forall x :: TxOk(s, x))
    && (forall k :: TaskOk(s, k))
    && (s.pc.Exited? ==> s.cfg.kind.Approved?)
  }

  // ---- Closing sessions ----

  /** `u` is `t` after sessions closed and actors moved: nothing opened, nothing changed hands. */
  predicate Follows(t: Txs, u: Txs, x: TxId)
  {
    && u.born == t.born && u.tracked == t.tracked
    && (x in u.open ==> x in t.open)
    && (IsFinished(t, x) ==> IsFinished(u, x))
  }

  lemma SwapTxs(s: State, u: Txs)
    requires Inv(s)
    requires u.open <= s.txs.open
    requires forall x :: RowOk(u, x) && Follows(s.txs, u, x)
    ensures Inv(s.(txs := u))
  {
    SubsetSize(u.open, s.txs.open);
    var s' := s.(txs := u);
    forall x ensures TxOk(s', x) {
      assert TxOk(s, x) && RowOk(u, x) && Follows(s.txs, u, x);
    }
    forall k ensures TaskOk(s', k) {
      assert TaskOk(s, k);
    }
  }

  lemma AbandonRow(t: Txs, ids: set<TxId>, x: TxId)
    requires RowOk(t, x)
    ensures RowOk(Abandon(t, ids), x) && Follows(t, Abandon(t, ids), x)
  {
  }

  lemma AbandonKeeps(s: State, ids: set<TxId>, s': State)
    requires Inv(s) && s' == s.(txs := Abandon(s.txs, ids))
    ensures Inv(s')
    ensures forall x | IsFinished(s.txs, x) :: IsFinished(s'.txs, x)
  {
    forall x ensures RowOk(s'.txs, x) && Follows(s.txs, s'.txs, x) {
      assert TxOk(s, x);
      AbandonRow(s.txs, ids, x);
    }
    SwapTxs(s, s'.txs);
    assert s' == s.(txs := s'.txs);
  }

  lemma AskKeeps(s: State, y: TxId, commit: bool)
    requires Inv(s) && y in s.txs.open
    ensures Inv(s.(txs := Ask(s.txs, y, commit)))
  {
    var t, u := s.txs, Ask(s.txs, y, commit);
    forall x ensures RowOk(u, x) && Follows(t, u, x) {
      assert TxOk(s, x);
    }
    SwapTxs(s, u);
  }

  lemma PushKeeps(s: State, y: TxId, c: Command)
    requires Inv(s) && CanQueue(s.txs, y)
    requires c == Commit ==> y in s.txs.fate && s.txs.fate[y] == CommitAsked
    ensures Inv(s.(txs := Push(s.txs, y, c)))
  {
    var t, u := s.txs, Push(s.txs, y, c);
    forall x ensures RowOk(u, x) && Follows(t, u, x) {
      assert TxOk(s, x);
    }
    SwapTxs(s, u);
  }

  lemma MoveRow(t: Txs, y: TxId, m: Move, x: TxId)
    requires RowOk(t, x) && y in t.actors && Can(t.actors[y], m)
    ensures RowOk(t.(actors := t.actors[y := Do(t.actors[y], m)]), x)
    ensures Follows(t, t.(actors := t.actors[y := Do(t.actors[y], m)]), x)
  {
    if x == y {
      TouchKeepsWellFormed(t.actors[y], Moved(m));
    }
  }

  lemma MoveKeeps(s: State, y: TxId, m: Move)
    requires Inv(s) && Enabled(s, ActorMove(y, m))
    ensures Inv(Apply(s, ActorMove(y, m)))
  {
    var u := Apply(s, ActorMove(y, m)).txs;
    forall x ensures RowOk(u, x) && Follows(s.txs, u, x) {
      assert TxOk(s, x);
      MoveRow(s.txs, y, m, x);
    }
    SwapTxs(s, u);
  }

  lemma DeliverKeeps(s: State, y: TxId)
    requires Inv(s) && Enabled(s, Deliver(y))
    ensures Inv(Apply(s, Deliver(y)))
  {
    assert TxOk(s, y);
    var u := s.txs.(finishing := s.txs.finishing - {y});
    forall x ensures RowOk(u, x) && Follows(s.txs, u, x) {
      assert TxOk(s, x);
    }
    SwapTxs(s, u);
    if CanQueue(s.txs, y) {
      PushKeeps(s.(txs := u), y, if s.txs.finishing[y] then Commit else Rollback);
    }
  }

  // ---- The arms ----

  lemma StartKeeps(s: State, spawned: bool)
    requires Inv(s) && s.pc.Ready?
    ensures Inv(Start(s, spawned))
  {
    var s' := Start(s, spawned);
    forall x ensures TxOk(s', x) { assert TxOk(s, x); }
    forall k ensures TaskOk(s', k) { assert TaskOk(s, k); }
  }

  lemma RpcKeeps(s: State, id: RequestId, inv: InvocationId, sent: bool)
    requires Inv(s) && s.pc.Ready? && inv !in s.minted
    ensures Inv(Rpc(s, id, inv, sent))
  {
    var s' := Rpc(s, id, inv, sent);
    forall x ensures TxOk(s', x) { assert TxOk(s, x); }
    forall k ensures TaskOk(s', k) { assert TaskOk(s, k); }
  }

  lemma JobKeeps(s: State, id: JobId, inv: InvocationId, sent: bool)
    requires Inv(s) && s.pc.Ready? && inv !in s.minted && s.cfg.kind.Ordinary?
    ensures Inv(Job(s, id, inv, sent))
  {
    var s' := Job(s, id, inv, sent);
    forall x ensures TxOk(s', x) { assert TxOk(s, x); }
    forall k ensures TaskOk(s', k) { assert TaskOk(s, k); }
  }

  lemma AgentKeeps(s: State, id: InvokeId, sent: bool)
    requires Inv(s) && s.pc.Ready? && s.cfg.kind.Ordinary?
    ensures Inv(AgentInvoke(s, id, sent))
  {
    var s' := AgentInvoke(s, id, sent);
    forall x ensures TxOk(s', x) { assert TxOk(s, x); }
    forall k ensures TaskOk(s', k) { assert TaskOk(s, k); }
  }

  lemma BeginOthers(s: State, q: Option<InvocationId>, y: TxId, outcome: BeginOutcome, x: TxId)
    requires TxOk(s, x) && s.pc.Ready? && x != y
    ensures TxOk(Begin(s, q, y, outcome), x)
  {
    var t, u := s.txs, Begin(s, q, y, outcome).txs;
    assert (x in u.open <==> x in t.open) && Lookup(u.owner, x) == Lookup(t.owner, x) && Lookup(u.tracked, x) == Lookup(t.tracked, x);
    assert x in u.actors <==> x in t.actors;
    assert RowOk(u, x);
  }

  lemma BeginOpens(s: State, q: Option<InvocationId>, y: TxId)
    requires RowOk(s.txs, y) && s.pc.Ready? && y !in s.txs.actors && !s.cfg.kind.Public?
    requires s.cfg.kind.Approved? ==> q.Some? && q.value in s.active && q.value in s.minted && q.value !in s.resolved
    requires !s.cfg.kind.Approved? ==> y !in s.txs.tracked
    ensures TxOk(Begin(s, q, y, Opened), y) || Begin(s, q, y, Opened) == s
  {
    var s' := Begin(s, q, y, Opened);
    if s' != s {
      assert Lookup(s'.txs.owner, y) == q;
      assert RowOk(s'.txs, y);
    }
  }

  lemma BeginTimesOut(s: State, q: Option<InvocationId>, y: TxId)
    requires RowOk(s.txs, y) && s.pc.Ready? && y !in s.txs.actors && !s.cfg.kind.Public?
    requires s.cfg.kind.Approved? ==> q.Some? && q.value in s.active && q.value in s.minted && q.value !in s.resolved
    requires !s.cfg.kind.Approved? ==> y !in s.txs.tracked
    ensures TxOk(Begin(s, q, y, TimedOut), y) || Begin(s, q, y, TimedOut) == s
  {
  }

  lemma BeginRow(s: State, q: Option<InvocationId>, y: TxId, outcome: BeginOutcome, x: TxId)
    requires TxOk(s, x) && s.pc.Ready? && y !in s.txs.actors && !s.cfg.kind.Public?
    requires s.cfg.kind.Approved? ==> q.Some? && q.value in s.active && q.value in s.minted && q.value !in s.resolved
    requires TxOk(s, y)
    ensures TxOk(Begin(s, q, y, outcome), x)
  {
    if x != y {
      BeginOthers(s, q, y, outcome, x);
    } else {
      match outcome
      case Opened => BeginOpens(s, q, y);
      case TimedOut => BeginTimesOut(s, q, y);
      case Refused =>
    }
  }

  lemma BeginKeeps(s: State, q: Option<InvocationId>, y: TxId, outcome: BeginOutcome)
    requires Inv(s) && s.pc.Ready? && y !in s.txs.actors && !s.cfg.kind.Public?
    requires s.cfg.kind.Approved? ==> q.Some? && q.value in s.active
    ensures Inv(Begin(s, q, y, outcome))
  {
    var s' := Begin(s, q, y, outcome);
    assert TxOk(s, y);
    forall x ensures TxOk(s', x) {
      assert TxOk(s, x);
      BeginRow(s, q, y, outcome, x);
    }
    forall k ensures TaskOk(s', k) { assert TaskOk(s, k); }
  }

  lemma TxMessageKeeps(s: State, q: Option<InvocationId>, x: TxId, msg: Message)
    requires Inv(s) && s.pc.Ready?
    requires MessageEnabled(s, msg)
    requires msg.SqlExec? || msg.SqlCommit? || msg.SqlRollback?
    requires x == msg.tx
    ensures Inv(TxMessage(s, q, x, msg))
  {
    if x in s.txs.open {
      if TxMessageAdmitted(s, x, q) && msg.SqlCommit? {
        AskKeeps(s, x, true);
      } else if TxMessageAdmitted(s, x, q) && msg.SqlExec? && msg.queued {
        PushKeeps(s, x, if msg.withinRate then Exec else Poison);
      } else {
        AskKeeps(s, x, false);
      }
    }
  }

  /** Taking approved actors out of the table leaves them awaited. */
  lemma ClosingKeeps(s: State, ids: set<TxId>, after: After)
    requires Inv(s) && s.pc.Ready?
    requires !after.Resolve? && (after.KillApproved? ==> s.cfg.kind.Approved?)
    requires after.Expire? ==> after.request in s.rpcs && s.rpcs[after.request] == after.invocation
    requires ids == if after.Expire? then OwnedBy(s.txs.tracked, after.invocation) else s.txs.tracked.Keys
    ensures Inv(StartClosing(s, ids, after))
  {
    var s' := StartClosing(s, ids, after);
    forall x ensures TxOk(s', x) { assert TxOk(s, x); }
    forall k ensures TaskOk(s', k) { assert TaskOk(s, k); }
  }

  lemma ResponseKeeps(s: State, id: RequestId)
    requires Inv(s) && s.pc.Ready?
    ensures Inv(Dispatch(s, RpcResponse(id)))
  {
    var s' := Dispatch(s, RpcResponse(id));
    if id in s.rpcs {
      forall x ensures TxOk(s', x) { assert TxOk(s, x); }
      forall k ensures TaskOk(s', k) { assert TaskOk(s, k); }
    }
  }

  /** Once no open transaction quotes an invocation, it can stop being live. */
  lemma RetireKeeps(s: State, s': State, inv: InvocationId)
    requires Inv(s) && IdsOk(s') && WorkOk(s')
    requires forall x | x in s.txs.open :: Lookup(s.txs.owner, x) != Some(inv)
    requires s.tasks == map[] && (s.pc.Closing? ==> forall x | x in s.pc.awaited :: IsFinished(s.txs, x))
    requires s' == s.(active := s.active - {inv}, jobs := s'.jobs, rpcs := s'.rpcs, pc := Ready, resolved := s'.resolved)
    requires s'.resolved == s.resolved || (s'.resolved == s.resolved + {inv} && Leaving(s, inv))
    requires !s.pc.Exited? && (s.pc.Closing? && s.pc.after.Resolve? ==> s.pc.after.invocation == inv)
    ensures Inv(s')
  {
    forall x ensures TxOk(s', x) { assert TxOk(s, x); }
    forall k ensures TaskOk(s', k) { assert TaskOk(s, k); }
  }

  lemma RetireIds(s: State, s': State, inv: InvocationId)
    requires IdsOk(s) && WorkOk(s) && inv in s.minted
    requires forall r | r in s'.rpcs :: r in s.rpcs && s'.rpcs[r] == s.rpcs[r] && s.rpcs[r] != inv
    requires forall n | n in s'.jobs.invocations ::
               n in s.jobs.invocations && s'.jobs.invocations[n] == s.jobs.invocations[n] && s.jobs.invocations[n] != inv
    requires s' == s.(active := s.active - {inv}, jobs := s'.jobs, rpcs := s'.rpcs, pc := Ready, resolved := s'.resolved)
    requires s'.resolved == s.resolved || s'.resolved == s.resolved + {inv}
    ensures IdsOk(s')
  {
  }

  /** Closing an invocation: drop its sessions, after which nothing open quotes it. */
  lemma CloseKeeps(s: State, inv: InvocationId) returns (s1: State)
    requires Inv(s)
    ensures s1 == s.(txs := Abandon(s.txs, OwnedBy(s.txs.owner, inv)))
    ensures Inv(s1)
    ensures forall x | x in s1.txs.open :: Lookup(s1.txs.owner, x) != Some(inv)
    ensures forall x | IsFinished(s.txs, x) :: IsFinished(s1.txs, x)
  {
    s1 := s.(txs := Abandon(s.txs, OwnedBy(s.txs.owner, inv)));
    AbandonKeeps(s, OwnedBy(s.txs.owner, inv), s1);
    forall x | x in s1.txs.open ensures Lookup(s1.txs.owner, x) != Some(inv) {
      assert x !in OwnedBy(s.txs.owner, inv);
    }
  }

  lemma JobResultKeeps(s: State, id: JobId)
    requires Inv(s) && s.pc.Ready?
    ensures Inv(Dispatch(s, JobResult(id)))
  {
    var s' := Dispatch(s, JobResult(id));
    if id.Numeric? && id.n in s.jobs.invocations {
      var inv := s.jobs.invocations[id.n];
      var s1 := CloseKeeps(s, inv);
      assert s.tasks == map[] by {
        forall k ensures k !in s.tasks { assert TaskOk(s, k); }
      }
      assert s' == s1.(active := s1.active - {inv}, jobs := ForgetJob(s.jobs, id.n));
      RetireIds(s1, s', inv);
      RetireKeeps(s1, s', inv);
    } else {
      assert s'.jobs == s.jobs;
    }
  }

  lemma DispatchKeeps(s: State, msg: Message)
    requires Inv(s) && s.pc.Ready? && MessageEnabled(s, msg) && Gate(s, msg) == Pass
    ensures Inv(Dispatch(s, msg))
  {
    match msg
    case RpcResponse(id) => ResponseKeeps(s, id);
    case JobResult(id) => JobResultKeeps(s, id);
    case SqlBegin(q, x, outcome) => BeginKeeps(s, q, x, outcome);
    case SqlExec(q, x, _, _) => TxMessageKeeps(s, q, x, msg);
    case SqlCommit(q, x) => TxMessageKeeps(s, q, x, msg);
    case SqlRollback(q, x) => TxMessageKeeps(s, q, x, msg);
    case _ =>
      var s' := Dispatch(s, msg);
      forall x ensures TxOk(s', x) { assert TxOk(s, x); }
      forall k ensures TaskOk(s', k) { assert TaskOk(s, k); }
  }

  lemma DeniedKeeps(s: State, msg: Message)
    requires Inv(s) && s.pc.Ready?
    ensures Inv(Denied(s, msg)) && Denied(s, msg).pc.Ready? && Denied(s, msg).cfg == s.cfg
  {
    if s.cfg.kind.Approved? && (msg.SqlExec? || msg.SqlCommit? || msg.SqlRollback?) {
      var u := s.txs.(actors := CancelActors(s.txs.actors, if msg.tx in s.txs.tracked then {msg.tx} else {}));
      forall x ensures RowOk(u, x) && Follows(s.txs, u, x) { assert TxOk(s, x); }
      SwapTxs(s, u);
      AbandonKeeps(s.(txs := u), {msg.tx}, Denied(s, msg));
    }
  }

  lemma KilledKeeps(s: State)
    requires Inv(s) && s.pc.Ready? && !s.cfg.kind.Ordinary?
    ensures Inv(Killed(s))
  {
    if s.cfg.kind.Approved? {
      ClosingKeeps(s, s.txs.tracked.Keys, KillApproved);
    } else {
      var s' := Killed(s);
      forall x ensures TxOk(s', x) { assert TxOk(s, x); }
      forall k ensures TaskOk(s', k) { assert TaskOk(s, k); }
    }
  }

  lemma ReceiveKeeps(s: State, msg: Message, backlog: bool)
    requires Inv(s) && s.pc.Ready? && MessageEnabled(s, msg)
    ensures Inv(Receive(s, msg, backlog))
  {
    match Gate(s, msg)
    case Pass => DispatchKeeps(s, msg);
    case Kill => KilledKeeps(s);
    case Deny =>
      DeniedKeeps(s, msg);
      if backlog { KilledKeeps(Denied(s, msg)); }
  }

  lemma ResolveKeeps(s: State, inv: InvocationId)
    requires Inv(s) && Enabled(s, Resume) && s.pc.after == Resolve(inv)
    ensures Inv(AfterResume(s, Resolve(inv)))
  {
    var s1 := CloseKeeps(s, inv);
    var s' := s1.(active := s1.active - {inv}, resolved := s1.resolved + {inv}, pc := Ready);
    RetireIds(s1, s', inv);
    RetireKeeps(s1, s', inv);
    assert s' == AfterResume(s, Resolve(inv));
  }

  lemma ExpireKeeps(s: State, id: RequestId, inv: InvocationId)
    requires Inv(s) && Enabled(s, Resume) && s.pc.after == Expire(id, inv)
    ensures Inv(AfterResume(s, Expire(id, inv)))
  {
    var s1 := CloseKeeps(s, inv);
    var s' := s1.(active := s1.active - {inv}, rpcs := s1.rpcs - {id}, pc := Ready);
    RetireIds(s1, s', inv);
    RetireKeeps(s1, s', inv);
    assert s' == AfterResume(s, Expire(id, inv));
  }

  /** With no session, no actor and no task left, everything else may be reset. */
  lemma EmptyKeeps(s: State, s1: State, s': State)
    requires Inv(s) && Inv(s1) && Enabled(s, Resume) && s1.cfg == s'.cfg == s.cfg && s1.pc == s.pc
    requires s1.txs == s'.txs && s1.txs.open == {} && s1.txs.tracked == map[] && s'.tasks == map[]
    requires forall x | x in s.pc.awaited :: IsFinished(s'.txs, x)
    requires ProcessOk(s'.process) && WorkOk(s') && IdsOk(s') && s'.minted == s1.minted
    requires !s'.pc.Closing? && (s'.pc.Exited? ==> s'.cfg.kind.Approved?)
    ensures Inv(s')
  {
    forall x ensures TxOk(s', x) { assert TxOk(s1, x); }
  }

  predicate Clears(after: After)
  {
    after.StopNow? || after.KillApproved? || after.Recover?
  }

  lemma ClearFacts(s: State, s': State)
    requires ProcessOk(s.process) && WorkOk(s) && IdsOk(s)
    requires s.pc.Closing? && Clears(s.pc.after) && s' == AfterResume(s, s.pc.after)
    ensures ProcessOk(s'.process) && WorkOk(s') && IdsOk(s') && s'.minted == s.minted && s'.cfg == s.cfg
    ensures s'.txs == Abandon(s.txs, s.txs.open) && s'.tasks == s.tasks
    ensures !s'.pc.Closing? && (s'.pc.Exited? ==> s'.cfg.kind.Approved?)
  {
  }

  lemma ClearKeeps(s: State)
    requires Inv(s) && Enabled(s, Resume) && Clears(s.pc.after)
    ensures Inv(AfterResume(s, s.pc.after))
  {
    var s' := AfterResume(s, s.pc.after);
    ClearFacts(s, s');
    var s1 := s.(txs := s'.txs);
    AbandonKeeps(s, s.txs.open, s1);
    assert s.txs.tracked == map[] by {
      forall x ensures x !in s.txs.tracked { assert TxOk(s, x); }
    }
    EmptyKeeps(s, s1, s');
  }

  /** The invariant survives every arm and every move of the environment. */
  lemma StepKeeps(s: State, e: Event)
    requires Inv(s) && Enabled(s, e)
    ensures Inv(Apply(s, e))
  {
    match e
    case StartCmd(spawned) => StartKeeps(s, spawned);
    case StopCmd => ClosingKeeps(s, s.txs.tracked.Keys, StopNow);
    case RpcCmd(id, inv, sent) => RpcKeeps(s, id, inv, sent);
    case JobCmd(id, inv, sent) => JobKeeps(s, id, inv, sent);
    case AgentCmd(id, sent) => AgentKeeps(s, id, sent);
    case Inbound(msg, backlog) => ReceiveKeeps(s, msg, backlog);
    case Eof(how) => ClosingKeeps(s, s.txs.tracked.Keys, Recover(how));
    case ResponseUndeliverable => ClosingKeeps(s, s.txs.tracked.Keys, KillApproved);
    case Expiry(id, inv) =>
      if id in s.rpcs && s.rpcs[id] == inv { ClosingKeeps(s, OwnedBy(s.txs.tracked, inv), Expire(id, inv)); }
    case TxDone(x) => TxDoneKeeps(s, x);
    case Resume => ResumeKeeps(s);
    case ActorMove(x, m) => MoveKeeps(s, x, m);
    case Deliver(x) => DeliverKeeps(s, x);
    case TaskEnds(t) => TaskEndKeeps(s, t);
  }

  lemma DropTrackedKeeps(s: State, y: TxId)
    requires Inv(s) && s.pc.Ready? && IsFinished(s.txs, y)
    ensures Inv(s.(txs := s.txs.(tracked := s.txs.tracked - {y})))
  {
    var s1 := s.(txs := s.txs.(tracked := s.txs.tracked - {y}));
    forall x ensures TxOk(s1, x) { assert TxOk(s, x); }
    forall k ensures TaskOk(s1, k) { assert TaskOk(s, k); }
  }

  lemma TxDoneKeeps(s: State, y: TxId)
    requires Inv(s) && s.pc.Ready? && IsFinished(s.txs, y)
    ensures Inv(Apply(s, TxDone(y)))
  {
    var s1 := s.(txs := s.txs.(tracked := s.txs.tracked - {y}));
    DropTrackedKeeps(s, y);
    AbandonKeeps(s1, {y}, Apply(s, TxDone(y)));
  }

  lemma TaskEndKeeps(s: State, t: TaskId)
    requires Inv(s) && t in s.tasks
    ensures Inv(Apply(s, TaskEnds(t)))
  {
    var s' := Apply(s, TaskEnds(t));
    forall x ensures TxOk(s', x) { assert TxOk(s, x); }
    forall k ensures TaskOk(s', k) { assert TaskOk(s, k); }
  }

  lemma ResumeKeeps(s: State)
    requires Inv(s) && Enabled(s, Resume)
    ensures Inv(Apply(s, Resume))
  {
    match s.pc.after
    case Resolve(inv) => ResolveKeeps(s, inv);
    case Expire(id, inv) => ExpireKeeps(s, id, inv);
    case _ => ClearKeeps(s);
  }
}
