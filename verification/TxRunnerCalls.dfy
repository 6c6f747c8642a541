/** What the runner records, told from the calls, replies and callback ends alone: when each
    transaction began, which calls of `tx.sql` it took, and what was answered. */
module TxRunnerCalls {
  import opened Common
  import opened TxRunner
  import opened TxRunnerTrace

  // ---- Which replies count ----

  /** A request went out under this id and nothing has settled it. */
  ghost predicate Waits(log: seq<Entry>, id: nat)
  {
    (exists body :: Sent(id, body) in log) && (forall ok :: Settled(id, ok) !in log)
  }

  ghost predicate PendingMatches(s: Runner)
  {
    && (forall id | id in s.pending :: id <= s.txSeq)
    && (forall x | x in s.log :: x.id <= s.txSeq)
    && (forall id: nat :: (id in s.pending && s.pending[id].Awaited?) <==> Waits(s.log, id))
  }

  lemma SendMatches(s: Runner, body: Body)
    requires PendingMatches(s)
    ensures PendingMatches(Send(s, body))
  {
    var s' := Send(s, body);
    forall id: nat ensures (id in s'.pending && s'.pending[id].Awaited?) <==> Waits(s'.log, id) {
      if id == s.txSeq + 1 {
        assert Sent(id, body) in s'.log;
      } else {
        assert forall b :: Sent(id, b) in s'.log <==> Sent(id, b) in s.log;
        assert forall ok :: Settled(id, ok) in s'.log <==> Settled(id, ok) in s.log;
      }
    }
  }

  lemma UnwrittenMatches(s: Runner, truthy: bool)
    requires PendingMatches(s)
    ensures PendingMatches(FailToSend(s, truthy))
  {
    var s' := FailToSend(s, truthy);
    forall id: nat ensures (id in s'.pending && s'.pending[id].Awaited?) <==> Waits(s'.log, id) {
      if id == s.txSeq + 1 { assert forall body :: Sent(id, body) !in s.log; }
    }
  }

  lemma SettledMatches(s: Runner, id: nat, ok: bool)
    requires PendingMatches(s) && id in s.pending && s.pending[id].Awaited?
    ensures PendingMatches(s.(pending := s.pending - {id}, log := s.log + [Settled(id, ok)]))
  {
    var s' := s.(pending := s.pending - {id}, log := s.log + [Settled(id, ok)]);
    forall i: nat ensures (i in s'.pending && s'.pending[i].Awaited?) <==> Waits(s'.log, i) {
      if i == id {
        assert Settled(id, ok) in s'.log;
      } else {
        assert forall b :: Sent(i, b) in s'.log <==> Sent(i, b) in s.log;
        assert forall k :: Settled(i, k) in s'.log <==> Settled(i, k) in s.log;
      }
    }
  }

  lemma ResumedKeepsLog(s: Runner, body: Body, ok: bool)
    ensures var s' := Resumed(s, body, ok); s'.log == s.log && s'.pending == s.pending && s'.txSeq == s.txSeq
  {
  }

  lemma SettleMatches(s: Runner, id: nat, ok: bool)
    requires PendingMatches(s)
    ensures PendingMatches(SettleRequest(s, id, ok))
    ensures SettleRequest(s, id, ok).log == if Waits(s.log, id) then s.log + [Settled(id, ok)] else s.log
  {
    if id in s.pending && s.pending[id].Awaited? {
      SettledMatches(s, id, ok);
      ResumedKeepsLog(s.(pending := s.pending - {id}, log := s.log + [Settled(id, ok)]), s.pending[id].body, ok);
    } else if id in s.pending {
      assert !Waits(s.log, id);
    }
  }

  lemma SameLogMatches(s: Runner, s': Runner)
    requires PendingMatches(s) && s'.log == s.log && s'.pending == s.pending && s.txSeq <= s'.txSeq
    ensures PendingMatches(s')
  {
  }

  lemma StepMatches(s: Runner, e: Event)
    requires PendingMatches(s)
    ensures PendingMatches(Step(s, e))
  {
    match e
    case Call =>
      if !s.active { SameLogMatches(s, Entered(s)); SendMatches(Entered(s), Begin); }
    case NextStatement =>
      if CanStartStatement(s) && !s.failed {
        match s.writings[|s.outcomes|]
        case Written => SendMatches(s, Exec(|s.outcomes|));
        case Throws(truthy) => UnwrittenMatches(s, truthy);
      }
    case Settle(id, ok) => SettleMatches(s, id, ok);
    case QueueDrained => DrainMatches(s);
    case _ => SameLogMatches(s, Step(s, e));
  }

  lemma DrainMatches(s: Runner)
    requires PendingMatches(s)
    ensures PendingMatches(DrainQueue(s))
  {
    if |s.outcomes| == |s.writings| && s.pc == AtQueue && !s.failed {
      SameLogMatches(s, s.(open := false, pc := AtCommit));
      SendMatches(s.(open := false, pc := AtCommit), Commit);
    } else if |s.outcomes| == |s.writings| && s.pc == AtCatch && s.open {
      SameLogMatches(s, s.(pc := AtRollback));
      SendMatches(s.(pc := AtRollback), Rollback);
    } else {
      SameLogMatches(s, DrainQueue(s));
    }
  }

  lemma {:induction false} RunMatches(es: seq<Event>)
    ensures PendingMatches(Run(Fresh(), es))
    decreases |es|
  {
    if es == [] {
      assert forall id: nat :: !Waits([], id);
    } else {
      RunMatches(es[..|es| - 1]);
      StepMatches(Run(Fresh(), es[..|es| - 1]), es[|es| - 1]);
    }
  }

  /** The first reply or timeout of a request that went out is logged as it came; any later one, and
      one for a request that was never written, leaves the log alone. */
  lemma ReplyIsLogged(es: seq<Event>, id: nat, ok: bool)
    ensures var log := Run(Fresh(), es).log;
            Run(Fresh(), es + [Settle(id, ok)]).log == if Waits(log, id) then log + [Settled(id, ok)] else log
  {
    RunMatches(es);
    RunSnoc(Fresh(), es, Settle(id, ok));
    SettleMatches(Run(Fresh(), es), id, ok);
  }

  // ---- When something goes out ----

  /** A begin goes out, or nothing happens because a transaction is in progress. */
  predicate Begun(s: Runner, s': Runner, busy: bool)
  {
    if busy then s' == s else s'.log == s.log + [Sent(s.txSeq + 1, Begin)] && s'.seen == s.seen
  }

  lemma StartBegins(s: Runner, cur: Option<Talk>)
    requires Unfinished(s, cur)
    ensures Begun(s, Start(s), cur.Some?)
  {
  }

  /** A call goes out as a begin unless a transaction is in progress, and then it changes nothing. */
  lemma CallBegins(es: seq<Event>, past: seq<Talk>, cur: Option<Talk>)
    requires Tells(Run(Fresh(), es), past, cur)
    ensures Begun(Run(Fresh(), es), Run(Fresh(), es + [Call]), cur.Some?)
  {
    var s := Run(Fresh(), es);
    RunSnoc(Fresh(), es, Call);
    StartBegins(s, cur);
  }

  /** What a started statement comes to, by its parameters and the outcomes before it. */
  ghost predicate Taken(s: Runner, s': Runner)
    requires |s.outcomes| < |s.writings|
  {
    var n := |s.outcomes|;
    && s'.writings == s.writings && s'.seen == s.seen
    && if Latched(s.outcomes) then s'.log == s.log && s'.outcomes == s.outcomes + [Skipped]
       else if s.writings[n].Throws? then s'.log == s.log && s'.outcomes == s.outcomes + [Unsent(s.writings[n].truthy)]
       else s'.log == s.log + [Sent(s.txSeq + 1, Exec(n))] && s'.outcomes == s.outcomes
  }

  lemma StatementRuns(s: Runner, cur: Option<Talk>)
    requires Fits(s, cur) && cur.Some? && Out(cur).None? && |s.outcomes| < |s.writings|
    ensures Taken(s, StartStatement(s))
  {
    assert !InFlight(s) by {
      forall id | id in s.pending ensures !s.pending[id].Awaited? { assert id !in Outstanding(s.pending); }
    }
    assert CanStartStatement(s);
    StatementMeansQueue(s, cur);
  }

  /** With nothing out, the next accepted statement goes out or fails as its parameters are, unless a
      failure is latched: whether the callback has ended or not. */
  lemma NextStatementRuns(es: seq<Event>, past: seq<Talk>, cur: Option<Talk>)
    requires Tells(Run(Fresh(), es), past, cur) && cur.Some? && Out(cur).None?
    requires |Run(Fresh(), es).outcomes| < |Run(Fresh(), es).writings|
    ensures Taken(Run(Fresh(), es), Run(Fresh(), es + [NextStatement]))
  {
    var s := Run(Fresh(), es);
    RunSnoc(Fresh(), es, NextStatement);
    StatementRuns(s, cur);
  }

  /** The callback is over, all its statements have settled and no end has gone out. */
  predicate Drained(s: Runner, cur: Option<Talk>)
  {
    cur.Some? && cur.value.begin.reply == Some(true) && cur.value.last.None? && s.callback.Some? && |s.outcomes| == |s.writings|
  }

  lemma DrainedIsEnding(s: Runner, cur: Option<Talk>)
    requires Unfinished(s, cur) && Drained(s, cur)
    ensures s.open && (s.pc == AtQueue || s.pc == AtCatch)
    ensures s.pc == AtQueue ==> s.callback == Some(true)
    ensures s.pc == AtCatch ==> s.callback == Some(false) || s.failed
    ensures s.failed <==> Latched(s.outcomes)
  {
  }

  /** The commit goes out with the queue, or the rollback once the failure has been thrown and caught. */
  predicate EndsWith(s: Runner, next: seq<Entry>, afterNext: seq<Entry>)
  {
    s.callback.Some? &&
    if s.callback.value && !Latched(s.outcomes) then next == s.log + [Sent(s.txSeq + 1, Commit)]
    else afterNext == s.log + [Sent(s.txSeq + 1, Rollback)]
  }

  /** Then the commit goes out if the callback returned and no failure is latched, and the rollback
      otherwise. */
  lemma EndGoesOut(es: seq<Event>, past: seq<Talk>, cur: Option<Talk>)
    requires Tells(Run(Fresh(), es), past, cur) && Drained(Run(Fresh(), es), cur)
    ensures EndsWith(Run(Fresh(), es), Run(Fresh(), es + [QueueDrained]).log, Run(Fresh(), es + [QueueDrained, QueueDrained]).log)
  {
    var s := Run(Fresh(), es);
    RunSnoc(Fresh(), es, QueueDrained);
    RunTwice(Fresh(), es, QueueDrained, QueueDrained);
    EndFollows(s, cur);
  }

  lemma EndFollows(s: Runner, cur: Option<Talk>)
    requires Unfinished(s, cur) && Drained(s, cur)
    ensures EndsWith(s, Step(s, QueueDrained).log, Step(Step(s, QueueDrained), QueueDrained).log)
  {
    DrainedIsEnding(s, cur);
    if !s.callback.value || s.failed { RollbackInTwo(s); }
  }

  lemma RollbackInTwo(s: Runner)
    requires s.open && |s.outcomes| == |s.writings| && (s.pc == AtCatch || (s.pc == AtQueue && s.failed))
    ensures Step(Step(s, QueueDrained), QueueDrained).log == s.log + [Sent(s.txSeq + 1, Rollback)]
  {
    if s.pc == AtQueue {
      assert Step(s, QueueDrained) == s.(closed := true, pc := AtCatch);
    } else {
      var s' := Send(s.(pc := AtRollback), Rollback);
      assert Step(s, QueueDrained) == s';
      assert Step(s', QueueDrained) == s';
    }
  }
}
