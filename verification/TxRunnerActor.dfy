/** The same transaction runner as it is written: locals and module-level maps that the
    continuations of one asynchronous function update in place. */
module TxRunnerActor {
  import opened Common
  import opened TxRunner
  import opened TxRunnerTrace
  import opened TxRunnerSpans

  class Invocation {
    var transactionActive: bool
    var transactionOpen: bool
    var closed: bool
    var firstSqlError: bool
    var suspendedAt: Pc
    var writings: seq<Writing>
    var outcomes: seq<Outcome>
    var callback: Option<bool>
    var txSeq: nat
    var pendingTx: map<nat, Pending>
    var log: seq<Entry>
    var seen: seq<Seen>
    ghost var history: seq<Event>

    function View(): Runner
      reads this
    {
      Runner(transactionActive, transactionOpen, closed, firstSqlError, suspendedAt, writings, outcomes, callback,
             txSeq, pendingTx, log, seen)
    }

    /** The fields are where the machine is after everything that fired. */
    ghost predicate Valid()
      reads this
    {
      View() == Run(Fresh(), history)
    }

    constructor ()
      ensures Valid() && history == []
    {
      transactionActive, transactionOpen, closed, firstSqlError, suspendedAt := false, false, false, false, Idle;
      writings, outcomes, callback, txSeq, pendingTx, log, seen := [], [], None, 0, map[], [], [];
      history := [];
    }

    ghost method Record(before: Runner, e: Event)
      requires before == Run(Fresh(), history) && View() == Step(before, e)
      modifies this`history
      ensures Valid() && history == old(history) + [e]
    {
      RunSnoc(Fresh(), history, e);
      history := history + [e];
    }

    /** Register a request under a new id and put it on the wire. */
    method TransactionRequest(body: Body)
      modifies this`txSeq, this`pendingTx, this`log
      ensures View() == Send(old(View()), body)
    {
      txSeq := txSeq + 1;
      pendingTx := pendingTx[txSeq := Awaited(body)];
      log := log + [Sent(txSeq, body)];
    }

    /** The locals of a new call. */
    method Enter()
      modifies this`transactionActive, this`transactionOpen, this`closed, this`firstSqlError, this`suspendedAt,
               this`writings, this`outcomes, this`callback
      ensures View() == Entered(old(View()))
    {
      transactionActive := true;
      transactionOpen, closed, firstSqlError := false, false, false;
      writings, outcomes, callback := [], [], None;
      suspendedAt := AtBegin;
    }

    /** The function leaves through `finally`. */
    method Leave(resolved: bool)
      modifies this`transactionActive, this`suspendedAt, this`seen
      ensures View() == Finish(old(View()), resolved)
    {
      transactionActive := false;
      suspendedAt := Idle;
      seen := seen + [Seen(writings, outcomes, callback, resolved)];
    }

    /** `ctx.transaction`: refused while one is active. */
    method RunTransaction() returns (started: bool)
      requires Valid()
      modifies this
      ensures Valid() && history == old(history) + [Call]
      ensures started <==> !old(transactionActive)
    {
      ghost var before := View();
      started := !transactionActive;
      if started {
        Enter();
        TransactionRequest(Begin);
      }
      assert View() == Start(before);
      Record(before, Call);
    }

    /** `tx.sql`: a closed handle rejects, an open one chains a promise on the queue. */
    method CallSql(handle: nat, writing: Writing) returns (chained: bool)
      requires Valid()
      modifies this
      ensures Valid() && history == old(history) + [Sql(handle, writing)]
      ensures chained <==> handle == old(|seen|) && old(suspendedAt) == AtCallback
      ensures writings == old(writings) + if chained then [writing] else []
    {
      ghost var _, current := LogTellsTransactions();
      chained := handle == |seen| && suspendedAt != Idle && suspendedAt != AtBegin && !closed;
      if chained { writings := writings + [writing]; }
      Record(old(View()), Sql(handle, writing));
    }

    /** The next chained promise starts once the one before it has settled.  Its message may fail to
        serialize, after the entry was made. */
    method StartNextStatement()
      requires Valid()
      modifies this
      ensures Valid() && history == old(history) + [NextStatement]
    {
      ghost var before := View();
      var free := !InFlight(View());
      if suspendedAt != Idle && |outcomes| < |writings| && free {
        var writing := writings[|outcomes|];
        if firstSqlError {
          outcomes := outcomes + [Skipped];
        } else if writing.Written? {
          TransactionRequest(Exec(|outcomes|));
        } else {
          txSeq := txSeq + 1;
          pendingTx := pendingTx[txSeq := Unwritten];
          outcomes := outcomes + [Unsent(writing.truthy)];
          if writing.truthy { firstSqlError := true; }
        }
      }
      assert View() == StartStatement(before);
      Record(before, NextStatement);
    }

    /** The continuation behind a request that settled. */
    method Resume(body: Body, ok: bool)
      modifies this
      ensures history == old(history)
      ensures View() == Resumed(old(View()), body, ok)
    {
      match body
      case Begin =>
        if ok {
          transactionOpen := true;
          suspendedAt := AtCallback;
        } else {
          closed := true;
          suspendedAt := AtCatch;
        }
      case Exec(_) =>
        outcomes := outcomes + [if ok then Succeeded else Refused];
        if !ok { firstSqlError := true; }
      case Commit =>
        if ok {
          Leave(true);
        } else {
          closed := true;
          suspendedAt := AtCatch;
        }
      case Rollback => Leave(false);
    }

    /** A reply or a timeout; a request that already settled is no longer in the map. */
    method OnSettle(id: nat, ok: bool)
      requires Valid()
      modifies this
      ensures Valid() && history == old(history) + [Settle(id, ok)]
    {
      if id in pendingTx {
        var entry := pendingTx[id];
        pendingTx := pendingTx - {id};
        if entry.Awaited? {
          log := log + [Settled(id, ok)];
          Resume(entry.body, ok);
        }
      }
      Record(old(View()), Settle(id, ok));
    }

    method OnCallbackEnds(returned: bool)
      requires Valid()
      modifies this
      ensures Valid() && history == old(history) + [CallbackEnds(returned)]
    {
      if suspendedAt == AtCallback {
        closed := true;
        callback := Some(returned);
        suspendedAt := if returned then AtQueue else AtCatch;
      }
      Record(old(View()), CallbackEnds(returned));
    }

    /** `await queue` continues: once on the way to the commit, once in `catch`. */
    method OnQueueDrained()
      requires Valid()
      modifies this
      ensures Valid() && history == old(history) + [QueueDrained]
    {
      if |outcomes| == |writings| {
        if suspendedAt == AtQueue {
          if firstSqlError {
            closed := true;
            suspendedAt := AtCatch;
          } else {
            transactionOpen := false;
            suspendedAt := AtCommit;
            TransactionRequest(Commit);
          }
        } else if suspendedAt == AtCatch {
          if transactionOpen {
            suspendedAt := AtRollback;
            TransactionRequest(Rollback);
          } else {
            Leave(false);
          }
        }
      }
      Record(old(View()), QueueDrained);
    }

    /** Requests of other kinds draw on the same counter. */
    method OnOtherRequest()
      requires Valid()
      modifies this
      ensures Valid() && history == old(history) + [OtherRequest]
    {
      txSeq := txSeq + 1;
      Record(old(View()), OtherRequest);
    }

    method OnEvent(e: Event)
      requires Valid()
      modifies this
      ensures Valid() && history == old(history) + [e]
    {
      match e
      case Call => var _ := RunTransaction();
      case Sql(handle, writing) => var _ := CallSql(handle, writing);
      case NextStatement => StartNextStatement();
      case Settle(id, ok) => OnSettle(id, ok);
      case CallbackEnds(returned) => OnCallbackEnds(returned);
      case QueueDrained => OnQueueDrained();
      case OtherRequest => OnOtherRequest();
    }

    /** Whatever has fired in whatever order, the log tells whole transactions one after the other. */
    lemma LogTellsTransactions() returns (past: seq<Talk>, current: Option<Talk>)
      requires Valid()
      ensures Tells(View(), past, current) && |Outstanding(pendingTx)| <= 1
    {
      past, current := TransactionTrace(history);
    }

    /** And the statements of each are the calls of `tx.sql` made in its callback. */
    lemma StatementsWereCalled() returns (spans: seq<Span>)
      requires Valid()
      ensures Finished(history, seen, spans)
    {
      spans := StatementsAreTheCalls(history, View());
    }
  }

  /** Every script of events leaves the fields where the machine's run over it ends: the log tells
      whole transactions, and each transaction's statements are the calls made in its callback. */
  method Live(events: seq<Event>) returns (invocation: Invocation, ghost past: seq<Talk>, ghost current: Option<Talk>, ghost spans: seq<Span>)
    ensures fresh(invocation) && invocation.Valid() && invocation.history == events
    ensures Told(invocation.log, invocation.seen, invocation.txSeq, past, current)
    ensures |Outstanding(invocation.pendingTx)| <= 1
    ensures Finished(events, invocation.seen, spans)
  {
    invocation := new Invocation();
    for i := 0 to |events|
      invariant fresh(invocation) && invocation.Valid() && invocation.history == events[..i]
    {
      invocation.OnEvent(events[i]);
    }
    past, current := invocation.LogTellsTransactions();
    spans := invocation.StatementsWereCalled();
    assert events[..|events|] == events;
  }
}
