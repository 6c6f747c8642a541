/** What one event does to one transaction, told by the event and the tables it finds: how a session
    opens and leaves, what its actor is told, what is waited for and what is resolved. */
module SupervisorTxHistory {
  import opened Common
  import opened TxActor
  import opened Supervisor
  import opened SupervisorInvariants
  import opened SupervisorRuns
  import opened SupervisorHistory

  // ---- What happens to a session ----

  /** A worker held to the echo must quote a live invocation. */
  predicate Admissible(s: State, quoted: Option<InvocationId>)
  {
    s.cfg.scoped && Speaks4(s) ==> Live(s, quoted)
  }

  /** And for an open transaction the very one that opened it. */
  predicate MayTouch(s: State, x: TxId, quoted: Option<InvocationId>)
  {
    s.cfg.scoped && Speaks4(s) ==> Live(s, quoted) && x in s.txs.owner && s.txs.owner[x] == quoted.value
  }

  predicate BeginsTx(s: State, e: Event, x: TxId, outcome: BeginOutcome)
  {
    && Hears(s, e) && e.msg.SqlBegin? && e.msg.tx == x && e.msg.outcome == outcome
    && |s.txs.open| < 4 && Admissible(s, e.msg.quoted)
  }

  predicate Names(e: Event, x: TxId)
  {
    e.Inbound? && (e.msg.SqlExec? || e.msg.SqlCommit? || e.msg.SqlRollback?) && e.msg.tx == x
  }

  predicate Reaches(s: State, e: Event, x: TxId)
  {
    Hears(s, e) && Names(e, x) && x in s.txs.open
  }

  /** An admitted commit hands the session over to be committed. */
  predicate CommitsTx(s: State, e: Event, x: TxId)
  {
    Reaches(s, e, x) && e.msg.SqlCommit? && MayTouch(s, x, e.msg.quoted)
  }

  /** An admitted rollback, a message that is not admitted, and a statement the actor cannot take hand it
      over to be rolled back. */
  predicate RollsBackTx(s: State, e: Event, x: TxId)
  {
    Reaches(s, e, x) && (!MayTouch(s, x, e.msg.quoted) || e.msg.SqlRollback? || (e.msg.SqlExec? && !e.msg.queued))
  }

  predicate QueuesTx(s: State, e: Event, x: TxId)
  {
    Reaches(s, e, x) && e.msg.SqlExec? && e.msg.queued && MayTouch(s, x, e.msg.quoted)
  }

  predicate DeniesTx(s: State, e: Event, x: TxId)
  {
    Names(e, x) && Gate(s, e.msg) == Deny && s.cfg.kind.Approved?
  }

  predicate OwnerEnds(s: State, e: Event, inv: InvocationId)
  {
    || (AnsweredBy(s, e, inv) && e.msg.JobResult?)
    || Ends(s, e, Resolve(inv))
    || (e.Resume? && s.pc.Closing? && s.pc.after.Expire? && s.pc.after.invocation == inv)
  }

  /** The session is dropped: its actor ended, its invocation did, the worker did, or the worker
      touched it without leave. */
  predicate DropsTx(s: State, e: Event, x: TxId)
  {
    e == TxDone(x) || (x in s.txs.owner && OwnerEnds(s, e, s.txs.owner[x])) || Clearing(s, e) || DeniesTx(s, e, x)
  }

  predicate OpenLaw(s: State, e: Event, u: State, x: TxId)
  {
    && (x in u.txs.open <==>
          BeginsTx(s, e, x, Opened) || (x in s.txs.open && !CommitsTx(s, e, x) && !RollsBackTx(s, e, x) && !DropsTx(s, e, x)))
    && (x in s.txs.open && CommitsTx(s, e, x) ==> x in u.txs.fate && u.txs.fate[x] == CommitAsked)
    && (x in s.txs.open && RollsBackTx(s, e, x) ==> x in u.txs.fate && u.txs.fate[x] == RollbackAsked)
    && (x in s.txs.open && DropsTx(s, e, x) ==> x in u.txs.fate && u.txs.fate[x] == Abandoned)
    && (BeginsTx(s, e, x, TimedOut) ==> x in u.txs.fate && u.txs.fate[x] == Abandoned)
  }

  /** The task that carries a commit (true) or a rollback to the actor. */
  predicate FinishingLaw(s: State, e: Event, u: State, x: TxId)
  {
    && (x in u.txs.finishing <==> CommitsTx(s, e, x) || RollsBackTx(s, e, x) || (x in s.txs.finishing && e != Deliver(x)))
    && (x in u.txs.finishing ==> u.txs.finishing[x] == if x in s.txs.open then CommitsTx(s, e, x) else x in s.txs.finishing && s.txs.finishing[x])
  }

  predicate OwnerLaw(s: State, e: Event, u: State, x: TxId)
  {
    && (BeginsTx(s, e, x, Opened) ==> Lookup(u.txs.owner, x) == e.msg.quoted)
    && (BeginsTx(s, e, x, Opened) || BeginsTx(s, e, x, TimedOut) ==>
          x in u.txs.born && u.txs.born[x] == Birth(e.msg.quoted, s.cfg.scoped && Speaks4(s), e.msg.outcome.TimedOut?))
    && (x in s.txs.open && x in u.txs.open && !BeginsTx(s, e, x, Opened) ==> Lookup(u.txs.owner, x) == Lookup(s.txs.owner, x))
  }

  // ---- Which actors the loop holds ----

  /** An arm takes this actor out of the table to close it. */
  predicate TakesActor(s: State, e: Event, x: TxId)
  {
    x in s.txs.tracked &&
    (|| e.StopCmd? || e.Eof? || e.ResponseUndeliverable?
     || (Fatal(s, e) && s.cfg.kind.Approved?)
     || (e.Expiry? && Waits(s, e.request, e.invocation) && s.txs.tracked[x] == e.invocation)
     || (e.Inbound? && e.msg.RpcResponse? && AnswersCall(s, e, e.msg.id) && s.txs.tracked[x] == s.rpcs[e.msg.id]))
  }

  predicate TrackedLaw(s: State, e: Event, u: State, x: TxId)
  {
    && (x in u.txs.tracked <==>
          || (BeginsTx(s, e, x, Opened) && s.cfg.kind.Approved? && e.msg.quoted.Some?)
          || (x in s.txs.tracked && e != TxDone(x) && !TakesActor(s, e, x)))
    && (BeginsTx(s, e, x, Opened) && x in u.txs.tracked ==> Some(u.txs.tracked[x]) == e.msg.quoted)
    && (x in s.txs.tracked && x in u.txs.tracked && !BeginsTx(s, e, x, Opened) ==> u.txs.tracked[x] == s.txs.tracked[x])
  }

  // ---- What the actor is told ----

  predicate CancelsTx(s: State, e: Event, x: TxId)
  {
    (x in s.txs.open && DropsTx(s, e, x)) || TakesActor(s, e, x) || (x in s.txs.tracked && DeniesTx(s, e, x))
  }

  function TouchesBy(s: State, e: Event, x: TxId): seq<Touch>
  {
    if e.ActorMove? && e.txId == x then [Moved(e.move)]
    else if e == Deliver(x) && x in s.txs.finishing && CanQueue(s.txs, x) then [Queued(if s.txs.finishing[x] then Commit else Rollback)]
    else if QueuesTx(s, e, x) then [Queued(if e.msg.withinRate then Exec else Poison)]
    else if CancelsTx(s, e, x) then [Cancelled]
    else []
  }

  ghost predicate ActorLaw(s: State, e: Event, u: State, x: TxId)
  {
    && (x in u.txs.actors <==> x in s.txs.actors || BeginsTx(s, e, x, Opened) || BeginsTx(s, e, x, TimedOut))
    && (x in u.txs.actors && x !in s.txs.actors ==> u.txs.actors[x] == Fresh)
    && (x in u.txs.actors && x in s.txs.actors ==> IsHistory(s.txs.actors[x], TouchesBy(s, e, x), u.txs.actors[x]))
  }

  ghost predicate TxLaw(s: State, e: Event, u: State, x: TxId)
  {
    OpenLaw(s, e, u, x) && FinishingLaw(s, e, u, x) && OwnerLaw(s, e, u, x) && TrackedLaw(s, e, u, x) && ActorLaw(s, e, u, x)
  }

  // ---- The arms, in these terms ----

  lemma OneTouch(a: Actor, t: Touch)
    requires Allowed(a, t)
    ensures IsHistory(a, [t], Touched(a, t))
  {
    assert [t][1..] == [];
  }

  /** Does this event say anything about this transaction? */
  predicate Concerns(s: State, e: Event, x: TxId)
  {
    || BeginsTx(s, e, x, Opened) || BeginsTx(s, e, x, TimedOut) || Reaches(s, e, x) || DropsTx(s, e, x) || TakesActor(s, e, x)
    || (e.ActorMove? && e.txId == x) || e == Deliver(x)
  }

  /** Nothing about this transaction changes. */
  predicate SameTx(t: Txs, u: Txs, x: TxId)
  {
    && (x in u.open <==> x in t.open) && Lookup(u.owner, x) == Lookup(t.owner, x) && Lookup(u.tracked, x) == Lookup(t.tracked, x)
    && (x in u.finishing <==> x in t.finishing) && (x in t.finishing ==> u.finishing[x] == t.finishing[x])
    && (x in u.actors <==> x in t.actors) && (x in t.actors ==> u.actors[x] == t.actors[x])
  }

  lemma Unconcerned(s: State, e: Event, u: State, x: TxId)
    requires RowOk(s.txs, x) && SameTx(s.txs, u.txs, x) && (x in s.txs.actors ==> !Concerns(s, e, x))
    requires !BeginsTx(s, e, x, Opened) && !BeginsTx(s, e, x, TimedOut)
    ensures TxLaw(s, e, u, x)
  {
  }

  lemma AbandonOne(t: Txs, ids: set<TxId>, x: TxId)
    requires x in t.open ==> x in t.actors && x !in t.fate
    ensures var u := Abandon(t, ids);
            && (x in u.open <==> x in t.open && x !in ids)
            && (x in t.open && x in ids ==> x in u.fate && u.fate[x] == Abandoned)
            && u.finishing == t.finishing && u.tracked == t.tracked
            && (x !in ids ==> Lookup(u.owner, x) == Lookup(t.owner, x))
            && (x in u.actors <==> x in t.actors)
            && (x in t.actors ==> u.actors[x] == if x in t.open && x in ids then Cancel(t.actors[x]) else t.actors[x])
  {
  }

  lemma UntrackOne(t: Txs, ids: set<TxId>, x: TxId)
    ensures var u := Untrack(t, ids);
            && u.open == t.open && u.fate == t.fate && u.finishing == t.finishing && u.owner == t.owner
            && (x in u.tracked <==> x in t.tracked && x !in ids)
            && (x in u.tracked ==> u.tracked[x] == t.tracked[x])
            && (x in u.actors <==> x in t.actors)
            && (x in t.actors ==> u.actors[x] == if x in ids then Cancel(t.actors[x]) else t.actors[x])
  {
  }

  /** The event neither begins nor reaches this transaction and is not one of its actor's. */
  predicate OnlyCloses(s: State, e: Event, x: TxId)
  {
    && !BeginsTx(s, e, x, Opened) && !BeginsTx(s, e, x, TimedOut) && !Reaches(s, e, x)
    && !(e.ActorMove? && e.txId == x) && e != Deliver(x)
  }

  /** An arm that cancels and drops, seen by one transaction. */
  lemma ClosingLaw(s: State, e: Event, u: State, x: TxId)
    requires RowOk(s.txs, x) && OnlyCloses(s, e, x)
    requires x in u.txs.open <==> x in s.txs.open && !DropsTx(s, e, x)
    requires x in s.txs.open && DropsTx(s, e, x) ==> x in u.txs.fate && u.txs.fate[x] == Abandoned
    requires u.txs.finishing == s.txs.finishing
    requires x in u.txs.open ==> Lookup(u.txs.owner, x) == Lookup(s.txs.owner, x)
    requires x in u.txs.tracked <==> x in s.txs.tracked && e != TxDone(x) && !TakesActor(s, e, x)
    requires x in u.txs.tracked ==> u.txs.tracked[x] == s.txs.tracked[x]
    requires x in u.txs.actors <==> x in s.txs.actors
    requires x in s.txs.actors ==> u.txs.actors[x] == if CancelsTx(s, e, x) then Cancel(s.txs.actors[x]) else s.txs.actors[x]
    ensures TxLaw(s, e, u, x)
  {
    if x in s.txs.actors && CancelsTx(s, e, x) { OneTouch(s.txs.actors[x], Cancelled); }
  }

  lemma DropLaw(s: State, e: Event, u: State, ids: set<TxId>, x: TxId)
    requires RowOk(s.txs, x) && OnlyCloses(s, e, x) && !TakesActor(s, e, x) && !DeniesTx(s, e, x) && e != TxDone(x)
    requires u.txs == Abandon(s.txs, ids) && (x in s.txs.open ==> (x in ids <==> DropsTx(s, e, x)))
    ensures TxLaw(s, e, u, x)
  {
    AbandonOne(s.txs, ids, x);
    ClosingLaw(s, e, u, x);
  }

  lemma TakeLaw(s: State, e: Event, u: State, ids: set<TxId>, x: TxId)
    requires RowOk(s.txs, x) && OnlyCloses(s, e, x) && !DropsTx(s, e, x)
    requires u.txs == Untrack(s.txs, ids) && (x in ids <==> TakesActor(s, e, x))
    ensures TxLaw(s, e, u, x)
  {
    UntrackOne(s.txs, ids, x);
    ClosingLaw(s, e, u, x);
  }

  lemma DoneLaw(s: State, y: TxId, x: TxId)
    requires RowOk(s.txs, x) && Enabled(s, TxDone(y))
    ensures TxLaw(s, TxDone(y), Apply(s, TxDone(y)), x)
  {
    var t := s.txs.(tracked := s.txs.tracked - {y});
    var u := s.(txs := Abandon(t, {y}));
    AbandonOne(t, {y}, x);
    if x == y { ClosingLaw(s, TxDone(y), u, x); } else { Unconcerned(s, TxDone(y), u, x); }
  }

  lemma ResumeLaw(s: State, x: TxId)
    requires RowOk(s.txs, x) && Enabled(s, Resume)
    ensures TxLaw(s, Resume, Apply(s, Resume), x)
  {
    var ids := if s.pc.after.Resolve? || s.pc.after.Expire? then OwnedBy(s.txs.owner, s.pc.after.invocation) else s.txs.open;
    var u := AfterResume(s, s.pc.after);
    assert u.txs == Abandon(s.txs, ids);
    DropLaw(s, Resume, u, ids, x);
  }

  lemma ArmTakesLaw(s: State, e: Event, x: TxId)
    requires RowOk(s.txs, x) && Enabled(s, e) && ClosesActors(e)
    ensures TxLaw(s, e, Apply(s, e), x)
  {
    if e.Expiry? && !Waits(s, e.request, e.invocation) {
      Unconcerned(s, e, s, x);
    } else {
      var ids := if e.Expiry? then OwnedBy(s.txs.tracked, e.invocation) else s.txs.tracked.Keys;
      var u := s.(txs := Untrack(s.txs, ids));
      TakeLaw(s, e, u, ids, x);
      assert Apply(s, e).txs == u.txs;
    }
  }

  // ---- Messages ----

  /** The tables after a begin that goes through. */
  lemma BeginTables(s: State, q: Option<InvocationId>, x: TxId, outcome: BeginOutcome)
    requires |s.txs.open| < 4 && Admissible(s, q) && !outcome.Refused? && x !in s.txs.owner && x !in s.txs.tracked
    ensures var u, opens := Begin(s, q, x, outcome).txs, outcome.Opened?;
            && u.open == (if opens then s.txs.open + {x} else s.txs.open) && u.finishing == s.txs.finishing
            && x in u.actors && u.actors[x] == Fresh && x in u.born && u.born[x] == Birth(q, s.cfg.scoped && Speaks4(s), !opens)
            && Lookup(u.owner, x) == (if opens then q else None)
            && Lookup(u.tracked, x) == (if opens && s.cfg.kind.Approved? then q else None)
            && (!opens ==> x in u.fate && u.fate[x] == Abandoned)
  {
  }

  lemma BirthLaw(s: State, e: Event, u: State, x: TxId)
    requires x !in s.txs.actors && x !in s.txs.tracked && x !in s.txs.finishing && x !in s.txs.open
    requires BeginsTx(s, e, x, Opened) || BeginsTx(s, e, x, TimedOut)
    requires x in u.txs.open <==> e.msg.outcome.Opened?
    requires u.txs.finishing == s.txs.finishing
    requires x in u.txs.actors && u.txs.actors[x] == Fresh
    requires x in u.txs.born && u.txs.born[x] == Birth(e.msg.quoted, s.cfg.scoped && Speaks4(s), e.msg.outcome.TimedOut?)
    requires e.msg.outcome.Opened? ==> Lookup(u.txs.owner, x) == e.msg.quoted
    requires Lookup(u.txs.tracked, x) == if e.msg.outcome.Opened? && s.cfg.kind.Approved? then e.msg.quoted else None
    requires e.msg.outcome.TimedOut? ==> x in u.txs.fate && u.txs.fate[x] == Abandoned
    ensures TxLaw(s, e, u, x)
  {
  }

  lemma BeginElsewhere(s: State, q: Option<InvocationId>, y: TxId, outcome: BeginOutcome, x: TxId)
    requires y != x
    ensures SameTx(s.txs, Begin(s, q, y, outcome).txs, x)
  {
  }

  lemma BeginLaw(s: State, e: Event, x: TxId)
    requires RowOk(s.txs, x) && Enabled(s, e) && Hears(s, e) && e.msg.SqlBegin?
    ensures TxLaw(s, e, Begin(s, e.msg.quoted, e.msg.tx, e.msg.outcome), x)
  {
    var y, u := e.msg.tx, Begin(s, e.msg.quoted, e.msg.tx, e.msg.outcome);
    if BeginsTx(s, e, x, Opened) || BeginsTx(s, e, x, TimedOut) {
      BeginTables(s, e.msg.quoted, x, e.msg.outcome);
      BirthLaw(s, e, u, x);
    } else {
      if y != x { BeginElsewhere(s, e.msg.quoted, y, e.msg.outcome, x); }
      Unconcerned(s, e, u, x);
    }
  }

  lemma AskElsewhere(t: Txs, y: TxId, commit: bool, x: TxId)
    requires y != x
    ensures SameTx(t, Ask(t, y, commit), x)
  {
  }

  /** A session that is handed over. */
  lemma AskLaw(s: State, e: Event, u: State, y: TxId, x: TxId, commit: bool)
    requires RowOk(s.txs, x) && Reaches(s, e, y) && u.txs == Ask(s.txs, y, commit)
    requires if commit then CommitsTx(s, e, y) else RollsBackTx(s, e, y) && !CommitsTx(s, e, y)
    ensures TxLaw(s, e, u, x)
  {
    if y != x {
      AskElsewhere(s.txs, y, commit, x);
      Unconcerned(s, e, u, x);
    }
  }

  lemma PushElsewhere(t: Txs, y: TxId, c: Command, x: TxId)
    requires y != x && y in t.actors
    ensures SameTx(t, Push(t, y, c), x)
  {
  }

  lemma PushLaw(s: State, e: Event, u: State, y: TxId, x: TxId)
    requires RowOk(s.txs, x) && QueuesTx(s, e, y) && CanQueue(s.txs, y)
    requires u.txs == Push(s.txs, y, if e.msg.withinRate then Exec else Poison)
    ensures TxLaw(s, e, u, x)
  {
    var c := if e.msg.withinRate then Exec else Poison;
    if y != x {
      PushElsewhere(s.txs, y, c, x);
      Unconcerned(s, e, u, x);
    } else {
      OneTouch(s.txs.actors[x], Queued(c));
    }
  }

  lemma AdmittedIff(s: State, x: TxId, quoted: Option<InvocationId>)
    ensures TxMessageAdmitted(s, x, quoted) <==> MayTouch(s, x, quoted)
  {
  }

  lemma TxMessageLaw(s: State, e: Event, y: TxId, x: TxId)
    requires RowOk(s.txs, x) && Enabled(s, e) && Hears(s, e) && Names(e, y)
    ensures TxLaw(s, e, TxMessage(s, e.msg.quoted, y, e.msg), x)
  {
    var u := TxMessage(s, e.msg.quoted, y, e.msg);
    AdmittedIff(s, y, e.msg.quoted);
    if y !in s.txs.open {
      Unconcerned(s, e, u, x);
    } else if QueuesTx(s, e, y) {
      PushLaw(s, e, u, y, x);
    } else {
      AskLaw(s, e, u, y, x, CommitsTx(s, e, y));
    }
  }

  lemma AnswerLaw(s: State, e: Event, x: TxId)
    requires RowOk(s.txs, x) && Enabled(s, e) && Hears(s, e) && (e.msg.RpcResponse? || e.msg.JobResult?)
    ensures TxLaw(s, e, Dispatch(s, e.msg), x)
  {
    var u := Dispatch(s, e.msg);
    if e.msg.RpcResponse? && e.msg.id in s.rpcs {
      var ids := OwnedBy(s.txs.tracked, s.rpcs[e.msg.id]);
      assert u.txs == Untrack(s.txs, ids);
      TakeLaw(s, e, u, ids, x);
    } else if e.msg.JobResult? && e.msg.job.Numeric? && e.msg.job.n in s.jobs.invocations {
      var ids := OwnedBy(s.txs.owner, s.jobs.invocations[e.msg.job.n]);
      assert u.txs == Abandon(s.txs, ids);
      DropLaw(s, e, u, ids, x);
    } else {
      Unconcerned(s, e, u, x);
    }
  }

  lemma HeardLaw(s: State, e: Event, x: TxId)
    requires RowOk(s.txs, x) && Enabled(s, e) && Hears(s, e)
    ensures TxLaw(s, e, Dispatch(s, e.msg), x)
  {
    if e.msg.SqlBegin? {
      BeginLaw(s, e, x);
    } else if e.msg.SqlExec? || e.msg.SqlCommit? || e.msg.SqlRollback? {
      TxMessageLaw(s, e, e.msg.tx, x);
    } else if e.msg.RpcResponse? || e.msg.JobResult? {
      AnswerLaw(s, e, x);
    } else {
      Unconcerned(s, e, Dispatch(s, e.msg), x);
    }
  }

  /** A denied message about a transaction of an approved worker, and perhaps the end of the worker. */
  lemma DeniedTxs(s: State, e: Event, x: TxId)
    requires RowOk(s.txs, x) && Enabled(s, e) && e.Inbound? && Gate(s, e.msg) == Deny
    ensures var u := Denied(s, e.msg).txs;
            && (x in u.open <==> x in s.txs.open && !DeniesTx(s, e, x))
            && (x in s.txs.open && DeniesTx(s, e, x) ==> x in u.fate && u.fate[x] == Abandoned)
            && u.finishing == s.txs.finishing && u.tracked == s.txs.tracked
            && (x in u.open ==> Lookup(u.owner, x) == Lookup(s.txs.owner, x))
            && (x in u.actors <==> x in s.txs.actors)
            && (x in s.txs.actors ==>
                  u.actors[x] == if DeniesTx(s, e, x) && (x in s.txs.open || x in s.txs.tracked) then Cancel(s.txs.actors[x]) else s.txs.actors[x])
  {
    if s.cfg.kind.Approved? && (e.msg.SqlExec? || e.msg.SqlCommit? || e.msg.SqlRollback?) {
      var y := e.msg.tx;
      var t := s.txs.(actors := CancelActors(s.txs.actors, if y in s.txs.tracked then {y} else {}));
      assert Denied(s, e.msg).txs == Abandon(t, {y});
      AbandonOne(t, {y}, x);
    }
  }

  /** A message that does not get through and does not end an approved worker. */
  lemma TurnedAwayLaw(s: State, e: Event, d: State, x: TxId)
    requires RowOk(s.txs, x) && Enabled(s, e) && e.Inbound? && !Hears(s, e) && !(Fatal(s, e) && s.cfg.kind.Approved?)
    requires d.txs == if Gate(s, e.msg) == Deny then Denied(s, e.msg).txs else s.txs
    ensures TxLaw(s, e, d, x)
  {
    if Gate(s, e.msg) == Deny {
      DeniedTxs(s, e, x);
      ClosingLaw(s, e, d, x);
    } else {
      Unconcerned(s, e, d, x);
    }
  }

  /** One that does. */
  lemma FatalLaw(s: State, e: Event, d: State, u: State, x: TxId)
    requires RowOk(s.txs, x) && Enabled(s, e) && Fatal(s, e) && s.cfg.kind.Approved?
    requires d.txs == if Gate(s, e.msg) == Deny then Denied(s, e.msg).txs else s.txs
    requires u.txs == Untrack(d.txs, s.txs.tracked.Keys)
    ensures TxLaw(s, e, u, x)
  {
    if Gate(s, e.msg) == Deny { DeniedTxs(s, e, x); }
    UntrackOne(d.txs, s.txs.tracked.Keys, x);
    ClosingLaw(s, e, u, x);
  }

  lemma RebuffedLaw(s: State, e: Event, x: TxId)
    requires RowOk(s.txs, x) && Enabled(s, e) && e.Inbound? && !Hears(s, e)
    ensures TxLaw(s, e, Apply(s, e), x)
  {
    var d := Rebuffed(s, e);
    if Fatal(s, e) && s.cfg.kind.Approved? {
      assert d.txs.tracked == s.txs.tracked;
      FatalLaw(s, e, d, Apply(s, e), x);
    } else {
      assert Apply(s, e).txs == d.txs;
      TurnedAwayLaw(s, e, Apply(s, e), x);
    }
  }

  // ---- The environment ----

  lemma MoveElsewhere(t: Txs, y: TxId, a: Actor, x: TxId)
    requires y != x && y in t.actors
    ensures SameTx(t, t.(actors := t.actors[y := a]), x)
  {
  }

  lemma MoveLaw(s: State, y: TxId, m: Move, x: TxId)
    requires RowOk(s.txs, x) && Enabled(s, ActorMove(y, m))
    ensures TxLaw(s, ActorMove(y, m), Apply(s, ActorMove(y, m)), x)
  {
    if x == y {
      OneTouch(s.txs.actors[x], Moved(m));
    } else {
      MoveElsewhere(s.txs, y, Do(s.txs.actors[y], m), x);
      Unconcerned(s, ActorMove(y, m), Apply(s, ActorMove(y, m)), x);
    }
  }

  lemma DeliverElsewhere(s: State, y: TxId, x: TxId)
    requires y != x && Enabled(s, Deliver(y))
    ensures SameTx(s.txs, Apply(s, Deliver(y)).txs, x)
  {
  }

  lemma DeliverLaw(s: State, y: TxId, x: TxId)
    requires RowOk(s.txs, x) && Enabled(s, Deliver(y))
    ensures TxLaw(s, Deliver(y), Apply(s, Deliver(y)), x)
  {
    if x != y {
      DeliverElsewhere(s, y, x);
      Unconcerned(s, Deliver(y), Apply(s, Deliver(y)), x);
    } else if CanQueue(s.txs, x) {
      OneTouch(s.txs.actors[x], Queued(if s.txs.finishing[x] then Commit else Rollback));
    }
  }

  lemma MessageLaw(s: State, e: Event, x: TxId)
    requires Enabled(s, e) && RowOk(s.txs, x) && e.Inbound?
    ensures TxLaw(s, e, Apply(s, e), x)
  {
    if Hears(s, e) {
      Heard(s, e);
      HeardLaw(s, e, x);
    } else {
      RebuffedLaw(s, e, x);
    }
  }

  lemma CommandLaw(s: State, e: Event, x: TxId)
    requires Enabled(s, e) && RowOk(s.txs, x) && LeavesTxsAlone(e)
    ensures TxLaw(s, e, Apply(s, e), x)
  {
    TxsLeftAlone(s, e);
    Unconcerned(s, e, Apply(s, e), x);
  }

  /** What every event does to every transaction. */
  lemma TxStep(s: State, e: Event, x: TxId)
    requires Enabled(s, e) && RowOk(s.txs, x)
    ensures TxLaw(s, e, Apply(s, e), x)
  {
    if LeavesTxsAlone(e) {
      CommandLaw(s, e, x);
    } else if ClosesActors(e) {
      ArmTakesLaw(s, e, x);
    } else {
      match e
      case Inbound(_, _) => MessageLaw(s, e, x);
      case Resume => ResumeLaw(s, x);
      case TxDone(y) => DoneLaw(s, y, x);
      case ActorMove(y, m) => MoveLaw(s, y, m, x);
      case Deliver(y) => DeliverLaw(s, y, x);
    }
  }

  // ---- What is waited for, and what is resolved ----

  /** Why an arm starts to wait. */
  predicate BeginsWait(s: State, e: Event, after: After)
  {
    match after
    case Resolve(inv) => e.Inbound? && e.msg.RpcResponse? && AnswersCall(s, e, e.msg.id) && s.rpcs[e.msg.id] == inv
    case Expire(id, inv) => e == Expiry(id, inv) && Waits(s, id, inv)
    case StopNow => e.StopCmd?
    case Recover(how) => e == Eof(how)
    case KillApproved => e.ResponseUndeliverable? || (Fatal(s, e) && s.cfg.kind.Approved?)
  }

  predicate WaitsFor(s: State, after: After)
  {
    s.pc.Closing? && s.pc.after == after
  }

  /** The loop is over once an approved worker was stopped. */
  predicate Quits(s: State, e: Event)
  {
    e.Resume? && s.cfg.kind.Approved? && (WaitsFor(s, StopNow) || WaitsFor(s, Recover(StoppedInBackoff)))
  }

  lemma WaitWhenHeard(s: State, msg: Message)
    requires MessageEnabled(s, msg) && (msg.RpcResponse? ==> msg.id !in s.rpcs)
    ensures Dispatch(s, msg).pc == s.pc
  {
    if AboutTx(msg) { TxMessagesKeepWork(s, msg); }
  }

  lemma WaitByMessage(s: State, e: Event, after: After)
    requires Enabled(s, e) && e.Inbound?
    ensures WaitsFor(Apply(s, e), after) <==> BeginsWait(s, e, after)
    ensures !Apply(s, e).pc.Exited?
  {
    if !Hears(s, e) {
      var d := Rebuffed(s, e);
    } else {
      Heard(s, e);
      if !e.msg.RpcResponse? || e.msg.id !in s.rpcs { WaitWhenHeard(s, e.msg); }
    }
  }

  lemma WaitOtherwise(s: State, e: Event, after: After)
    requires Enabled(s, e) && !e.Inbound? && !e.Resume?
    ensures WaitsFor(Apply(s, e), after) <==> BeginsWait(s, e, after) || WaitsFor(s, after)
    ensures Apply(s, e).pc.Exited? <==> s.pc.Exited?
  {
    if Environment(e) { EnvironmentKeepsWork(s, e); }
  }

  lemma WaitStep(s: State, e: Event, after: After)
    requires Enabled(s, e)
    ensures WaitsFor(Apply(s, e), after) <==> BeginsWait(s, e, after) || (WaitsFor(s, after) && !e.Resume?)
    ensures Apply(s, e).pc.Exited? <==> s.pc.Exited? || Quits(s, e)
  {
    match e
    case Inbound(_, _) => WaitByMessage(s, e, after);
    case Resume =>
    case _ => WaitOtherwise(s, e, after);
  }

  /** The call of this invocation is given its result or its error. */
  predicate Resolves(s: State, e: Event, inv: InvocationId)
  {
    || Ends(s, e, Resolve(inv))
    || (Ends(s, e, KillApproved) && inv in s.rpcs.Values)
    || (e.Resume? && s.pc.Closing? && s.pc.after.Recover? && s.cfg.kind.Approved? && inv in s.rpcs.Values)
  }

  lemma ResolvedByMessage(s: State, e: Event)
    requires Enabled(s, e) && e.Inbound?
    ensures Apply(s, e).resolved == s.resolved
  {
    if !Hears(s, e) {
      var d := Rebuffed(s, e);
    } else {
      Heard(s, e);
      if AboutTx(e.msg) { TxMessagesKeepWork(s, e.msg); }
    }
  }

  lemma ResolvedStep(s: State, e: Event, inv: InvocationId)
    requires Enabled(s, e)
    ensures inv in Apply(s, e).resolved <==> inv in s.resolved || Resolves(s, e, inv)
  {
    if e.Inbound? { ResolvedByMessage(s, e); } else if Environment(e) { EnvironmentKeepsWork(s, e); }
  }
}
